/** The strategy interface of src/matching/order_book.h as a closed choice: one contract, two strategies. */
module OrderBooks {
  import opened OrderBookView
  import opened BitmaskBook
  import opened MapBook

  datatype OrderBook =
    | Dense(bitmask: BitmaskOrderBook)
    | Sparse(tree: MapOrderBook)
  {
    /** The heap objects that make up the book, apart from the orders it links. */
    ghost function Objects(): set<object> {
      match this
      case Dense(b) => b.Footprint()
      case Sparse(t) => {t}
    }

    ghost function Home(): map<OrderPtr, nat>
      reads Objects()
    {
      match this
      case Dense(b) => b.home
      case Sparse(t) => t.home
    }

    /** The orders the book links. */
    ghost function Members(): set<OrderPtr>
      reads Objects()
    {
      Home().Keys
    }

    ghost function View(): View
      reads Objects()
    {
      match this
      case Dense(b) => b.view
      case Sparse(t) => t.priceLevels
    }

    ghost predicate Valid()
      reads Objects(), Members()`obj
    {
      match this
      case Dense(b) => b.Valid()
      case Sparse(t) => t.Valid()
    }

    /** Ticks the strategy can store: the dense one is an array. */
    ghost predicate Fits(tick: nat) {
      Dense? ==> tick < bitmask.capacity
    }

    lemma ViewFacts()
      requires Valid()
      ensures NonEmptyLevels(View()) && Housed(View(), Home())
    {
    }

    twostate lemma OnlyPayloadsChanged()
      requires old(Valid())
      requires unchanged(Objects())
      requires forall p :: p in Members() ==> p.obj.next == old(p.obj.next)
      ensures Valid() && View() == old(View()) && Home() == old(Home())
    {
      match this
      case Dense(b) => b.OnlyPayloadsChanged();
      case Sparse(t) =>
    }

    method AddOrder(tick: nat, p: OrderPtr)
      requires Valid() && Fits(tick) && p !in Members()
      modifies Objects(), Members()`obj, p`obj
      ensures Valid()
      ensures View() == Appended(old(View()), tick, p) && Home() == old(Home())[p := tick]
      ensures forall q :: q in Members() ==> q.obj.order == old(q.obj.order)
    {
      match this
      case Dense(b) => b.AddOrder(tick, p);
      case Sparse(t) => t.AddOrder(tick, p);
    }

    function PeekOrder(tick: nat): (r: OrderLink)
      requires Valid() && Fits(tick)
      reads Objects(), Members()`obj
      ensures r == if tick in View() then View()[tick][0] else null
    {
      match this
      case Dense(b) => b.PeekOrder(tick)
      case Sparse(t) => t.PeekOrder(tick)
    }

    function FindFirst(): (r: int)
      requires Valid()
      reads Objects(), Members()`obj
      ensures IsFirst(View(), r)
    {
      match this
      case Dense(b) => b.FindFirst()
      case Sparse(t) => t.FindFirst()
    }

    function FindLast(): (r: int)
      requires Valid()
      reads Objects(), Members()`obj
      ensures IsLast(View(), r)
    {
      match this
      case Dense(b) => b.FindLast()
      case Sparse(t) => t.FindLast()
    }

    method PopOrder(tick: nat) returns (head: OrderLink)
      requires Valid() && Fits(tick)
      modifies Objects(), Members()`obj
      ensures Valid()
      ensures tick !in old(View()) ==> head == null && View() == old(View()) && Home() == old(Home())
      ensures tick in old(View()) ==>
                && head == old(View())[tick][0] && head in old(Home()) && Home() == old(Home()) - {head}
                && View() == Popped(old(View()), tick)
      ensures forall q :: q in old(Members()) ==> q.obj.order == old(q.obj.order)
    {
      match this
      case Dense(b) => head := b.PopOrder(tick);
      case Sparse(t) => head := t.PopOrder(tick);
    }
  }
}
