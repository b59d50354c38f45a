/**
 What an order book means, whichever strategy implements it: a map from price tick to the FIFO queue of
 the orders resting there (src/matching/order_book.h). Both strategies refine the operations below.
 */
module OrderBookView {
  import opened Types
  import opened MemPool

  /** The heap form of an order: its payload and the intrusive link to the next order of its price level. */
  datatype Cell = Cell(order: Order, next: Node?<Cell>)

  type OrderPtr = Node<Cell>

  /** A pointer that may be null. */
  type OrderLink = Node?<Cell>

  /** Nonempty price levels only, so that a book has one view. */
  type View = map<nat, seq<OrderPtr>>

  ghost function LevelAt(v: View, tick: nat): seq<OrderPtr> {
    if tick in v then v[tick] else []
  }

  ghost predicate NonEmptyLevels(v: View) {
    forall t :: t in v ==> v[t] != []
  }

  ghost function Appended(v: View, tick: nat, p: OrderPtr): View {
    v[tick := LevelAt(v, tick) + [p]]
  }

  ghost function Popped(v: View, tick: nat): View
    requires tick in v && v[tick] != []
  {
    if |v[tick]| == 1 then v - {tick} else v[tick := v[tick][1..]]
  }

  /** Every occupied tick is below `capacity`. */
  ghost predicate Within(v: View, capacity: nat) {
    forall t :: t in v ==> t < capacity
  }

  lemma ViewAppend(v: View, capacity: nat, tick: nat, p: OrderPtr)
    requires NonEmptyLevels(v) && Within(v, capacity) && tick < capacity
    ensures NonEmptyLevels(Appended(v, tick, p)) && Within(Appended(v, tick, p), capacity)
  {
  }

  lemma ViewPop(v: View, capacity: nat, tick: nat)
    requires NonEmptyLevels(v) && Within(v, capacity) && tick in v && v[tick] != []
    ensures NonEmptyLevels(Popped(v, tick)) && Within(Popped(v, tick), capacity)
  {
  }

  /** find_first: the least occupied tick, or -1 for an empty book. */
  ghost predicate IsFirst(v: View, r: int) {
    if v == map[] then r == -1 else r >= 0 && r as nat in v && forall t :: t in v ==> r <= t
  }

  /** find_last: the greatest occupied tick, or -1 for an empty book. */
  ghost predicate IsLast(v: View, r: int) {
    if v == map[] then r == -1 else r >= 0 && r as nat in v && forall t :: t in v ==> t <= r
  }

  /** Every order rests at exactly one place: at the tick `home` says, once. */
  ghost predicate Housed(v: View, home: map<OrderPtr, nat>) {
    && (forall t :: t in v ==> Distinct(v[t]) && forall p :: p in v[t] ==> p in home && home[p] == t)
    && (forall p :: p in home ==> home[p] in v && p in v[home[p]])
  }

  lemma HousedAppend(v: View, home: map<OrderPtr, nat>, tick: nat, p: OrderPtr)
    requires Housed(v, home) && p !in home
    ensures Housed(Appended(v, tick, p), home[p := tick])
  {
    var q := LevelAt(v, tick);
    forall x | x in q + [p]
      ensures x in home[p := tick] && home[p := tick][x] == tick
    {
      assert x in q || x == p;
    }
    assert (q + [p])[|q|] == p;
  }

  lemma HousedPop(v: View, home: map<OrderPtr, nat>, tick: nat)
    requires Housed(v, home) && tick in v && v[tick] != []
    ensures v[tick][0] in home && Housed(Popped(v, tick), home - {v[tick][0]})
  {
    var head := v[tick][0];
    assert head in v[tick];
    forall x | x in home && x != head
      ensures home[x] in Popped(v, tick) && x in Popped(v, tick)[home[x]]
    {
      if home[x] == tick {
        var i :| 0 <= i < |v[tick]| && v[tick][i] == x;
        assert v[tick][1..][i - 1] == x;
      }
    }
  }

  lemma EndsAppend(v: View, tick: nat, p: OrderPtr, first: int, last: int)
    requires IsFirst(v, first) && IsLast(v, last)
    ensures IsFirst(Appended(v, tick, p), if first < 0 || tick < first then tick else first)
    ensures IsLast(Appended(v, tick, p), if last < 0 || tick > last then tick else last)
  {
    assert tick in Appended(v, tick, p);
  }
}
