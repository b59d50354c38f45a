/**
 OrderProcessor: numbers, validates, matches and reports messages over its pools and ten dense books, and
 resets between files. Its effect on the abstract state is exactly Exchange.Handle.
 */
module Processor {
  import opened Types
  import opened PriceText
  import opened Matching
  import opened MemPool
  import opened OrderBookView
  import opened PriorityView
  import opened BitmaskBook
  import opened MapBook
  import opened OrderBooks
  import opened Exchange
  import opened Engine

  const ORDER_POOL_CAPACITY: nat := 65536
  const REPORT_POOL_CAPACITY: nat := 8192

  const BLANK_ORDER: Order := Order("", "", Rose, Buy, 0, 0)
  const BLANK_REPORT: Report := Report("", "", None, Buy, 0, 0, New, "", "")

  ghost predicate EmptyBook(b: OrderBook)
    reads b.Objects(), b.Members()`obj
  {
    b.Valid() && b.View() == map[] && b.Home() == map[] && forall t: nat :: t < TICK_CAPACITY ==> b.Fits(t)
  }

  lemma EmptyBookKeeps(b: OrderBook, instrument: Instrument, side: Side)
    requires EmptyBook(b)
    ensures b.Valid() && Within(b.View(), TICK_CAPACITY) && b.Members() == {}
    ensures Keeps(b, instrument, side, TICK_CAPACITY)
    ensures QueueOf(b, side, TICK_CAPACITY) == []
  {
    FlatFromSkip(b.View(), side, TICK_CAPACITY, 0, TICK_CAPACITY);
  }

  /** The engine works over any book strategy; the exchange itself runs on the dense one. */
  datatype Strategy = DenseBooks | SparseBooks

  predicate Of(strategy: Strategy, book: OrderBook) {
    book.Dense? <==> strategy == DenseBooks
  }

  method NewBook(strategy: Strategy) returns (book: OrderBook)
    ensures EmptyBook(book) && fresh(book.Objects())
    ensures Of(strategy, book)
  {
    match strategy
    case DenseBooks =>
      var b := new BitmaskOrderBook(TICK_CAPACITY);
      book := Dense(b);
    case SparseBooks =>
      var t := new MapOrderBook();
      book := Sparse(t);
  }

  /** One array of empty books, one per instrument. */
  method NewBooks(strategy: Strategy) returns (books: seq<OrderBook>)
    ensures |books| == INSTRUMENTS && forall k :: 0 <= k < |books| ==> Of(strategy, books[k])
    ensures forall k :: 0 <= k < |books| ==> EmptyBook(books[k]) && fresh(books[k].Objects())
    ensures forall j, k :: 0 <= j < k < |books| ==> books[j].Objects() !! books[k].Objects()
  {
    hide OrderBook.Valid;
    books := [];
    while |books| < INSTRUMENTS
      invariant |books| <= INSTRUMENTS && forall k :: 0 <= k < |books| ==> Of(strategy, books[k])
      invariant forall k :: 0 <= k < |books| ==> EmptyBook(books[k]) && fresh(books[k].Objects())
      invariant forall j, k :: 0 <= j < k < |books| ==> books[j].Objects() !! books[k].Objects()
    {
      label before:
      var b := NewBook(strategy);
      StillEmpty@before(books);
      books := books + [b];
    }
  }

  /** Ten distinct empty books. */
  ghost predicate FreshBooks(books: seq<OrderBook>)
    reads set k, o | 0 <= k < |books| && o in books[k].Objects() :: o
    reads set k, p | 0 <= k < |books| && p in books[k].Members() :: p
  {
    && |books| == 2 * INSTRUMENTS
    && (forall k :: 0 <= k < |books| ==> EmptyBook(books[k]))
    && (forall j, k :: 0 <= j < k < |books| ==> books[j].Objects() !! books[k].Objects())
  }

  /** An engine on new books has nothing to match against. */
  lemma EmptyEngine(m: MatchingEngine)
    requires |m.buyBooks| == INSTRUMENTS && m.capacity == TICK_CAPACITY && FreshBooks(m.AllBooks())
    ensures m.Kept() && m.Members() == {} && m.CurrentMarket() == EMPTY_MARKET
  {
    hide OrderBook.Valid, Within, Keeps, QueueOf, EmptyBook;
    forall k | 0 <= k < |m.AllBooks()|
      ensures m.AllBooks()[k].Valid() && Within(m.AllBooks()[k].View(), TICK_CAPACITY)
      ensures Keeps(m.AllBooks()[k], InstrumentOf(k), SideOf(k), TICK_CAPACITY)
      ensures m.AllBooks()[k].Members() == {}
      ensures QueueOf(m.AllBooks()[k], SideOf(k), TICK_CAPACITY) == []
    {
      EmptyBookKeeps(m.AllBooks()[k], InstrumentOf(k), SideOf(k));
    }
    assert forall k: nat :: k < 2 * INSTRUMENTS ==> m.QueueAt(k) == [];
  }

  /** rebuild_matcher, over new books. */
  method NewEngine(orderPool: MemPool<Cell>, reportPool: MemPool<Report>, strategy: Strategy)
    returns (m: MatchingEngine)
    ensures fresh(m) && fresh(m.Objects()) && m.Kept() && m.Members() == {} && m.CurrentMarket() == EMPTY_MARKET
    ensures UsesBooks(m, strategy)
    ensures m.orderPool == orderPool && m.reportPool == reportPool && m.capacity == TICK_CAPACITY
  {
    hide EmptyBook, MatchingEngine.Objects, MatchingEngine.Kept, MatchingEngine.Members, MatchingEngine.CurrentMarket;
    var buys := NewBooks(strategy);
    label before:
    var sells := NewBooks(strategy);
    StillEmpty@before(buys);
    label built:
    m := new MatchingEngine(orderPool, reportPool, buys, sells, TICK_CAPACITY);
    StillEmpty@built(buys);
    StillEmpty@built(sells);
    TwoHalves(buys, sells);
    EmptyEngine(m);
    AllFresh(m);
  }

  twostate lemma AllFresh(new m: MatchingEngine)
    requires forall k :: 0 <= k < |m.AllBooks()| ==> fresh(m.AllBooks()[k].Objects())
    ensures fresh(m.Objects())
  {
    hide OrderBook.Objects;
  }

  lemma TwoHalves(buys: seq<OrderBook>, sells: seq<OrderBook>)
    requires |buys| == INSTRUMENTS && |sells| == INSTRUMENTS
    requires forall k :: 0 <= k < |buys| ==> EmptyBook(buys[k])
    requires forall k :: 0 <= k < |sells| ==> EmptyBook(sells[k])
    requires forall j, k :: 0 <= j < k < |buys| ==> buys[j].Objects() !! buys[k].Objects()
    requires forall j, k :: 0 <= j < k < |sells| ==> sells[j].Objects() !! sells[k].Objects()
    requires forall j, k :: 0 <= j < |buys| && 0 <= k < |sells| ==> buys[j].Objects() !! sells[k].Objects()
    ensures FreshBooks(buys + sells)
  {
    hide EmptyBook, OrderBook.Objects;
  }

  twostate lemma StillEmpty(books: seq<OrderBook>)
    requires forall k :: 0 <= k < |books| ==> old(EmptyBook(books[k])) && unchanged(books[k].Objects())
    ensures forall k :: 0 <= k < |books| ==> EmptyBook(books[k])
  {
    hide OrderBook.Valid;
    forall k | 0 <= k < |books|
      ensures EmptyBook(books[k])
    {
      assert books[k].Members() == {};
    }
  }

  ghost predicate UsesBooks(m: MatchingEngine, strategy: Strategy) {
    forall k :: 0 <= k < |m.AllBooks()| ==> Of(strategy, m.AllBooks()[k])
  }

  /** Books are made of nothing that the processor or its pools are made of. */
  lemma BooksOnly(m: MatchingEngine)
    ensures forall o :: o in m.Objects() ==>
              && allocated(o) && !(o is OrderProcessor) && !(o is MatchingEngine)
              && !(o is MemPool<Cell>) && !(o is MemPool<Report>) && !(o is OrderPtr) && !(o is Node<Report>)
  {
  }

  class OrderProcessor {
    const strategy: Strategy
    var nextOid: nat
    const orderPool: MemPool<Cell>
    const reportPool: MemPool<Report>
    var matcher: MatchingEngine

    ghost predicate Valid()
      reads this, matcher, matcher.Objects(), matcher.Members()`obj
      reads orderPool, orderPool.Slots()`isFree, orderPool.Slots()`next
      reads reportPool, reportPool.Slots()`isFree, reportPool.Slots()`next
    {
      && matcher.orderPool == orderPool && matcher.reportPool == reportPool && matcher.capacity == TICK_CAPACITY
      && UsesBooks(matcher, strategy)
      && matcher.Valid() && reportPool.Live() == {}
    }

    /** The processor as an exchange state: the next id and the market. */
    ghost function Abstract(): State
      requires Valid()
      reads this, matcher, matcher.Objects(), matcher.Members()`obj
      reads orderPool, orderPool.Slots()`isFree, orderPool.Slots()`next
      reads reportPool, reportPool.Slots()`isFree, reportPool.Slots()`next
    {
      State(nextOid, matcher.CurrentMarket())
    }

    /** Live orders that rest in no book: those a reset left behind. */
    ghost function Stranded(): set<OrderPtr>
      reads this, matcher, matcher.Objects()
      reads orderPool, orderPool.Slots()`isFree
    {
      orderPool.Live() - matcher.Members()
    }

    constructor (strategy: Strategy)
      ensures this.strategy == strategy
      ensures Valid() && Abstract() == INITIAL && Stranded() == {}
      ensures fresh(matcher) && fresh(matcher.Objects()) && fresh(orderPool) && fresh(reportPool)
      ensures fresh(orderPool.Slots()) && fresh(reportPool.Slots())
    {
      hide UsesBooks, MemPool.Valid, MatchingEngine.Kept, MatchingEngine.CurrentMarket, MatchingEngine.Members,
           MemPool.Live, MatchingEngine.Objects, OrderBook.Objects;
      nextOid := 1;
      var orders := new MemPool<Cell>(ORDER_POOL_CAPACITY, 1, Cell(BLANK_ORDER, null));
      var reports := new MemPool<Report>(REPORT_POOL_CAPACITY, 1, BLANK_REPORT);
      var m := NewEngine(orders, reports, strategy);
      BooksOnly(m);
      this.strategy, orderPool, reportPool, matcher := strategy, orders, reports, m;
    }

    /** reset: ids start over and the books are emptied; what rested in them stays allocated. */
    method Reset()
      requires Valid()
      modifies this`nextOid, this`matcher
      ensures Valid() && Abstract() == INITIAL
      ensures Stranded() == old(Stranded()) + old(matcher.Members())
      ensures fresh(matcher) && fresh(matcher.Objects())
    {
      hide UsesBooks, MemPool.Valid, MatchingEngine.Kept, MatchingEngine.CurrentMarket, MatchingEngine.Members;
      nextOid := 1;
      matcher := NewEngine(orderPool, reportPool, strategy);
    }

    /** Report a refusal; the market is not involved. */
    method Reject(r: Report) returns (reports: seq<Report>)
      requires Valid()
      modifies reportPool, reportPool.Slots()`isFree, reportPool.Slots()`next, reportPool.Slots()`obj
      ensures Valid() && Abstract() == old(Abstract()) && Stranded() == old(Stranded())
      ensures fresh(reportPool.Slots() - old(reportPool.Slots()))
      ensures reports == [r]
    {
      hide UsesBooks, MemPool.Valid, MatchingEngine.Kept, MatchingEngine.CurrentMarket, MemPool.Live;
      var sent := matcher.Emit(r);
      matcher.BooksUntouched();
      reports := [sent];
    }

    /** Allocate an accepted order; until it is processed it is live but rests nowhere. */
    method Admit(order: Order) returns (p: OrderPtr)
      requires Valid()
      modifies orderPool, orderPool.Slots()`isFree, orderPool.Slots()`next, orderPool.Slots()`obj
      ensures Valid() && Abstract() == old(Abstract()) && matcher.Members() == old(matcher.Members())
      ensures p in orderPool.Live() && p !in matcher.Members() && p !in old(orderPool.Live())
      ensures orderPool.Live() == old(orderPool.Live()) + {p} && p.obj == Cell(order, null)
      ensures fresh(orderPool.Slots() - old(orderPool.Slots()))
    {
      hide UsesBooks, MemPool.Valid, MatchingEngine.Kept, MatchingEngine.CurrentMarket;
      p := orderPool.Allocate(Cell(order, null));
      matcher.BooksUntouched();
    }

    /** Match an accepted order: the market moves as Process says and nothing is stranded. */
    method Accept(order: Order, ts: string) returns (reports: seq<Report>)
      requires Valid() && order.price < TICK_CAPACITY
      modifies matcher.Objects(), matcher.Members()`obj
      modifies orderPool, orderPool.Slots()`isFree, orderPool.Slots()`next, orderPool.Slots()`obj
      modifies reportPool, reportPool.Slots()`isFree, reportPool.Slots()`next, reportPool.Slots()`obj
      ensures Valid() && Stranded() == old(Stranded())
      ensures var i := Index(order.instrument);
              var r := Process(old(matcher.CurrentMarket())[i], order, ts);
              reports == r.reports && matcher.CurrentMarket() == old(matcher.CurrentMarket())[i := r.books]
      ensures fresh(orderPool.Slots() - old(orderPool.Slots())) && fresh(reportPool.Slots() - old(reportPool.Slots()))
    {
      hide UsesBooks, MemPool.Valid, MatchingEngine.Kept, MatchingEngine.CurrentMarket, MatchingEngine.Members, Process,
           MatchingEngine.Objects, OrderBook.Objects;
      BooksOnly(matcher);
      var p := Admit(order);
      reports := matcher.ProcessOrder(p, ts);
    }

    /** One turn of consume: number the message, then reject it or have it matched. */
    method HandleMessage(msg: Message, ts: string) returns (reports: seq<Report>, out: seq<Outbound>)
      requires Valid()
      modifies this`nextOid, matcher.Objects(), matcher.Members()`obj
      modifies orderPool, orderPool.Slots()`isFree, orderPool.Slots()`next, orderPool.Slots()`obj
      modifies reportPool, reportPool.Slots()`isFree, reportPool.Slots()`next, reportPool.Slots()`obj
      ensures Valid() && Stranded() == old(Stranded())
      ensures Outcome(Abstract(), reports, out) == Handle(old(Abstract()), Event(msg, ts))
      ensures fresh(orderPool.Slots() - old(orderPool.Slots())) && fresh(reportPool.Slots() - old(reportPool.Slots()))
    {
      hide UsesBooks, MemPool.Valid, MatchingEngine.Kept, MatchingEngine.CurrentMarket, MatchingEngine.Members,
           MatchingEngine.Objects, OrderBook.Objects, Process, Handle, Publish, Refusal, AcceptedOrder, RejectReport,
           PublishAll, OrderId, Index, ToTicks;
      BooksOnly(matcher);
      var oid := OrderId(nextOid);
      if Refusal(msg).Some? {
        HandleRefused(Abstract(), Event(msg, ts));
        reports := Reject(RejectReport(msg, oid, ts));
      } else {
        HandleAccepted(Abstract(), Event(msg, ts));
        AcceptedInRange(msg, oid);
        reports := Accept(AcceptedOrder(msg, oid), ts);
      }
      nextOid := nextOid + 1;
      out := PublishAll(msg, reports);
    }

    /** consume, given the messages it will pop: from a reset state it emits exactly the reports of the run. */
    method ConsumeAll(events: seq<Event>) returns (reports: seq<Report>, out: seq<Outbound>)
      requires Valid() && Abstract() == INITIAL
      modifies this`nextOid, matcher.Objects(), matcher.Members()`obj
      modifies orderPool, orderPool.Slots()`isFree, orderPool.Slots()`next, orderPool.Slots()`obj
      modifies reportPool, reportPool.Slots()`isFree, reportPool.Slots()`next, reportPool.Slots()`obj
      ensures Valid() && Stranded() == old(Stranded())
      ensures Outcome(Abstract(), reports, out) == Run(events)
    {
      hide Valid, Abstract, Stranded, MatchingEngine.Members, MatchingEngine.Objects, OrderBook.Objects, Handle, Run;
      BooksOnly(matcher);
      reports, out := [], [];
      RunStart();
      var i := 0;
      while i < |events|
        invariant 0 <= i <= |events|
        invariant Valid() && Stranded() == old(Stranded())
        invariant Outcome(Abstract(), reports, out) == Run(events[..i])
        invariant fresh(orderPool.Slots() - old(orderPool.Slots()))
        invariant fresh(reportPool.Slots() - old(reportPool.Slots()))
      {
        RunExtends(events, i);
        MembersPooled();
        var r, o := HandleMessage(events[i].msg, events[i].timestamp);
        reports, out := reports + r, out + o;
        i := i + 1;
      }
      assert events[..i] == events;
    }

    /** reset and consume, as for each file in turn: what earlier files left in the books is stranded, nothing else. */
    method ConsumeFile(events: seq<Event>) returns (reports: seq<Report>, out: seq<Outbound>)
      requires Valid()
      modifies this`nextOid, this`matcher
      modifies orderPool, orderPool.Slots()`isFree, orderPool.Slots()`next, orderPool.Slots()`obj
      modifies reportPool, reportPool.Slots()`isFree, reportPool.Slots()`next, reportPool.Slots()`obj
      ensures Valid() && Outcome(Abstract(), reports, out) == Run(events)
      ensures Stranded() == old(Stranded()) + old(matcher.Members())
    {
      hide Valid, Abstract, Stranded, MatchingEngine.Members, MatchingEngine.Objects, OrderBook.Objects, Run;
      Reset();
      MembersPooled();
      reports, out := ConsumeAll(events);
    }

    /**
     Where an order of a run rests: in one book only, that of its own instrument and side, at the level of its
     own price, with a positive multiple of ten up to 1000 left, in a pool slot that is not free.
     */
    lemma RestingOrder(events: seq<Event>, k: nat, p: OrderPtr)
      requires Valid() && Abstract() == Run(events).state
      requires k < |matcher.AllBooks()| && p in matcher.AllBooks()[k].Members()
      ensures p in orderPool.Live()
      ensures p.obj.order.instrument == InstrumentOf(k) && p.obj.order.side == SideOf(k)
      ensures matcher.AllBooks()[k].Home()[p] == p.obj.order.price < TICK_CAPACITY
      ensures p.obj.order.quantity % QUANTITY_MULTIPLE == 0 && 0 < p.obj.order.quantity <= MAX_QUANTITY
      ensures forall j :: 0 <= j < |matcher.AllBooks()| && j != k ==> p !in matcher.AllBooks()[j].Members()
    {
      hide UsesBooks, Run, OrderBook.Valid, MemPool.Valid, QueueOf, Pointers, LegalQueue,
           MarketInArrivalOrder, OrderBook.Objects;
      RunKeepsMarketGood(events);
      QueueLegal(events, k);
      OrderLegal(matcher.AllBooks()[k], InstrumentOf(k), SideOf(k), p);
      OneBookOnly(k, p);
    }

    /** An order's instrument and side name its book. */
    lemma OneBookOnly(k: nat, p: OrderPtr)
      requires Valid() && k < |matcher.AllBooks()|
      requires p.obj.order.instrument == InstrumentOf(k) && p.obj.order.side == SideOf(k)
      ensures forall j :: 0 <= j < |matcher.AllBooks()| && j != k ==> p !in matcher.AllBooks()[j].Members()
    {
      hide UsesBooks, MemPool.Valid, OrderBook.Valid, OrderBook.Objects, OrderBook.Members, MatchingEngine.Members;
      forall j | 0 <= j < |matcher.AllBooks()| && p in matcher.AllBooks()[j].Members()
        ensures j == k
      {
        assert Keeps(matcher.AllBooks()[j], InstrumentOf(j), SideOf(j), TICK_CAPACITY);
      }
    }

    lemma QueueLegal(events: seq<Event>, k: nat)
      requires Valid() && Abstract() == Run(events).state && k < |matcher.AllBooks()|
      ensures Keeps(matcher.AllBooks()[k], InstrumentOf(k), SideOf(k), TICK_CAPACITY)
      ensures LegalQueue(matcher.QueueAt(k))
    {
      hide UsesBooks, Run, OrderBook.Valid, MemPool.Valid, QueueOf, LegalQueue, Keeps;
      RunKeepsMarketGood(events);
      assert LegalBooks(matcher.CurrentMarket()[k % INSTRUMENTS]);
    }

    lemma MembersPooled()
      requires Valid()
      ensures matcher.Members() <= orderPool.Slots()
    {
      hide MatchingEngine.Kept, MatchingEngine.Members, MemPool.Valid;
    }
  }

  /** Over any stream, the dense books and the ordered map of deques give the same reports and the same market. */
  method StrategiesAgree(events: seq<Event>)
    returns (dense: seq<Report>, sparse: seq<Report>, ghost denseEnd: State, ghost sparseEnd: State)
    ensures dense == sparse == Run(events).reports
    ensures denseEnd == sparseEnd == Run(events).state
  {
    hide UsesBooks, Run, MemPool.Valid, MatchingEngine.Kept, MatchingEngine.CurrentMarket, MatchingEngine.Members;
    var a := new OrderProcessor(DenseBooks);
    var rows;
    dense, rows := a.ConsumeAll(events);
    denseEnd := a.Abstract();
    var b := new OrderProcessor(SparseBooks);
    sparse, rows := b.ConsumeAll(events);
    sparseEnd := b.Abstract();
  }

  lemma OrderLegal(b: OrderBook, instrument: Instrument, side: Side, p: OrderPtr)
    requires Keeps(b, instrument, side, TICK_CAPACITY) && LegalQueue(QueueOf(b, side, TICK_CAPACITY))
    requires p in b.Members()
    ensures p.obj.order.instrument == instrument && p.obj.order.side == side
    ensures b.Home()[p] == p.obj.order.price < TICK_CAPACITY
    ensures p.obj.order.quantity % QUANTITY_MULTIPLE == 0 && 0 < p.obj.order.quantity <= MAX_QUANTITY
  {
    hide OrderBook.Valid, Flat, Orders, Within;
    var q := Pointers(b, side, TICK_CAPACITY);
    assert p in (set x | x in q);
    var i :| 0 <= i < |q| && q[i] == p;
    OrdersAt(q);
    assert QueueOf(b, side, TICK_CAPACITY)[i] == p.obj.order;
  }
}
