/**
 MatchingEngine::process_order over the intrusive books and the object pools, proved equal to the
 function Process on price-time queues.
 */
module Engine {
  import opened Types
  import opened Matching
  import opened MemPool
  import opened OrderBookView
  import opened PriorityView
  import opened OrderBooks
  import opened Exchange

  function SideOf(k: nat): Side {
    if k < INSTRUMENTS then Buy else Sell
  }

  function InstrumentOf(k: nat): Instrument {
    var i := k % INSTRUMENTS;
    if i == 0 then Rose else if i == 1 then Lavender else if i == 2 then Lotus else if i == 3 then Tulip else Orchid
  }

  /** The book is well formed and every order in it belongs there. */
  ghost predicate Keeps(b: OrderBook, instrument: Instrument, side: Side, capacity: nat)
    reads b.Objects(), b.Members()`obj
  {
    && b.Valid() && (forall t: nat :: t < capacity ==> b.Fits(t)) && Within(b.View(), capacity)
    && AtOwnPrice(b.Home())
    && (forall p :: p in b.Members() ==> Resting(instrument, side, p.obj.order))
  }

  /** The same while the order `x` may have been emptied by a trade. */
  ghost predicate KeepsBut(b: OrderBook, instrument: Instrument, side: Side, capacity: nat, x: OrderPtr)
    reads b.Objects(), b.Members()`obj
  {
    && b.Valid() && (forall t: nat :: t < capacity ==> b.Fits(t)) && Within(b.View(), capacity)
    && AtOwnPrice(b.Home())
    && (forall p :: p in b.Members() && p != x ==> Resting(instrument, side, p.obj.order))
    && (x in b.Members() ==> x.obj.order.instrument == instrument && x.obj.order.side == side)
  }

  ghost function Pointers(b: OrderBook, side: Side, capacity: nat): (q: seq<OrderPtr>)
    requires b.Valid() && Within(b.View(), capacity)
    reads b.Objects(), b.Members()`obj
    ensures (set p | p in q) == b.Members()
  {
    b.ViewFacts();
    FlatMembers(b.View(), b.Home(), side, capacity);
    Flat(b.View(), side, capacity)
  }

  /** The book as one price-time priority queue of order values. */
  ghost function QueueOf(b: OrderBook, side: Side, capacity: nat): seq<Order>
    requires b.Valid() && Within(b.View(), capacity)
    reads b.Objects(), b.Members()`obj
  {
    Orders(Pointers(b, side, capacity))
  }

  /** The head of the best level is the head of the queue. */
  lemma BestIsHead(b: OrderBook, instrument: Instrument, side: Side, capacity: nat, r: int)
    requires Keeps(b, instrument, side, capacity) && IsBest(b.View(), side, r)
    ensures r < 0 ==> QueueOf(b, side, capacity) == []
    ensures r >= 0 ==>
              && r < capacity && r as nat in b.View() && b.View()[r] != [] && b.View()[r][0] in b.Members()
              && Pointers(b, side, capacity) != [] && Pointers(b, side, capacity)[0] == b.View()[r][0]
              && QueueOf(b, side, capacity) != []
              && QueueOf(b, side, capacity)[0] == b.View()[r][0].obj.order
              && QueueOf(b, side, capacity)[0].price == r && QueueOf(b, side, capacity)[0].quantity > 0
  {
    hide Within, IsBest, Housed;
    b.ViewFacts();
    OrdersAt(Pointers(b, side, capacity));
    FlatBest(b.View(), side, capacity, r);
    if r >= 0 {
      FlatPop(b.View(), side, capacity, r);
      HousedHead(b.View(), b.Home(), r);
    }
  }

  lemma HousedHead(v: View, home: map<OrderPtr, nat>, tick: nat)
    requires Housed(v, home) && tick in v && v[tick] != []
    ensures v[tick][0] in home && home[v[tick][0]] == tick
  {
    assert v[tick][0] in v[tick];
  }

  lemma KeepsGives(b: OrderBook, instrument: Instrument, side: Side, capacity: nat)
    requires Keeps(b, instrument, side, capacity)
    ensures b.Valid() && Within(b.View(), capacity) && forall t: nat :: t < capacity ==> b.Fits(t)
  {
  }

  /** Only the head's payload changed. */
  lemma OrdersHead(q: seq<OrderPtr>, before: seq<Order>)
    requires q != [] && |before| == |q| && forall i :: 1 <= i < |q| ==> before[i] == q[i].obj.order
    ensures Orders(q) == [q[0].obj.order] + before[1..]
  {
    OrdersAt(q);
  }

  lemma OrdersSame(q: seq<OrderPtr>, before: seq<Order>)
    requires |before| == |q| && forall i :: 0 <= i < |q| ==> before[i] == q[i].obj.order
    ensures Orders(q) == before
  {
    OrdersAt(q);
  }

  /** An instrument's two queues. */
  function BooksFrom(side: Side, own: seq<Order>, opp: seq<Order>): Books {
    if side == Buy then Books(own, opp) else Books(opp, own)
  }

  ghost function TwoQueues(opp: OrderBook, own: OrderBook, side: Side, capacity: nat): Books
    requires opp.Valid() && Within(opp.View(), capacity) && own.Valid() && Within(own.View(), capacity)
    reads opp.Objects(), opp.Members()`obj, own.Objects(), own.Members()`obj
  {
    BooksFrom(side, QueueOf(own, side, capacity), QueueOf(opp, Opposite(side), capacity))
  }

  /** The two sides of an instrument share no order. */
  lemma MembersApart(opp: OrderBook, own: OrderBook, instrument: Instrument, side: Side, capacity: nat)
    requires Keeps(opp, instrument, Opposite(side), capacity) && Keeps(own, instrument, side, capacity)
    ensures opp.Members() !! own.Members()
  {
  }

  /** `inc` met the head of `q`: what is left of both, the queue with the head reduced, and the two reports. */
  ghost predicate HeadHit(inc: Order, q: seq<Order>, ts: string,
                          inc': Order, rest: Order, q': seq<Order>, emitted: seq<Report>)
  {
    q != [] &&
    var qty := Min(inc.quantity, q[0].quantity);
    && inc' == Reduce(inc, qty) && rest == Reduce(q[0], qty) && q' == [rest] + q[1..]
    && emitted == [TradeReport(inc', q[0].price, qty, ts), TradeReport(rest, q[0].price, qty, ts)]
  }

  /** A book is made of neither pools nor slots nor orders. */
  lemma BookParts(b: OrderBook)
    ensures forall o :: o in b.Objects() ==>
              && allocated(o)
              && !(o is MemPool<Cell>) && !(o is MemPool<Report>) && !(o is OrderPtr) && !(o is Node<Report>)
  {
  }

  /** A book nobody wrote to is as it was. */
  twostate lemma BookUntouched(b: OrderBook, new instrument: Instrument, new side: Side, new capacity: nat)
    requires old(Keeps(b, instrument, side, capacity)) && unchanged(b.Objects())
    requires forall p :: p in old(b.Members()) ==> p.obj == old(p.obj)
    ensures Keeps(b, instrument, side, capacity)
    ensures b.Members() == old(b.Members()) && QueueOf(b, side, capacity) == old(QueueOf(b, side, capacity))
  {
    hide OrderBook.Valid, OrderBook.Fits, Within, Flat, FlatFrom, Orders;
    b.OnlyPayloadsChanged();
  }

  lemma {:induction false} SweepKeepsOrder(inc: Order, q: seq<Order>, ts: string)
    ensures var s := Sweep(inc, q, ts); s.inc == inc.(quantity := s.inc.quantity)
    decreases |q| + inc.quantity
  {
    if CanTrade(inc, q) {
      var first := TradeStep(inc, q, ts);
      SweepKeepsOrder(first.inc, first.opp, ts);
    }
  }

  /** What process_order does, in the parts its code computes separately. */
  lemma ProcessParts(side: Side, q: seq<Order>, r: seq<Order>, inc: Order, ts: string)
    requires inc.side == side
    ensures var s := Sweep(inc, q, ts);
            Process(BooksFrom(side, r, q), inc, ts) ==
            if s.inc.quantity > 0 then
              ProcessResult(BooksFrom(side, Enqueue(side, r, s.inc), s.opp),
                            s.reports + if s.reports != [] then [] else [NewReport(s.inc, ts)])
            else ProcessResult(BooksFrom(side, r, s.opp), s.reports + [])
  {
    assert Sweep(inc, q, ts).reports + [] == Sweep(inc, q, ts).reports;
  }

  /** One trade, in the parts the loop body computes separately. */
  lemma TradeStepParts(inc: Order, q: seq<Order>, ts: string)
    requires CanTrade(inc, q)
    ensures q != []
    ensures var qty := Min(inc.quantity, q[0].quantity);
            var inc', rest := Reduce(inc, qty), Reduce(q[0], qty);
            var reduced := [rest] + q[1..];
            TradeStep(inc, q, ts) ==
            SweepResult(inc', if rest.quantity == 0 then reduced[1..] else reduced,
                        [TradeReport(inc', q[0].price, qty, ts), TradeReport(rest, q[0].price, qty, ts)])
  {
  }

  class MatchingEngine {
    const orderPool: MemPool<Cell>
    const reportPool: MemPool<Report>
    const buyBooks: seq<OrderBook>
    const sellBooks: seq<OrderBook>
    ghost const capacity: nat

    constructor (orderPool: MemPool<Cell>, reportPool: MemPool<Report>,
                 buyBooks: seq<OrderBook>, sellBooks: seq<OrderBook>, ghost capacity: nat)
      ensures this.orderPool == orderPool && this.reportPool == reportPool
      ensures this.buyBooks == buyBooks && this.sellBooks == sellBooks && this.capacity == capacity
    {
      this.orderPool, this.reportPool := orderPool, reportPool;
      this.buyBooks, this.sellBooks, this.capacity := buyBooks, sellBooks, capacity;
    }

    ghost predicate Pools()
      reads orderPool, orderPool.Slots()`isFree, orderPool.Slots()`next
      reads reportPool, reportPool.Slots()`isFree, reportPool.Slots()`next
    {
      orderPool.Valid() && reportPool.Valid()
    }

    /** Take a report slot, hand its content to the sink, and return the slot. */
    method Emit(r: Report) returns (sent: Report)
      requires Pools()
      modifies reportPool, reportPool.Slots()`isFree, reportPool.Slots()`next, reportPool.Slots()`obj
      ensures Pools() && reportPool.Live() == old(reportPool.Live()) && orderPool.Live() == old(orderPool.Live())
      ensures fresh(reportPool.Slots() - old(reportPool.Slots()))
      ensures sent == r
    {
      hide MemPool.Layout, Linked, Distinct;
      var slot := reportPool.Allocate(r);
      sent := slot.obj;
      reportPool.AddressIsOwn(slot);
      var freed := reportPool.Deallocate(slot);
      assert freed.Ok?;
    }

    /** Reduce the incoming order and the head of the opposite queue by the traded quantity, in place. */
    method ReduceBoth(p: OrderPtr, resting: OrderPtr, qty: nat, opp: OrderBook,
                      ghost instrument: Instrument, ghost side: Side)
      requires Keeps(opp, instrument, side, capacity) && p !in opp.Members()
      requires Pointers(opp, side, capacity) != [] && Pointers(opp, side, capacity)[0] == resting
      requires resting in opp.Members()
      requires qty <= p.obj.order.quantity && qty <= resting.obj.order.quantity
      modifies p`obj, resting`obj
      ensures p.obj == old(p.obj).(order := Reduce(old(p.obj.order), qty))
      ensures resting.obj == old(resting.obj).(order := Reduce(old(resting.obj.order), qty))
      ensures KeepsBut(opp, instrument, side, capacity, resting)
      ensures opp.View() == old(opp.View()) && opp.Home() == old(opp.Home())
      ensures Pointers(opp, side, capacity) == old(Pointers(opp, side, capacity))
      ensures QueueOf(opp, side, capacity)
              == [resting.obj.order] + old(QueueOf(opp, side, capacity))[1..]
    {
      hide OrderBook.Valid, OrderBook.Fits, MemPool.Layout, Linked, Within, Housed, NonEmptyLevels, Flat, FlatFrom,
           Orders, MemPool.Live,
           OrderBook.Objects;
      BookParts(opp);
      ghost var q := Pointers(opp, side, capacity);
      opp.ViewFacts();
      FlatFromDistinct(opp.View(), opp.Home(), side, capacity, 0);
      FlatIsFrom(opp.View(), side, capacity);
      ghost var before := Orders(q);
      OrdersAt(q);
      p.obj := p.obj.(order := Reduce(p.obj.order, qty));
      resting.obj := resting.obj.(order := Reduce(resting.obj.order, qty));
      opp.OnlyPayloadsChanged();
      OrdersHead(q, before);
    }

    /** One pass of the loop: trade with the head of the best level, report both sides, drop it if exhausted. */
    method TradeOnce(p: OrderPtr, opp: OrderBook, level: nat, ts: string,
                     ghost instrument: Instrument, ghost side: Side)
      returns (emitted: seq<Report>)
      requires Pools() && Keeps(opp, instrument, side, capacity) && IsBest(opp.View(), side, level)
      requires opp.Members() <= orderPool.Live() && p !in opp.Members()
      requires CanTrade(p.obj.order, QueueOf(opp, side, capacity))
      modifies opp.Objects(), opp.Members()`obj, p`obj
      modifies orderPool`freeListHead, orderPool`freeList, orderPool.Slots()`isFree, orderPool.Slots()`next
      modifies reportPool, reportPool.Slots()`isFree, reportPool.Slots()`next, reportPool.Slots()`obj
      ensures Pools() && Keeps(opp, instrument, side, capacity) && reportPool.Live() == old(reportPool.Live())
      ensures fresh(reportPool.Slots() - old(reportPool.Slots()))
      ensures SweepResult(p.obj.order, QueueOf(opp, side, capacity), emitted)
              == TradeStep(old(p.obj.order), old(QueueOf(opp, side, capacity)), ts)
      ensures opp.Members() <= old(opp.Members())
      ensures orderPool.Live() == old(orderPool.Live()) - (old(opp.Members()) - opp.Members())
    {
      hide OrderBook.Valid, OrderBook.Fits, MemPool.Valid, MemPool.Layout, Within, IsBest, Housed, NonEmptyLevels,
           Flat, FlatFrom, Orders, KeepsBut, Keeps, TradeStep, CanTrade, Pointers, QueueOf, Reduce, Min, TradeReport,
           Linked, Distinct, OrderBook.Home, OrderBook.View, OrderBook.Members, MemPool.Live,
           OrderBook.Objects;
      BookParts(opp);
      KeepsGives(opp, instrument, side, capacity);
      TradeStepParts(p.obj.order, QueueOf(opp, side, capacity), ts);
      var resting;
      resting, emitted := HitHead(p, opp, level, ts, instrument, side);
      Settle(resting, opp, level, instrument, side);
    }

    /** The trade itself: reduce both orders and report both. */
    method HitHead(p: OrderPtr, opp: OrderBook, level: nat, ts: string, ghost instrument: Instrument, ghost side: Side)
      returns (resting: OrderPtr, emitted: seq<Report>)
      requires Pools() && Keeps(opp, instrument, side, capacity) && p !in opp.Members()
      requires IsBest(opp.View(), side, level)
      modifies opp.Members()`obj, p`obj
      modifies reportPool, reportPool.Slots()`isFree, reportPool.Slots()`next, reportPool.Slots()`obj
      ensures Pools() && reportPool.Live() == old(reportPool.Live()) && orderPool.Live() == old(orderPool.Live())
      ensures fresh(reportPool.Slots() - old(reportPool.Slots()))
      ensures opp.View() == old(opp.View()) && opp.Members() == old(opp.Members()) && opp.Fits(level)
      ensures KeepsBut(opp, instrument, side, capacity, resting)
      ensures Pointers(opp, side, capacity) != [] && Pointers(opp, side, capacity)[0] == resting
      ensures HeadHit(old(p.obj.order), old(QueueOf(opp, side, capacity)), ts,
                      p.obj.order, resting.obj.order, QueueOf(opp, side, capacity), emitted)
    {
      hide OrderBook.Valid, OrderBook.Fits, MemPool.Layout, Linked, Distinct, Within, IsBest, Housed, NonEmptyLevels,
           Flat, FlatFrom, Orders, KeepsBut, Keeps, Pointers;
      KeepsGives(opp, instrument, side, capacity);
      BestIsHead(opp, instrument, side, capacity, level);
      var head := opp.PeekOrder(level);
      assert head != null; // the source's retry on a null head is never taken
      resting := head;
      var qty := Min(p.obj.order.quantity, resting.obj.order.quantity);
      ReduceBoth(p, resting, qty, opp, instrument, side);
      emitted := ReportBoth(p, resting, level, qty, ts, opp, instrument, side);
    }

    /** Report the trade for the incoming order, then for the resting one. */
    method ReportBoth(p: OrderPtr, resting: OrderPtr, level: nat, qty: uint16, ts: string,
                      ghost opp: OrderBook, ghost instrument: Instrument, ghost side: Side)
      returns (emitted: seq<Report>)
      requires Pools() && KeepsBut(opp, instrument, side, capacity, resting)
      modifies reportPool, reportPool.Slots()`isFree, reportPool.Slots()`next, reportPool.Slots()`obj
      ensures Pools() && reportPool.Live() == old(reportPool.Live()) && orderPool.Live() == old(orderPool.Live())
      ensures fresh(reportPool.Slots() - old(reportPool.Slots()))
      ensures emitted == [TradeReport(p.obj.order, level, qty, ts), TradeReport(resting.obj.order, level, qty, ts)]
      ensures KeepsBut(opp, instrument, side, capacity, resting)
      ensures Pointers(opp, side, capacity) == old(Pointers(opp, side, capacity))
      ensures QueueOf(opp, side, capacity) == old(QueueOf(opp, side, capacity))
      ensures opp.View() == old(opp.View()) && opp.Home() == old(opp.Home())
    {
      hide OrderBook.Valid, OrderBook.Fits, MemPool.Valid, MemPool.Layout, Within, Flat, FlatFrom, Orders,
           OrderBook.Objects;
      BookParts(opp);
      var first := Emit(TradeReport(p.obj.order, level, qty, ts));
      var second := Emit(TradeReport(resting.obj.order, level, qty, ts));
      emitted := [first, second];
      opp.OnlyPayloadsChanged();
    }

    /** A head with nothing left goes back to the pool; otherwise it keeps its place. */
    method Settle(resting: OrderPtr, opp: OrderBook, level: nat, ghost instrument: Instrument, ghost side: Side)
      requires Pools() && KeepsBut(opp, instrument, side, capacity, resting) && opp.Fits(level)
      requires IsBest(opp.View(), side, level) && opp.Members() <= orderPool.Live()
      requires Pointers(opp, side, capacity) != [] && Pointers(opp, side, capacity)[0] == resting
      modifies opp.Objects(), opp.Members()`obj
      modifies orderPool`freeListHead, orderPool`freeList, orderPool.Slots()`isFree, orderPool.Slots()`next
      ensures Pools() && Keeps(opp, instrument, side, capacity) && reportPool.Live() == old(reportPool.Live())
      ensures reportPool.slots == old(reportPool.slots)
      ensures QueueOf(opp, side, capacity) == if old(resting.obj.order.quantity) == 0
                                              then old(QueueOf(opp, side, capacity))[1..]
                                              else old(QueueOf(opp, side, capacity))
      ensures opp.Members() <= old(opp.Members())
      ensures orderPool.Live() == old(orderPool.Live()) - (old(opp.Members()) - opp.Members())
    {
      hide OrderBook.Valid, OrderBook.Fits, MemPool.Valid, MemPool.Layout, Within, IsBest, Housed, NonEmptyLevels,
           Flat, FlatFrom, Orders;
      if resting.obj.order.quantity == 0 {
        DropHead(resting, opp, level, side);
      }
    }

    /** Pop the exhausted head and give it back to the pool. */
    method DropHead(resting: OrderPtr, opp: OrderBook, level: nat, ghost side: Side)
      requires Pools() && opp.Valid() && Within(opp.View(), capacity) && opp.Fits(level)
      requires IsBest(opp.View(), side, level) && opp.Members() <= orderPool.Live()
      requires Pointers(opp, side, capacity) != [] && Pointers(opp, side, capacity)[0] == resting
      modifies opp.Objects(), opp.Members()`obj
      modifies orderPool`freeListHead, orderPool`freeList, orderPool.Slots()`isFree, orderPool.Slots()`next
      ensures Pools() && reportPool.Live() == old(reportPool.Live())
      ensures opp.Valid() && Within(opp.View(), capacity)
      ensures QueueOf(opp, side, capacity) == old(QueueOf(opp, side, capacity))[1..]
      ensures opp.Home() == old(opp.Home()) - {resting} && orderPool.Live() == old(orderPool.Live()) - {resting}
      ensures forall q :: q in old(opp.Members()) ==> q.obj.order == old(q.obj.order)
    {
      hide OrderBook.Valid, OrderBook.Fits, MemPool.Layout, Linked, Distinct, Within, IsBest, Housed, NonEmptyLevels,
           Flat, FlatFrom, Orders, OrderBook.View, MemPool.Live,
           OrderBook.Objects;
      BookParts(opp);
      PopHead(resting, opp, level, side);
      label popped:
      Release(resting);
      opp.OnlyPayloadsChanged@popped();
    }

    method PopHead(resting: OrderPtr, opp: OrderBook, level: nat, ghost side: Side)
      requires Pools() && opp.Valid() && Within(opp.View(), capacity) && opp.Fits(level)
      requires IsBest(opp.View(), side, level)
      requires Pointers(opp, side, capacity) != [] && Pointers(opp, side, capacity)[0] == resting
      modifies opp.Objects(), opp.Members()`obj
      ensures Pools() && reportPool.Live() == old(reportPool.Live()) && orderPool.Live() == old(orderPool.Live())
      ensures opp.Valid() && Within(opp.View(), capacity) && resting in old(opp.Members())
      ensures QueueOf(opp, side, capacity) == old(QueueOf(opp, side, capacity))[1..]
      ensures opp.Home() == old(opp.Home()) - {resting}
      ensures forall q :: q in old(opp.Members()) ==> q.obj.order == old(q.obj.order)
    {
      hide OrderBook.Valid, OrderBook.Fits, MemPool.Layout, Linked, Distinct, Within, IsBest, Housed, NonEmptyLevels,
           Flat, FlatFrom, Popped, Orders, MemPool.Live;
      ghost var q := Pointers(opp, side, capacity);
      ghost var before := Orders(q);
      opp.ViewFacts();
      OrdersAt(q);
      FlatPop(opp.View(), side, capacity, level);
      ViewPop(opp.View(), capacity, level);
      var consumed := opp.PopOrder(level);
      assert Pointers(opp, side, capacity) == q[1..];
      OrdersAt(q[1..]);
      assert Orders(q[1..]) == before[1..];
    }

    /** order_pool_.deallocate on a live order never fails. */
    method Release(p: OrderPtr)
      requires Pools() && p in orderPool.Live()
      modifies orderPool`freeListHead, orderPool`freeList, orderPool.Slots()`isFree, orderPool.Slots()`next
      ensures Pools() && orderPool.Live() == old(orderPool.Live()) - {p}
      ensures reportPool.Live() == old(reportPool.Live())
    {
      hide MemPool.Layout;
      orderPool.AddressIsOwn(p);
      var freed := orderPool.Deallocate(p);
      assert freed.Ok?;
    }

    /** The matching loop: trade until the incoming order is exhausted or no longer crosses. */
    method MatchAgainst(p: OrderPtr, opp: OrderBook, ts: string, ghost instrument: Instrument, ghost side: Side)
      returns (emitted: seq<Report>)
      requires Pools() && Keeps(opp, instrument, side, capacity) && p.obj.order.side == Opposite(side)
      requires opp.Members() <= orderPool.Live() && p !in opp.Members()
      modifies opp.Objects(), opp.Members()`obj, p`obj
      modifies orderPool`freeListHead, orderPool`freeList, orderPool.Slots()`isFree, orderPool.Slots()`next
      modifies reportPool, reportPool.Slots()`isFree, reportPool.Slots()`next, reportPool.Slots()`obj
      ensures Pools() && Keeps(opp, instrument, side, capacity) && reportPool.Live() == old(reportPool.Live())
      ensures fresh(reportPool.Slots() - old(reportPool.Slots()))
      ensures SweepResult(p.obj.order, QueueOf(opp, side, capacity), emitted)
              == Sweep(old(p.obj.order), old(QueueOf(opp, side, capacity)), ts)
      ensures opp.Members() <= old(opp.Members())
      ensures orderPool.Live() == old(orderPool.Live()) - (old(opp.Members()) - opp.Members())
    {
      hide OrderBook.Valid, OrderBook.Fits, MemPool.Valid, MemPool.Layout, Within, Housed, NonEmptyLevels, Flat,
           FlatFrom, Orders, Keeps, Pointers, QueueOf, Linked, Distinct, OrderBook.Home, OrderBook.Members,
           MemPool.Live, Sweep, TradeStep, CanTrade;
      KeepsGives(opp, instrument, side, capacity);
      emitted := [];
      ghost var start := Sweep(p.obj.order, QueueOf(opp, side, capacity), ts);
      ghost var members, live := opp.Members(), orderPool.Live();
      while p.obj.order.quantity > 0
        invariant Pools() && Keeps(opp, instrument, side, capacity) && p.obj.order.side == Opposite(side)
        invariant opp.Valid() && Within(opp.View(), capacity)
        invariant opp.Members() <= members && orderPool.Live() == live - (members - opp.Members())
        invariant opp.Members() <= orderPool.Live()
        invariant reportPool.Live() == old(reportPool.Live())
        invariant fresh(reportPool.Slots() - old(reportPool.Slots())) && orderPool.slots == old(orderPool.slots)
        invariant SweepContinues(start, emitted, p.obj.order, QueueOf(opp, side, capacity), ts)
        decreases |QueueOf(opp, side, capacity)| + p.obj.order.quantity
      {
        var bestLevel := if p.obj.order.side == Buy then opp.FindFirst() else opp.FindLast();
        BestIsHead(opp, instrument, side, capacity, bestLevel);
        if bestLevel < 0 {
          break;
        }
        var crosses := if p.obj.order.side == Buy then bestLevel <= p.obj.order.price
                       else bestLevel >= p.obj.order.price;
        if !crosses {
          break;
        }
        SweepUnfolds(start, emitted, p.obj.order, QueueOf(opp, side, capacity), ts);
        var trade := TradeOnce(p, opp, bestLevel, ts, instrument, side);
        KeepsGives(opp, instrument, side, capacity);
        emitted := emitted + trade;
      }
      SweepEnds(start, emitted, p.obj.order, QueueOf(opp, side, capacity), ts);
    }

    /** What is left of the incoming order joins its own book, reported New if it met nothing; else it is freed. */
    method RestOrRelease(p: OrderPtr, own: OrderBook, matchedAny: bool, ts: string,
                         ghost instrument: Instrument, ghost side: Side)
      returns (emitted: seq<Report>)
      requires Pools() && Keeps(own, instrument, side, capacity)
      requires p.obj.order.instrument == instrument && p.obj.order.side == side && p.obj.order.price < capacity
      requires own.Members() <= orderPool.Live() && p in orderPool.Live() && p !in own.Members()
      modifies own.Objects(), own.Members()`obj, p`obj
      modifies orderPool`freeListHead, orderPool`freeList, orderPool.Slots()`isFree, orderPool.Slots()`next
      modifies reportPool, reportPool.Slots()`isFree, reportPool.Slots()`next, reportPool.Slots()`obj
      ensures Pools() && Keeps(own, instrument, side, capacity) && reportPool.Live() == old(reportPool.Live())
      ensures fresh(reportPool.Slots() - old(reportPool.Slots()))
      ensures var o := old(p.obj.order);
              if o.quantity > 0 then
                && QueueOf(own, side, capacity) == Enqueue(side, old(QueueOf(own, side, capacity)), o)
                && own.Members() == old(own.Members()) + {p} && orderPool.Live() == old(orderPool.Live())
                && emitted == (if matchedAny then [] else [NewReport(o, ts)])
              else
                && QueueOf(own, side, capacity) == old(QueueOf(own, side, capacity))
                && own.Members() == old(own.Members()) && orderPool.Live() == old(orderPool.Live()) - {p}
                && emitted == []
    {
      hide OrderBook.Valid, OrderBook.Fits, MemPool.Layout, MemPool.Valid, Linked, Distinct, Within, Housed,
           NonEmptyLevels, Flat, FlatFrom, Orders, Pointers, QueueOf, Keeps, OrderBook.View, OrderBook.Home,
           OrderBook.Members, MemPool.Live, Enqueue;
      emitted := [];
      if p.obj.order.quantity > 0 {
        Rest(p, own, instrument, side);
        if !matchedAny {
          emitted := ReportNew(p, own, ts, instrument, side);
        }
      } else {
        ReleaseIncoming(p, own, instrument, side);
      }
    }

    method ReportNew(p: OrderPtr, ghost own: OrderBook, ts: string, ghost instrument: Instrument, ghost side: Side)
      returns (emitted: seq<Report>)
      requires Pools() && Keeps(own, instrument, side, capacity)
      modifies reportPool, reportPool.Slots()`isFree, reportPool.Slots()`next, reportPool.Slots()`obj
      ensures Pools() && reportPool.Live() == old(reportPool.Live()) && orderPool.Live() == old(orderPool.Live())
      ensures fresh(reportPool.Slots() - old(reportPool.Slots()))
      ensures Keeps(own, instrument, side, capacity) && own.Members() == old(own.Members())
      ensures QueueOf(own, side, capacity) == old(QueueOf(own, side, capacity))
      ensures emitted == [NewReport(p.obj.order, ts)]
    {
      hide OrderBook.Valid, OrderBook.Fits, MemPool.Valid, MemPool.Layout, Within, Flat, FlatFrom, Orders;
      var report := Emit(NewReport(p.obj.order, ts));
      emitted := [report];
      own.OnlyPayloadsChanged();
    }

    /** A filled incoming order goes back to the pool; its own book is not involved. */
    method ReleaseIncoming(p: OrderPtr, ghost own: OrderBook, ghost instrument: Instrument, ghost side: Side)
      requires Pools() && Keeps(own, instrument, side, capacity) && p in orderPool.Live()
      modifies orderPool`freeListHead, orderPool`freeList, orderPool.Slots()`isFree, orderPool.Slots()`next
      ensures Pools() && reportPool.Live() == old(reportPool.Live())
      ensures orderPool.Live() == old(orderPool.Live()) - {p}
      ensures Keeps(own, instrument, side, capacity) && own.Members() == old(own.Members())
      ensures QueueOf(own, side, capacity) == old(QueueOf(own, side, capacity))
    {
      hide OrderBook.Valid, OrderBook.Fits, MemPool.Layout, Linked, Distinct, Within, Flat, FlatFrom, Orders;
      Release(p);
      own.OnlyPayloadsChanged();
    }

    /** add_order_known_valid at the order's own price is an enqueue by price-time priority. */
    method Rest(p: OrderPtr, own: OrderBook, ghost instrument: Instrument, ghost side: Side)
      requires Pools() && Keeps(own, instrument, side, capacity)
      requires Resting(instrument, side, p.obj.order) && p.obj.order.price < capacity && p !in own.Members()
      modifies own.Objects(), own.Members()`obj, p`obj
      ensures Pools() && Keeps(own, instrument, side, capacity)
      ensures reportPool.Live() == old(reportPool.Live()) && orderPool.Live() == old(orderPool.Live())
      ensures own.Members() == old(own.Members()) + {p} && p.obj.order == old(p.obj.order)
      ensures QueueOf(own, side, capacity) == Enqueue(side, old(QueueOf(own, side, capacity)), p.obj.order)
    {
      hide OrderBook.Valid, OrderBook.Fits, MemPool.Layout, Linked, Distinct, Within, Housed, NonEmptyLevels, Flat,
           FlatFrom, Orders, Appended, MemPool.Live, Enqueue,
           OrderBook.Objects;
      BookParts(own);
      ghost var v, home, q := own.View(), own.Home(), Pointers(own, side, capacity);
      ghost var before := Orders(q);
      own.ViewFacts();
      ViewAppend(v, capacity, p.obj.order.price, p);
      OrdersAt(q);
      own.AddOrder(p.obj.order.price, p);
      OrdersSame(q, before);
      OrdersAppend(v, home, side, capacity, p);
    }

    /** process_order, once the instrument's two books are picked. */
    method ProcessWith(p: OrderPtr, opp: OrderBook, own: OrderBook, ts: string,
                       ghost instrument: Instrument, ghost side: Side)
      returns (emitted: seq<Report>)
      requires Pools() && Keeps(opp, instrument, Opposite(side), capacity) && Keeps(own, instrument, side, capacity)
      requires opp.Objects() !! own.Objects()
      requires p.obj.order.instrument == instrument && p.obj.order.side == side && p.obj.order.price < capacity
      requires opp.Members() + own.Members() <= orderPool.Live()
      requires p in orderPool.Live() && p !in opp.Members() && p !in own.Members()
      modifies opp.Objects(), own.Objects(), opp.Members()`obj, own.Members()`obj, p`obj
      modifies orderPool`freeListHead, orderPool`freeList, orderPool.Slots()`isFree, orderPool.Slots()`next
      modifies reportPool, reportPool.Slots()`isFree, reportPool.Slots()`next, reportPool.Slots()`obj
      ensures Pools() && Keeps(opp, instrument, Opposite(side), capacity) && Keeps(own, instrument, side, capacity)
      ensures reportPool.Live() == old(reportPool.Live()) && fresh(reportPool.Slots() - old(reportPool.Slots()))
      ensures ProcessResult(TwoQueues(opp, own, side, capacity), emitted)
              == Process(old(TwoQueues(opp, own, side, capacity)), old(p.obj.order), ts)
      ensures opp.Members() <= old(opp.Members()) && own.Members() <= old(own.Members()) + {p}
      ensures old(own.Members()) <= own.Members() <= orderPool.Live() && opp.Members() <= orderPool.Live()
      ensures orderPool.Live() - (opp.Members() + own.Members())
              == old(orderPool.Live() - (opp.Members() + own.Members())) - {p}
    {
      hide OrderBook.Valid, OrderBook.Fits, MemPool.Valid, MemPool.Layout, Within, Housed, NonEmptyLevels, Flat,
           FlatFrom, Orders, Keeps, Pointers, QueueOf, Linked, Distinct, OrderBook.Home, OrderBook.Members,
           OrderBook.View, OrderBook.Objects, MemPool.Live, Sweep, Enqueue, Process, NewReport;
      BookParts(opp);
      BookParts(own);
      KeepsGives(opp, instrument, Opposite(side), capacity);
      KeepsGives(own, instrument, side, capacity);
      ProcessParts(side, QueueOf(opp, Opposite(side), capacity), QueueOf(own, side, capacity), p.obj.order, ts);
      ghost var live, theirs, mine := orderPool.Live(), opp.Members(), own.Members();
      emitted := MatchPhase(p, opp, own, ts, instrument, side);
      label matched:
      PairAlgebra(live, orderPool.Live(), theirs, opp.Members(), mine, p);
      var tail := RestPhase(p, opp, own, emitted != [], ts, instrument, side);
      forall n | n in reportPool.Slots() && n !in old@matched(reportPool.Slots())
        ensures !old(allocated(n))
      {
        assert fresh@matched({n});
        assert old(allocated(n)) ==> old@matched(allocated(n));
      }
      emitted := emitted + tail;
    }

    /** Orders taken out of the opposite book left the pool too; the incoming one and the own book's stay live. */
    lemma PairAlgebra(live: set<OrderPtr>, live': set<OrderPtr>, opp: set<OrderPtr>, opp': set<OrderPtr>,
                      own: set<OrderPtr>, p: OrderPtr)
      requires opp + own <= live && opp' <= opp && opp !! own && p in live && p !in opp && p !in own
      requires live' == live - (opp - opp')
      ensures opp' <= live' && own <= live' && p in live' && p !in opp'
      ensures live' - (opp' + (own + {p})) == live - (opp + own) - {p}
      ensures live' - {p} - (opp' + own) == live - (opp + own) - {p}
    {
    }

    /** The loop leaves the own book alone. */
    method MatchPhase(p: OrderPtr, opp: OrderBook, ghost own: OrderBook, ts: string,
                      ghost instrument: Instrument, ghost side: Side)
      returns (emitted: seq<Report>)
      requires Pools() && Keeps(opp, instrument, Opposite(side), capacity) && Keeps(own, instrument, side, capacity)
      requires opp.Objects() !! own.Objects() && p.obj.order.instrument == instrument && p.obj.order.side == side
      requires opp.Members() <= orderPool.Live() && p !in opp.Members() && p !in own.Members()
      modifies opp.Objects(), opp.Members()`obj, p`obj
      modifies orderPool`freeListHead, orderPool`freeList, orderPool.Slots()`isFree, orderPool.Slots()`next
      modifies reportPool, reportPool.Slots()`isFree, reportPool.Slots()`next, reportPool.Slots()`obj
      ensures Pools() && reportPool.Live() == old(reportPool.Live())
      ensures fresh(reportPool.Slots() - old(reportPool.Slots()))
      ensures Keeps(opp, instrument, Opposite(side), capacity) && Keeps(own, instrument, side, capacity)
      ensures SweepResult(p.obj.order, QueueOf(opp, Opposite(side), capacity), emitted)
              == Sweep(old(p.obj.order), old(QueueOf(opp, Opposite(side), capacity)), ts)
      ensures QueueOf(own, side, capacity) == old(QueueOf(own, side, capacity))
      ensures p.obj.order == old(p.obj.order).(quantity := p.obj.order.quantity)
      ensures opp.Members() <= old(opp.Members()) && own.Members() == old(own.Members())
      ensures orderPool.Live() == old(orderPool.Live()) - (old(opp.Members()) - opp.Members())
      ensures opp.Members() !! old(opp.Members()) - opp.Members() && old(opp.Members()) !! own.Members()
    {
      hide OrderBook.Valid, OrderBook.Fits, MemPool.Valid, MemPool.Layout, Within, Housed, NonEmptyLevels, Flat,
           FlatFrom, Orders, Keeps, Pointers, QueueOf, Linked, Distinct, OrderBook.View, MemPool.Live, Sweep,
           OrderBook.Objects;
      BookParts(opp);
      BookParts(own);
      KeepsGives(opp, instrument, Opposite(side), capacity);
      SweepKeepsOrder(p.obj.order, QueueOf(opp, Opposite(side), capacity), ts);
      MembersApart(opp, own, instrument, side, capacity);
      emitted := MatchAgainst(p, opp, ts, instrument, Opposite(side));
      BookUntouched(own, instrument, side, capacity);
    }

    /** The rest of the call leaves the opposite book alone. */
    method RestPhase(p: OrderPtr, ghost opp: OrderBook, own: OrderBook, matchedAny: bool, ts: string,
                     ghost instrument: Instrument, ghost side: Side)
      returns (emitted: seq<Report>)
      requires Pools() && Keeps(opp, instrument, Opposite(side), capacity) && Keeps(own, instrument, side, capacity)
      requires opp.Objects() !! own.Objects() && opp.Members() !! own.Members()
      requires p.obj.order.instrument == instrument && p.obj.order.side == side && p.obj.order.price < capacity
      requires own.Members() <= orderPool.Live()
      requires p in orderPool.Live() && p !in opp.Members() && p !in own.Members()
      modifies own.Objects(), own.Members()`obj, p`obj
      modifies orderPool`freeListHead, orderPool`freeList, orderPool.Slots()`isFree, orderPool.Slots()`next
      modifies reportPool, reportPool.Slots()`isFree, reportPool.Slots()`next, reportPool.Slots()`obj
      ensures Pools() && reportPool.Live() == old(reportPool.Live())
      ensures fresh(reportPool.Slots() - old(reportPool.Slots()))
      ensures Keeps(opp, instrument, Opposite(side), capacity) && Keeps(own, instrument, side, capacity)
      ensures QueueOf(opp, Opposite(side), capacity) == old(QueueOf(opp, Opposite(side), capacity))
      ensures opp.Members() == old(opp.Members())
      ensures var o := old(p.obj.order);
              if o.quantity > 0 then
                && QueueOf(own, side, capacity) == Enqueue(side, old(QueueOf(own, side, capacity)), o)
                && own.Members() == old(own.Members()) + {p} && orderPool.Live() == old(orderPool.Live())
                && emitted == (if matchedAny then [] else [NewReport(o, ts)])
              else
                && QueueOf(own, side, capacity) == old(QueueOf(own, side, capacity))
                && own.Members() == old(own.Members()) && orderPool.Live() == old(orderPool.Live()) - {p}
                && emitted == []
    {
      hide OrderBook.Valid, OrderBook.Fits, MemPool.Valid, MemPool.Layout, Within, Housed, NonEmptyLevels, Flat,
           FlatFrom, Orders, Keeps, Pointers, QueueOf, Linked, Distinct, OrderBook.View, MemPool.Live, Enqueue;
      emitted := RestOrRelease(p, own, matchedAny, ts, instrument, side);
      BookUntouched(opp, instrument, Opposite(side), capacity);
    }

    // ----- the ten books -----

    /** Buy books first, then sell books, each by instrument. */
    function AllBooks(): seq<OrderBook> {
      buyBooks + sellBooks
    }

    ghost function Objects(): set<object> {
      set k, o | 0 <= k < |AllBooks()| && o in AllBooks()[k].Objects() :: o
    }

    /** Every order resting anywhere. */
    ghost function Members(): set<OrderPtr>
      reads Objects()
    {
      set k, p | 0 <= k < |AllBooks()| && p in AllBooks()[k].Members() :: p
    }

    ghost predicate Wired() {
      && |buyBooks| == INSTRUMENTS && |sellBooks| == INSTRUMENTS
      && (forall j, k :: 0 <= j < k < |AllBooks()| ==> AllBooks()[j].Objects() !! AllBooks()[k].Objects())
    }

    /** Every book is well formed and holds only its own instrument's and side's orders. */
    ghost predicate Kept()
      reads Objects(), Members()`obj
    {
      Wired() && forall k :: 0 <= k < |AllBooks()| ==> Keeps(AllBooks()[k], InstrumentOf(k), SideOf(k), capacity)
    }

    ghost predicate Valid()
      reads Objects(), Members()`obj
      reads orderPool, orderPool.Slots()`isFree, orderPool.Slots()`next
      reads reportPool, reportPool.Slots()`isFree, reportPool.Slots()`next
    {
      Kept() && Pools() && Members() <= orderPool.Live()
    }

    ghost function QueueAt(k: nat): seq<Order>
      requires Kept() && k < 2 * INSTRUMENTS
      reads Objects(), Members()`obj
    {
      QueueOf(AllBooks()[k], SideOf(k), capacity)
    }

    ghost function BooksAt(i: nat): Books
      requires Kept() && i < INSTRUMENTS
      reads Objects(), Members()`obj
    {
      Books(QueueAt(i), QueueAt(INSTRUMENTS + i))
    }

    /** The state of the engine as plain values: per instrument, two price-time queues. */
    ghost function CurrentMarket(): Market
      requires Kept()
      reads Objects(), Members()`obj
    {
      hide Kept, Objects, Members, Keeps, QueueAt, OrderBook.Members, OrderBook.Objects;
      [BooksAt(0), BooksAt(1), BooksAt(2), BooksAt(3), BooksAt(4)]
    }

    /** The orders of the books other than `a` and `b`. */
    ghost function Others(a: nat, b: nat): set<OrderPtr>
      reads Objects()
    {
      set k, p | 0 <= k < |AllBooks()| && k != a && k != b && p in AllBooks()[k].Members() :: p
    }

    lemma MembersSplit(a: nat, b: nat)
      requires a < |AllBooks()| && b < |AllBooks()|
      ensures Members() == Others(a, b) + AllBooks()[a].Members() + AllBooks()[b].Members()
    {
    }

    lemma OrdersFiled(k: nat)
      requires Kept() && k < |AllBooks()|
      ensures forall q :: q in AllBooks()[k].Members() ==> q.obj.order.instrument == InstrumentOf(k)
    {
      assert Keeps(AllBooks()[k], InstrumentOf(k), SideOf(k), capacity);
    }

    /** Orders of other instruments' books are not in this instrument's two. */
    lemma BooksApart(a: nat, b: nat)
      requires Kept() && a < |AllBooks()| && b < |AllBooks()| && a % INSTRUMENTS == b % INSTRUMENTS && a != b
      ensures forall q :: q in Others(a, b) ==> q !in AllBooks()[a].Members() && q !in AllBooks()[b].Members()
    {
      hide Keeps, OrderBook.Members;
      OrdersFiled(a);
      OrdersFiled(b);
      forall k, q | 0 <= k < |AllBooks()| && k != a && k != b && q in AllBooks()[k].Members()
        ensures q !in AllBooks()[a].Members() && q !in AllBooks()[b].Members()
      {
        OrdersFiled(k);
      }
    }

    lemma ObjectsApart(a: nat, b: nat)
      requires Wired() && a < |AllBooks()| && b < |AllBooks()| && a != b
      ensures AllBooks()[a].Objects() !! AllBooks()[b].Objects()
      ensures forall k, o :: 0 <= k < |AllBooks()| && k != a && k != b && o in AllBooks()[k].Objects() ==>
                o !in AllBooks()[a].Objects() && o !in AllBooks()[b].Objects()
    {
    }

    /** Books other than the instrument's two are as they were. */
    twostate lemma OthersUntouched(new a: nat, new b: nat)
      requires old(Kept())
      requires forall k :: 0 <= k < |AllBooks()| && k != a && k != b ==> unchanged(AllBooks()[k].Objects())
      requires forall q :: q in old(Others(a, b)) ==> q.obj == old(q.obj)
      ensures forall k :: 0 <= k < |AllBooks()| && k != a && k != b ==>
                && Keeps(AllBooks()[k], InstrumentOf(k), SideOf(k), capacity)
                && AllBooks()[k].Members() == old(AllBooks()[k].Members())
                && QueueOf(AllBooks()[k], SideOf(k), capacity) == old(QueueOf(AllBooks()[k], SideOf(k), capacity))
    {
      forall k | 0 <= k < |AllBooks()| && k != a && k != b
        ensures Keeps(AllBooks()[k], InstrumentOf(k), SideOf(k), capacity)
        ensures AllBooks()[k].Members() == old(AllBooks()[k].Members())
        ensures QueueOf(AllBooks()[k], SideOf(k), capacity) == old(QueueOf(AllBooks()[k], SideOf(k), capacity))
      {
        BookUntouched(AllBooks()[k], InstrumentOf(k), SideOf(k), capacity);
      }
    }

    /** Pool traffic leaves every book as it was. */
    twostate lemma BooksUntouched()
      requires old(Kept()) && unchanged(Objects())
      requires forall q :: q in old(Members()) ==> q.obj == old(q.obj)
      ensures Kept() && Members() == old(Members()) && CurrentMarket() == old(CurrentMarket())
    {
      hide Keeps, QueueOf, OrderBook.Members, OrderBook.Objects;
      AllInside();
      OthersUntouched(2 * INSTRUMENTS, 2 * INSTRUMENTS);
      assert CurrentMarket() == old(CurrentMarket()) by {
        hide OrderBook.Objects;
        assert forall k: nat :: k < 2 * INSTRUMENTS ==> QueueAt(k) == old(QueueAt(k));
      }
    }

    lemma AllInside()
      ensures forall k :: 0 <= k < |AllBooks()| ==> AllBooks()[k].Objects() <= Objects()
    {
    }

    /** process_order: match an incoming order against its instrument's books, then rest it or free it. */
    method ProcessOrder(p: OrderPtr, ts: string) returns (emitted: seq<Report>)
      requires Valid() && p in orderPool.Live() && p !in Members() && p.obj.order.price < capacity
      modifies Objects(), Members()`obj, p`obj
      modifies orderPool`freeListHead, orderPool`freeList, orderPool.Slots()`isFree, orderPool.Slots()`next
      modifies reportPool, reportPool.Slots()`isFree, reportPool.Slots()`next, reportPool.Slots()`obj
      ensures Valid()
      ensures reportPool.Live() == old(reportPool.Live()) && fresh(reportPool.Slots() - old(reportPool.Slots()))
      ensures var inc := old(p.obj.order);
              var i := Index(inc.instrument);
              var r := Process(old(CurrentMarket())[i], inc, ts);
              emitted == r.reports && CurrentMarket() == old(CurrentMarket())[i := r.books]
      ensures orderPool.Live() - Members() == old(orderPool.Live() - Members()) - {p}
    {
      hide Keeps, Pools, QueueOf, MemPool.Live, Process, Members, OrderBook.Members, OrderBook.Objects, Objects;
      var idx := Index(p.obj.order.instrument);
      if p.obj.order.side == Buy {
        emitted := ProcessAt(p, sellBooks[idx], buyBooks[idx], ts, idx, idx, INSTRUMENTS + idx);
      } else {
        emitted := ProcessAt(p, buyBooks[idx], sellBooks[idx], ts, idx, INSTRUMENTS + idx, idx);
      }
    }

    /** The same with the two books named by their positions `a` (own) and `b` (opposite). */
    method ProcessAt(p: OrderPtr, opp: OrderBook, own: OrderBook, ts: string, ghost i: nat, ghost a: nat, ghost b: nat)
      returns (emitted: seq<Report>)
      requires Valid() && p in orderPool.Live() && p !in Members() && p.obj.order.price < capacity
      requires i == Index(p.obj.order.instrument)
      requires if p.obj.order.side == Buy then a == i && b == INSTRUMENTS + i else a == INSTRUMENTS + i && b == i
      requires own == AllBooks()[a] && opp == AllBooks()[b]
      modifies Objects(), Members()`obj, p`obj
      modifies orderPool`freeListHead, orderPool`freeList, orderPool.Slots()`isFree, orderPool.Slots()`next
      modifies reportPool, reportPool.Slots()`isFree, reportPool.Slots()`next, reportPool.Slots()`obj
      ensures Valid()
      ensures reportPool.Live() == old(reportPool.Live()) && fresh(reportPool.Slots() - old(reportPool.Slots()))
      ensures var inc := old(p.obj.order);
              var r := Process(old(CurrentMarket())[i], inc, ts);
              emitted == r.reports && CurrentMarket() == old(CurrentMarket())[i := r.books]
      ensures orderPool.Live() - Members() == old(orderPool.Live() - Members()) - {p}
    {
      hide Keeps, Kept, CurrentMarket, QueueAt, BooksAt, Pools, QueueOf, MemPool.Live, Process, Members, Others,
           OrderBook.Members, OrderBook.Objects, OrderBook.Valid, OrderBook.View, Objects, TwoQueues, Within;
      TenBooks();
      MembersSplit(a, b);
      MembersInside(a, b);
      BooksApart(a, b);
      PairIsBooks(p.obj.order.side, i, a, b);
      ghost var live, others, mine, theirs := orderPool.Live(), Others(a, b), own.Members(), opp.Members();
      ghost var r := Process(CurrentMarket()[i], p.obj.order, ts);
      emitted := ProcessPair(p, opp, own, ts, i, a, b);
      MembersSplit(a, b);
      PairIsBooks(old(p.obj.order.side), i, a, b);
      MarketMoves(i, a, b, r.books);
      StrandedUnchanged(live, orderPool.Live(), others, mine, own.Members(), theirs, opp.Members(), p);
    }

    /** Live orders outside the books: the incoming one leaves them, nobody else joins or leaves. */
    lemma StrandedUnchanged(live: set<OrderPtr>, live': set<OrderPtr>, others: set<OrderPtr>,
                            own: set<OrderPtr>, own': set<OrderPtr>,
                            opp: set<OrderPtr>, opp': set<OrderPtr>, p: OrderPtr)
      requires others + own + opp <= live && p !in others
      requires forall q :: q in others ==> q !in own && q !in opp && q !in own' && q !in opp'
      requires opp' <= opp && own' <= own + {p} && own' <= live' && opp' <= live'
      requires live' - (opp' + own') == live - (opp + own) - {p}
      ensures others + own' + opp' <= live'
      ensures live' - (others + own' + opp') == live - (others + own + opp) - {p}
    {
      assert others <= live - (opp + own) - {p};
      assert live' - (others + own' + opp') == live' - (opp' + own') - others;
      assert live - (others + own + opp) - {p} == live - (opp + own) - {p} - others;
    }

    /** A market whose queues stay put but for one instrument's. */
    twostate lemma MarketMoves(new i: nat, new a: nat, new b: nat, new books: Books)
      requires old(Kept()) && Kept() && i < INSTRUMENTS && CurrentMarket()[i] == books
      requires {a, b} == {i, INSTRUMENTS + i}
      requires forall k :: 0 <= k < |AllBooks()| && k != a && k != b ==> QueueAt(k) == old(QueueAt(k))
      ensures CurrentMarket() == old(CurrentMarket())[i := books]
    {
      hide Keeps, QueueAt, Members, Objects;
    }

    lemma PairIsBooks(side: Side, i: nat, a: nat, b: nat)
      requires Kept() && i < INSTRUMENTS
      requires if side == Buy then a == i && b == INSTRUMENTS + i else a == INSTRUMENTS + i && b == i
      ensures var own, opp := AllBooks()[a], AllBooks()[b];
              && opp.Valid() && own.Valid() && Within(opp.View(), capacity) && Within(own.View(), capacity)
              && TwoQueues(opp, own, side, capacity) == CurrentMarket()[i]
    {
      hide OrderBook.Valid, Within, QueueOf, Objects, Members;
      assert Keeps(AllBooks()[a], InstrumentOf(a), SideOf(a), capacity);
      assert Keeps(AllBooks()[b], InstrumentOf(b), SideOf(b), capacity);
      assert CurrentMarket()[i] == BooksAt(i);
    }

    /** A book is made of neither pools nor slots. */
    lemma BooksOnly()
      ensures forall k, o :: 0 <= k < |AllBooks()| && o in AllBooks()[k].Objects() ==>
                && allocated(o)
                && !(o is MemPool<Cell>) && !(o is MemPool<Report>) && !(o is OrderPtr) && !(o is Node<Report>)
    {
    }

    lemma TenBooks()
      requires Kept()
      ensures |AllBooks()| == 2 * INSTRUMENTS
    {
    }

    lemma PairFacts(p: OrderPtr, i: nat, a: nat, b: nat)
      requires Valid() && i == Index(p.obj.order.instrument) && p !in Members()
      requires if p.obj.order.side == Buy then a == i && b == INSTRUMENTS + i else a == INSTRUMENTS + i && b == i
      ensures Kept() && Wired() && Pools() && a < |AllBooks()| && b < |AllBooks()|
      ensures InstrumentOf(a) == InstrumentOf(b) == p.obj.order.instrument
      ensures SideOf(a) == p.obj.order.side && SideOf(b) == Opposite(p.obj.order.side)
      ensures Keeps(AllBooks()[a], p.obj.order.instrument, p.obj.order.side, capacity)
      ensures Keeps(AllBooks()[b], p.obj.order.instrument, Opposite(p.obj.order.side), capacity)
      ensures AllBooks()[a].Members() + AllBooks()[b].Members() <= orderPool.Live()
      ensures forall k :: 0 <= k < |AllBooks()| ==> p !in AllBooks()[k].Members()
    {
      hide Keeps, Pools, OrderBook.Members, OrderBook.Objects, Objects;
      MembersSplit(a, b);
    }

    lemma KeptAgain(a: nat, b: nat)
      requires Wired() && a < |AllBooks()| && b < |AllBooks()|
      requires Keeps(AllBooks()[a], InstrumentOf(a), SideOf(a), capacity)
      requires Keeps(AllBooks()[b], InstrumentOf(b), SideOf(b), capacity)
      requires forall k :: 0 <= k < |AllBooks()| && k != a && k != b ==>
                 Keeps(AllBooks()[k], InstrumentOf(k), SideOf(k), capacity)
      ensures Kept()
      ensures AllBooks()[a].Valid() && Within(AllBooks()[a].View(), capacity)
      ensures AllBooks()[b].Valid() && Within(AllBooks()[b].View(), capacity)
    {
    }

    lemma MembersInside(a: nat, b: nat)
      requires a < |AllBooks()| && b < |AllBooks()|
      ensures AllBooks()[a].Objects() <= Objects() && AllBooks()[b].Objects() <= Objects()
    {
    }

    /** Only the two books of the pair change. */
    method ProcessPair(p: OrderPtr, opp: OrderBook, own: OrderBook, ts: string,
                       ghost i: nat, ghost a: nat, ghost b: nat)
      returns (emitted: seq<Report>)
      requires Valid() && p in orderPool.Live() && p !in Members() && p.obj.order.price < capacity
      requires i == Index(p.obj.order.instrument)
      requires if p.obj.order.side == Buy then a == i && b == INSTRUMENTS + i else a == INSTRUMENTS + i && b == i
      requires own == AllBooks()[a] && opp == AllBooks()[b]
      requires opp.Valid() && own.Valid() && Within(opp.View(), capacity) && Within(own.View(), capacity)
      modifies opp.Objects(), own.Objects(), opp.Members()`obj, own.Members()`obj, p`obj
      modifies orderPool`freeListHead, orderPool`freeList, orderPool.Slots()`isFree, orderPool.Slots()`next
      modifies reportPool, reportPool.Slots()`isFree, reportPool.Slots()`next, reportPool.Slots()`obj
      ensures Kept() && Pools()
      ensures reportPool.Live() == old(reportPool.Live()) && fresh(reportPool.Slots() - old(reportPool.Slots()))
      ensures forall k :: 0 <= k < |AllBooks()| && k != a && k != b ==> QueueAt(k) == old(QueueAt(k))
      ensures Others(a, b) == old(Others(a, b))
      ensures opp.Valid() && own.Valid() && Within(opp.View(), capacity) && Within(own.View(), capacity)
      ensures ProcessResult(TwoQueues(opp, own, old(p.obj.order.side), capacity), emitted)
              == Process(old(TwoQueues(opp, own, p.obj.order.side, capacity)), old(p.obj.order), ts)
      ensures opp.Members() <= old(opp.Members()) && own.Members() <= old(own.Members()) + {p}
      ensures own.Members() <= orderPool.Live() && opp.Members() <= orderPool.Live()
      ensures orderPool.Live() - (opp.Members() + own.Members())
              == old(orderPool.Live() - (opp.Members() + own.Members())) - {p}
      ensures forall q :: q in Others(a, b) ==> q != p && q !in opp.Members() && q !in own.Members()
    {
      hide Keeps, Kept, Pools, QueueOf, MemPool.Live, Process, TwoQueues, Within, OrderBook.Valid, OrderBook.View,
           Wired, InstrumentOf, SideOf, Objects, Members, Valid, OrderBook.Objects;
      PairFacts(p, i, a, b);
      BooksApart(a, b);
      ObjectsApart(a, b);
      BooksOnly();
      ghost var side := p.obj.order.side;
      emitted := ProcessWith(p, opp, own, ts, p.obj.order.instrument, side);
      OthersUntouched(a, b);
      KeptAgain(a, b);
    }
  }

  /** What is still to be swept completes what was emitted so far to the whole sweep. */
  ghost predicate SweepContinues(whole: SweepResult, emitted: seq<Report>, inc: Order, q: seq<Order>, ts: string) {
    var rest := Sweep(inc, q, ts);
    whole == SweepResult(rest.inc, rest.opp, emitted + rest.reports)
  }

  lemma SweepUnfolds(whole: SweepResult, emitted: seq<Report>, inc: Order, q: seq<Order>, ts: string)
    requires SweepContinues(whole, emitted, inc, q, ts) && inc.quantity > 0 && q != [] && Crosses(inc, q[0].price)
    requires q[0].quantity > 0
    ensures CanTrade(inc, q)
    ensures var first := TradeStep(inc, q, ts);
            && SweepContinues(whole, emitted + first.reports, first.inc, first.opp, ts)
            && |first.opp| + first.inc.quantity < |q| + inc.quantity
            && first.inc.side == inc.side
  {
    var first := TradeStep(inc, q, ts);
    var rest := Sweep(first.inc, first.opp, ts);
    Associate(emitted, first.reports, rest.reports);
  }

  lemma SweepEnds(whole: SweepResult, emitted: seq<Report>, inc: Order, q: seq<Order>, ts: string)
    requires SweepContinues(whole, emitted, inc, q, ts)
    requires inc.quantity == 0 || q == [] || !Crosses(inc, q[0].price)
    ensures whole == SweepResult(inc, q, emitted)
  {
    assert emitted + [] == emitted;
  }
}
