/**
 Matching as a function on price-time priority queues.

 One side of a book is the sequence of its resting orders, best price first and, within a price,
 earliest arrival first (over any run: RunKeepsMarketGood and PriceTimePriority in Exchange.dfy).
 The engine's loop over tick-indexed FIFO lists is proved equal to `Sweep` (see MatchingEngine.dfy);
 here `Sweep` itself is characterised by a closed form.
 */
module Matching {
  import opened Types

  // ----- priority queues -----

  /** Price `p` is strictly better than price `q` for an order resting on `side`. */
  predicate Better(side: Side, p: nat, q: nat) {
    match side
    case Buy => p > q
    case Sell => p < q
  }

  /** An incoming order accepts trading at `price`. */
  predicate Crosses(inc: Order, price: nat) {
    match inc.side
    case Buy => price <= inc.price
    case Sell => price >= inc.price
  }

  /** No later order has a strictly better price. */
  ghost predicate Sorted(side: Side, q: seq<Order>) {
    forall i, j :: 0 <= i < j < |q| ==> !Better(side, q[j].price, q[i].price)
  }

  /** Queue `o` behind every order whose price is at least as good. */
  function Enqueue(side: Side, q: seq<Order>, o: Order): seq<Order> {
    if q == [] || Better(side, o.price, q[0].price) then [o] + q else [q[0]] + Enqueue(side, q[1..], o)
  }

  lemma Associate<T>(a: seq<T>, b: seq<T>, c: seq<T>)
    ensures a + (b + c) == a + b + c
  {
  }

  // ----- one incoming order -----

  function TradeReport(o: Order, price: nat, qty: uint16, ts: string): Report {
    Report(o.oid, o.coid, Some(o.instrument), o.side, price, qty, if o.quantity == 0 then Fill else PFill, "", ts)
  }

  function NewReport(o: Order, ts: string): Report {
    Report(o.oid, o.coid, Some(o.instrument), o.side, o.price, o.quantity, New, "", ts)
  }

  /** `o` with `qty` of its quantity traded away. */
  function Reduce(o: Order, qty: nat): Order
    requires qty <= o.quantity
  {
    o.(quantity := o.quantity - qty)
  }

  datatype SweepResult = SweepResult(inc: Order, opp: seq<Order>, reports: seq<Report>)

  predicate CanTrade(inc: Order, opp: seq<Order>) {
    inc.quantity > 0 && opp != [] && Crosses(inc, opp[0].price)
  }

  /** One trade between the incoming order and the head of the opposite queue. */
  function TradeStep(inc: Order, opp: seq<Order>, ts: string): SweepResult
    requires CanTrade(inc, opp)
  {
    var qty := Min(inc.quantity, opp[0].quantity);
    var inc' := Reduce(inc, qty);
    var rest := Reduce(opp[0], qty);
    SweepResult(inc', if rest.quantity == 0 then opp[1..] else [rest] + opp[1..],
                [TradeReport(inc', rest.price, qty, ts), TradeReport(rest, rest.price, qty, ts)])
  }

  /** Trade until the incoming order is exhausted or the best opposite price no longer crosses. */
  function Sweep(inc: Order, opp: seq<Order>, ts: string): SweepResult
    decreases |opp| + inc.quantity
  {
    if !CanTrade(inc, opp) then SweepResult(inc, opp, [])
    else
      var first := TradeStep(inc, opp, ts);
      var rest := Sweep(first.inc, first.opp, ts);
      SweepResult(rest.inc, rest.opp, first.reports + rest.reports)
  }

  // ----- one instrument -----

  datatype Books = Books(bids: seq<Order>, asks: seq<Order>) {
    function Queue(side: Side): seq<Order> {
      if side == Buy then bids else asks
    }
    function With(side: Side, q: seq<Order>): Books {
      if side == Buy then this.(bids := q) else this.(asks := q)
    }
  }

  datatype ProcessResult = ProcessResult(books: Books, reports: seq<Report>)

  /** What one accepted order does to its instrument's books, and the reports it causes. */
  function Process(b: Books, inc: Order, ts: string): ProcessResult {
    var s := Sweep(inc, b.Queue(Opposite(inc.side)), ts);
    var swept := b.With(Opposite(inc.side), s.opp);
    if s.inc.quantity > 0 then
      ProcessResult(swept.With(inc.side, Enqueue(inc.side, b.Queue(inc.side), s.inc)),
                    s.reports + if s.reports == [] then [NewReport(s.inc, ts)] else [])
    else
      ProcessResult(swept, s.reports)
  }

  // ----- the closed form: a waterfall over the crossing prefix -----

  /** Total quantity of the crossing orders of `opp`. */
  function CrossingQuantity(inc: Order, opp: seq<Order>): nat {
    if opp == [] || !Crosses(inc, opp[0].price) then 0
    else opp[0].quantity + CrossingQuantity(inc, opp[1..])
  }

  /** Total quantity standing ahead of position `i`. */
  function Ahead(opp: seq<Order>, i: nat): nat
    requires i <= |opp|
  {
    if i == 0 then 0 else Ahead(opp, i - 1) + opp[i - 1].quantity
  }

  /**
   What position `i` of the opposite queue must trade, with no reference to any loop: an order that
   crosses gets whatever the orders ahead of it left over, up to its own quantity.
   */
  function Allocation(inc: Order, opp: seq<Order>, i: nat): nat
    requires i < |opp|
  {
    if !Crosses(inc, opp[i].price) || inc.quantity <= Ahead(opp, i) then 0
    else Min(opp[i].quantity, inc.quantity - Ahead(opp, i))
  }

  /** The report pairs of positions `i..` in priority order, skipping those that trade nothing. */
  function WaterfallReports(inc: Order, opp: seq<Order>, ts: string, i: nat): seq<Report>
    requires i <= |opp|
    decreases |opp| - i
  {
    if i == |opp| then []
    else
      var qty := Allocation(inc, opp, i);
      (if qty == 0 then [] else
         [TradeReport(Reduce(inc, Min(inc.quantity, Ahead(opp, i) + qty)), opp[i].price, qty, ts),
          TradeReport(Reduce(opp[i], qty), opp[i].price, qty, ts)])
      + WaterfallReports(inc, opp, ts, i + 1)
  }

  /** What is left of positions `i..`, in the same order. */
  function WaterfallRest(inc: Order, opp: seq<Order>, i: nat): seq<Order>
    requires i <= |opp|
    decreases |opp| - i
  {
    if i == |opp| then []
    else
      var rest := Reduce(opp[i], Allocation(inc, opp, i));
      (if rest.quantity == 0 then [] else [rest]) + WaterfallRest(inc, opp, i + 1)
  }

  ghost predicate AllPositive(q: seq<Order>) {
    forall i :: 0 <= i < |q| ==> q[i].quantity > 0
  }

  // ----- price-time priority -----

  lemma {:induction false} AheadShift(opp: seq<Order>, i: nat)
    requires i < |opp|
    ensures Ahead(opp, i + 1) == opp[0].quantity + Ahead(opp[1..], i)
  {
    if i > 0 {
      AheadShift(opp, i - 1);
    }
  }

  lemma AheadAtLeastHead(opp: seq<Order>, i: nat)
    requires 1 <= i <= |opp|
    ensures Ahead(opp, i) >= opp[0].quantity
  {
    AheadShift(opp, i - 1);
  }

  /** Consuming the head shifts every later allocation down by one place. */
  lemma AllocationShift(inc: Order, opp: seq<Order>, i: nat)
    requires i + 1 < |opp| && opp[0].quantity <= inc.quantity
    ensures Allocation(inc, opp, i + 1) == Allocation(Reduce(inc, opp[0].quantity), opp[1..], i)
  {
    AheadShift(opp, i);
  }

  lemma {:induction false} WaterfallShift(inc: Order, opp: seq<Order>, ts: string, i: nat)
    requires i + 1 <= |opp| && opp[0].quantity <= inc.quantity
    ensures var inc' := Reduce(inc, opp[0].quantity);
            && WaterfallReports(inc, opp, ts, i + 1) == WaterfallReports(inc', opp[1..], ts, i)
            && WaterfallRest(inc, opp, i + 1) == WaterfallRest(inc', opp[1..], i)
    decreases |opp| - i
  {
    if i + 1 < |opp| {
      AheadShift(opp, i);
      AllocationShift(inc, opp, i);
      WaterfallShift(inc, opp, ts, i + 1);
    }
  }

  /** Positions that are allocated nothing report nothing and stay as they are. */
  lemma {:induction false} WaterfallIdle(inc: Order, opp: seq<Order>, ts: string, i: nat)
    requires i <= |opp| && AllPositive(opp)
    requires forall j :: i <= j < |opp| ==> Allocation(inc, opp, j) == 0
    ensures WaterfallReports(inc, opp, ts, i) == [] && WaterfallRest(inc, opp, i) == opp[i..]
    decreases |opp| - i
  {
    if i < |opp| {
      WaterfallIdle(inc, opp, ts, i + 1);
      assert opp[i..] == [opp[i]] + opp[i + 1..];
    }
  }

  lemma SortedTail(side: Side, q: seq<Order>, rest: seq<Order>)
    requires q != [] && Sorted(side, q)
    requires rest == q[1..] || (rest != [] && rest[1..] == q[1..] && rest[0].price == q[0].price)
    ensures Sorted(side, rest)
  {
    if rest != q[1..] {
      forall i, j | 0 <= i < j < |rest|
        ensures !Better(side, rest[j].price, rest[i].price)
      {
        assert rest[j] == rest[1..][j - 1] == q[j];
        if i > 0 {
          assert rest[i] == rest[1..][i - 1] == q[i];
        }
      }
    }
  }

  /**
   Price-time priority with maximality. Sweeping a sorted queue is the waterfall allocation: the
   incoming order gives each crossing position, in priority order, whatever is left, so it trades
   min(its quantity, the crossing quantity), all positions before the last traded one are exhausted
   and that one keeps its place; every trade is at the resting order's own price.
   */
  lemma {:induction false} SweepIsWaterfall(inc: Order, opp: seq<Order>, ts: string)
    requires Sorted(Opposite(inc.side), opp) && AllPositive(opp)
    ensures Sweep(inc, opp, ts) ==
            SweepResult(Reduce(inc, Min(inc.quantity, CrossingQuantity(inc, opp))),
                        WaterfallRest(inc, opp, 0), WaterfallReports(inc, opp, ts, 0))
    decreases |opp| + inc.quantity
  {
    if !CanTrade(inc, opp) {
      assert forall j :: 0 <= j < |opp| ==> Allocation(inc, opp, j) == 0;
      WaterfallIdle(inc, opp, ts, 0);
    } else if opp[0].quantity <= inc.quantity {
      var inc' := Reduce(inc, opp[0].quantity);
      SweepIsWaterfall(inc', opp[1..], ts);
      WaterfallHeadExhausted(inc, opp, ts);
    } else {
      WaterfallHeadReduced(inc, opp, ts);
    }
  }

  /** The closed form when the head is traded away entirely. */
  lemma WaterfallHeadExhausted(inc: Order, opp: seq<Order>, ts: string)
    requires CanTrade(inc, opp) && 0 < opp[0].quantity <= inc.quantity
    ensures var inc' := Reduce(inc, opp[0].quantity);
            && WaterfallRest(inc, opp, 0) == WaterfallRest(inc', opp[1..], 0)
            && WaterfallReports(inc, opp, ts, 0)
               == TradeStep(inc, opp, ts).reports + WaterfallReports(inc', opp[1..], ts, 0)
            && Reduce(inc, Min(inc.quantity, CrossingQuantity(inc, opp)))
               == Reduce(inc', Min(inc'.quantity, CrossingQuantity(inc', opp[1..])))
            && TradeStep(inc, opp, ts).inc == inc' && TradeStep(inc, opp, ts).opp == opp[1..]
  {
    var inc' := Reduce(inc, opp[0].quantity);
    WaterfallShift(inc, opp, ts, 0);
    CrossingShift(inc, inc', opp[1..]);
    assert Allocation(inc, opp, 0) == opp[0].quantity;
  }

  /** The closed form when the incoming order ends inside the head. */
  lemma WaterfallHeadReduced(inc: Order, opp: seq<Order>, ts: string)
    requires CanTrade(inc, opp) && inc.quantity < opp[0].quantity && AllPositive(opp)
    ensures Sweep(inc, opp, ts) ==
            SweepResult(Reduce(inc, Min(inc.quantity, CrossingQuantity(inc, opp))),
                        WaterfallRest(inc, opp, 0), WaterfallReports(inc, opp, ts, 0))
  {
    assert Allocation(inc, opp, 0) == inc.quantity;
    forall j | 1 <= j < |opp|
      ensures Allocation(inc, opp, j) == 0
    {
      AheadAtLeastHead(opp, j);
    }
    WaterfallIdle(inc, opp, ts, 1);
    var first := TradeStep(inc, opp, ts);
    assert Sweep(first.inc, first.opp, ts) == SweepResult(first.inc, first.opp, []);
    assert WaterfallReports(inc, opp, ts, 0) == first.reports + [];
  }

  lemma {:induction false} CrossingShift(a: Order, b: Order, opp: seq<Order>)
    requires a.side == b.side && a.price == b.price
    ensures CrossingQuantity(a, opp) == CrossingQuantity(b, opp)
  {
    if opp != [] {
      CrossingShift(a, b, opp[1..]);
    }
  }

  /** The orders hit are a prefix: `k` are exhausted and at most the next one is only reduced. */
  ghost predicate TakesPrefix(opp: seq<Order>, opp': seq<Order>, k: nat) {
    && k <= |opp|
    && (opp' == opp[k..]
        || (k < |opp| && exists qty :: 0 < qty < opp[k].quantity && opp' == [Reduce(opp[k], qty)] + opp[k + 1..]))
  }

  lemma {:induction false} SweepTakesPrefix(inc: Order, opp: seq<Order>, ts: string) returns (k: nat)
    requires AllPositive(opp)
    ensures TakesPrefix(opp, Sweep(inc, opp, ts).opp, k)
    ensures forall i :: 0 <= i < k ==> if inc.side == Buy then opp[i].price <= inc.price else opp[i].price >= inc.price
    ensures var s := Sweep(inc, opp, ts);
            s.opp != opp[k..] ==>
              && s.inc.quantity == 0
              && if inc.side == Buy then opp[k].price <= inc.price else opp[k].price >= inc.price
    ensures var s := Sweep(inc, opp, ts);
            s.inc.quantity > 0 && s.opp != [] ==>
              if inc.side == Buy then s.opp[0].price > inc.price else s.opp[0].price < inc.price
    decreases |opp| + inc.quantity
  {
    if !CanTrade(inc, opp) {
      k := 0;
    } else {
      var first := TradeStep(inc, opp, ts);
      var k' := SweepTakesPrefix(first.inc, first.opp, ts);
      if opp[0].quantity <= inc.quantity {
        k := k' + 1;
        assert opp[1..][k'..] == opp[k..];
        if k < |opp| {
          assert opp[1..][k'] == opp[k] && opp[1..][k' + 1..] == opp[k + 1..];
        }
      } else {
        k := 0;
      }
    }
  }

  // ----- arrival order -----

  /** `o` goes behind everything at least as good and ahead of everything worse; nothing else moves. */
  ghost predicate QueuedAt(side: Side, q: seq<Order>, o: Order, k: nat, q': seq<Order>) {
    && k <= |q| && q' == q[..k] + [o] + q[k..]
    && (forall i :: 0 <= i < k ==> !Better(side, o.price, q[i].price))
    && (forall i :: k <= i < |q| ==> Better(side, o.price, q[i].price))
  }

  lemma {:induction false} EnqueuePosition(side: Side, q: seq<Order>, o: Order) returns (k: nat)
    requires Sorted(side, q)
    ensures QueuedAt(side, q, o, k, Enqueue(side, q, o))
  {
    if q == [] || Better(side, o.price, q[0].price) {
      k := 0;
    } else {
      SortedTail(side, q, q[1..]);
      k := EnqueuePosition(side, q[1..], o);
      k := k + 1;
      assert q[..k] == [q[0]] + q[1..][..k - 1] && q[k..] == q[1..][k - 1..];
    }
  }

  lemma EnqueueSorted(side: Side, q: seq<Order>, o: Order)
    requires Sorted(side, q)
    ensures Sorted(side, Enqueue(side, q, o))
  {
    var k := EnqueuePosition(side, q, o);
  }

  // ----- one instrument's books -----

  ghost predicate Resting(instrument: Instrument, side: Side, o: Order) {
    o.instrument == instrument && o.side == side && o.quantity > 0
  }

  ghost predicate GoodQueue(instrument: Instrument, side: Side, q: seq<Order>) {
    Sorted(side, q) && forall i :: 0 <= i < |q| ==> Resting(instrument, side, q[i])
  }

  /** The best bid is strictly below the best ask. */
  predicate Uncrossed(b: Books) {
    b.bids != [] && b.asks != [] ==> b.bids[0].price < b.asks[0].price
  }

  ghost predicate GoodBooks(instrument: Instrument, b: Books) {
    GoodQueue(instrument, Buy, b.bids) && GoodQueue(instrument, Sell, b.asks) && Uncrossed(b)
  }

  /** A sweep leaves a good queue that the rest of the incoming order, if any, does not cross. */
  lemma {:induction false} SweepGood(inc: Order, opp: seq<Order>, ts: string)
    requires GoodQueue(inc.instrument, Opposite(inc.side), opp)
    ensures var s := Sweep(inc, opp, ts);
            && GoodQueue(inc.instrument, Opposite(inc.side), s.opp)
            && s.inc == inc.(quantity := s.inc.quantity) && s.inc.quantity <= inc.quantity
            && !CanTrade(s.inc, s.opp)
            && (opp != [] && s.opp != [] ==> !Better(Opposite(inc.side), s.opp[0].price, opp[0].price))
            && (opp == [] ==> s.opp == [])
            && (s.reports == [] ==> s.inc == inc && s.opp == opp)
    decreases |opp| + inc.quantity
  {
    if CanTrade(inc, opp) {
      var first := TradeStep(inc, opp, ts);
      SortedTail(Opposite(inc.side), opp, first.opp);
      SweepGood(first.inc, first.opp, ts);
      if first.opp != [] {
        assert first.opp[0].price == opp[0].price || first.opp[0] == opp[1];
      }
    }
  }

  /** No accepted order ever leaves the books crossed, misfiled, unsorted or holding an empty order. */
  lemma ProcessKeepsBooksGood(b: Books, inc: Order, ts: string)
    requires GoodBooks(inc.instrument, b)
    ensures GoodBooks(inc.instrument, Process(b, inc, ts).books)
  {
    hide Sweep, Enqueue, Sorted;
    var opp, own := b.Queue(Opposite(inc.side)), b.Queue(inc.side);
    var s := Sweep(inc, opp, ts);
    SweepGood(inc, opp, ts);
    if s.inc.quantity > 0 {
      EnqueueSorted(inc.side, own, s.inc);
      var k := EnqueuePosition(inc.side, own, s.inc);
    }
  }
}
