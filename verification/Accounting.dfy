/**
 The life of every order over any run: which words of reports it can receive, and where its quantity is.
 */
module Accounting {
  import opened Types
  import opened Decimals
  import opened PriceText
  import opened Matching
  import opened Exchange

  // ----- the life of one order, read off the report stream -----

  datatype Life =
    | Fresh                 // nothing reported yet
    | Refused               // exactly one Reject
    | Open(traded: nat)     // New? Pfill*, not empty
    | Closed(traded: nat)   // New? Pfill* Fill
    | Broken                // any other word

  function Advance(life: Life, r: Report): Life {
    match r.status
    case Rejected => if life == Fresh then Refused else Broken
    case New => if life == Fresh then Open(0) else Broken
    case PFill =>
      if r.quantity == 0 then Broken
      else if life == Fresh then Open(r.quantity)
      else if life.Open? then Open(life.traded + r.quantity)
      else Broken
    case Fill =>
      if r.quantity == 0 then Broken
      else if life == Fresh then Closed(r.quantity)
      else if life.Open? then Closed(life.traded + r.quantity)
      else Broken
  }

  function LifeOf(reports: seq<Report>, oid: string): Life {
    if reports == [] then Fresh
    else
      var last := reports[|reports| - 1];
      var before := LifeOf(reports[..|reports| - 1], oid);
      if last.oid == oid then Advance(before, last) else before
  }

  // ----- what the automaton accepts, as words and sums -----

  function Statuses(reports: seq<Report>, oid: string): seq<ExecStatus> {
    if reports == [] then []
    else
      var last := reports[|reports| - 1];
      Statuses(reports[..|reports| - 1], oid) + if last.oid == oid then [last.status] else []
  }

  function TradedQuantity(reports: seq<Report>, oid: string): nat {
    if reports == [] then 0
    else
      var last := reports[|reports| - 1];
      TradedQuantity(reports[..|reports| - 1], oid)
      + if last.oid == oid && (last.status == PFill || last.status == Fill) then last.quantity else 0
  }

  /** New? Pfill* */
  ghost predicate OpenWord(w: seq<ExecStatus>) {
    && (forall i :: 0 < i < |w| ==> w[i] == PFill)
    && (|w| > 0 ==> w[0] == New || w[0] == PFill)
  }

  /** New? Pfill* Fill */
  ghost predicate ClosedWord(w: seq<ExecStatus>) {
    |w| > 0 && w[|w| - 1] == Fill && OpenWord(w[..|w| - 1])
  }

  ghost predicate LifeMeaning(life: Life, w: seq<ExecStatus>, traded: nat) {
    match life
    case Fresh => w == [] && traded == 0
    case Refused => w == [Rejected] && traded == 0
    case Open(t) => w != [] && OpenWord(w) && t == traded
    case Closed(t) => ClosedWord(w) && t == traded
    case Broken => true
  }

  /** No trade report on `oid` is for nothing. */
  ghost predicate TradesPositive(reports: seq<Report>, oid: string) {
    forall i :: 0 <= i < |reports| && reports[i].oid == oid && (reports[i].status == PFill || reports[i].status == Fill)
      ==> reports[i].quantity > 0
  }

  /** Conversely, the word alone tells the state. */
  ghost predicate WordMeaning(w: seq<ExecStatus>, life: Life) {
    && (w == [] <==> life == Fresh)
    && (w == [Rejected] <==> life == Refused)
    && (w != [] && OpenWord(w) <==> life.Open?)
    && (ClosedWord(w) <==> life.Closed?)
  }

  lemma {:induction false} StateMeansWord(reports: seq<Report>, oid: string)
    ensures LifeMeaning(LifeOf(reports, oid), Statuses(reports, oid), TradedQuantity(reports, oid))
  {
    hide LifeMeaning, Advance;
    if reports == [] {
      FreshMeaning();
    } else {
      var n := |reports| - 1;
      StateMeansWord(reports[..n], oid);
      var w := Statuses(reports[..n], oid);
      AdvanceMeaning(LifeOf(reports[..n], oid), w, TradedQuantity(reports[..n], oid), reports[n]);
      assert w + [] == w;
    }
  }

  lemma {:induction false} WordMeansState(reports: seq<Report>, oid: string)
    requires TradesPositive(reports, oid)
    ensures WordMeaning(Statuses(reports, oid), LifeOf(reports, oid))
  {
    hide WordMeaning, Advance;
    if reports == [] {
      FreshMeaning();
    } else {
      var n := |reports| - 1;
      WordMeansState(reports[..n], oid);
      var w := Statuses(reports[..n], oid);
      assert w + [] == w;
      if reports[n].oid == oid {
        AdvanceWord(LifeOf(reports[..n], oid), w, reports[n]);
      }
    }
  }

  /**
   A state of the automaton implies its word and counts the traded quantity; and as long as no trade report
   is for nothing, as in every run, each of the promised words implies its state, so that Broken means none of them.
   */
  lemma LifeIsWord(reports: seq<Report>, oid: string)
    ensures LifeMeaning(LifeOf(reports, oid), Statuses(reports, oid), TradedQuantity(reports, oid))
    ensures TradesPositive(reports, oid) ==> WordMeaning(Statuses(reports, oid), LifeOf(reports, oid))
  {
    hide LifeMeaning, WordMeaning, LifeOf, Statuses, TradedQuantity, TradesPositive;
    StateMeansWord(reports, oid);
    if TradesPositive(reports, oid) {
      WordMeansState(reports, oid);
    }
  }

  lemma FreshMeaning()
    ensures LifeMeaning(Fresh, [], 0) && WordMeaning([], Fresh)
  {
  }

  /** One more report moves the automaton as it extends the word and the sum. */
  lemma AdvanceMeaning(life: Life, w: seq<ExecStatus>, traded: nat, r: Report)
    requires LifeMeaning(life, w, traded)
    ensures LifeMeaning(Advance(life, r), w + [r.status],
                        traded + if r.status == PFill || r.status == Fill then r.quantity else 0)
  {
    assert (w + [r.status])[..|w|] == w;
  }

  lemma AdvanceWord(life: Life, w: seq<ExecStatus>, r: Report)
    requires WordMeaning(w, life) && (r.status == PFill || r.status == Fill ==> r.quantity > 0)
    ensures WordMeaning(w + [r.status], Advance(life, r))
  {
    var w' := w + [r.status];
    assert w'[..|w|] == w && w'[|w|] == r.status;
    assert forall i :: 0 <= i < |w| ==> w'[i] == w[i];
    if w != [] {
      assert w'[0] == w[0];
      assert OpenWord(w') <==> OpenWord(w) && r.status == PFill;
      assert w' != [Rejected];
    }
  }

  /** Every trade of a run moves some quantity. */
  lemma {:induction false} RunTradesPositive(events: seq<Event>, oid: string)
    ensures TradesPositive(Run(events).reports, oid)
  {
    hide Handle, MarketInArrivalOrder, LegalBooks, GoodMarket;
    if events != [] {
      var n := |events| - 1;
      RunTradesPositive(events[..n], oid);
      RunKeepsMarketGood(events[..n]);
      HandleTradesPositive(Run(events[..n]).state, events[n], oid);
    }
  }

  lemma HandleTradesPositive(s: State, e: Event, oid: string)
    requires GoodMarket(s.market)
    ensures TradesPositive(Handle(s, e).reports, oid)
  {
    hide Sweep, Enqueue, Refusal, OrderId, AcceptedOrder, PublishAll, Sorted, Uncrossed;
    if Refusal(e.msg) == None {
      HandleAccepted(s, e);
      var order := AcceptedOrder(e.msg, OrderId(s.nextOid));
      assert GoodBooks(order.instrument, s.market[Index(order.instrument)]);
      SweepTradesPositive(order, s.market[Index(order.instrument)].Queue(Opposite(order.side)), e.timestamp, oid);
    } else {
      HandleRefused(s, e);
    }
  }

  lemma {:induction false} SweepTradesPositive(inc: Order, opp: seq<Order>, ts: string, oid: string)
    requires AllPositive(opp)
    ensures TradesPositive(Sweep(inc, opp, ts).reports, oid)
    decreases |opp| + inc.quantity
  {
    if CanTrade(inc, opp) {
      var first := TradeStep(inc, opp, ts);
      SweepTradesPositive(first.inc, first.opp, ts, oid);
    }
  }

  lemma LifeAfterOne(reports: seq<Report>, r: Report, oid: string)
    ensures LifeOf(reports + [r], oid) ==
            if r.oid == oid then Advance(LifeOf(reports, oid), r) else LifeOf(reports, oid)
  {
    assert (reports + [r])[..|reports + [r]| - 1] == reports;
  }

  lemma LifeAfterPair(reports: seq<Report>, a: Report, b: Report, oid: string)
    requires a.oid != b.oid
    ensures LifeOf(reports + [a, b], oid) ==
            if a.oid == oid then Advance(LifeOf(reports, oid), a)
            else if b.oid == oid then Advance(LifeOf(reports, oid), b)
            else LifeOf(reports, oid)
  {
    LifeAfterOne(reports, a, oid);
    LifeAfterOne(reports + [a], b, oid);
    assert reports + [a, b] == reports + [a] + [b];
  }

  // ----- the ledger of accepted orders -----

  /** Accepted orders as submitted, by exchange id. */
  type Ledger = map<string, Order>

  /** `o` is the entry of its id, except that some of its quantity may have traded. */
  ghost predicate Entered(o: Order, ledger: Ledger) {
    && o.oid in ledger && ledger[o.oid] == o.(quantity := ledger[o.oid].quantity)
    && o.quantity <= ledger[o.oid].quantity
  }

  /** A resting order has reported exactly the quantity it no longer has. */
  ghost predicate Rests(o: Order, reports: seq<Report>, ledger: Ledger) {
    && Entered(o, ledger) && o.quantity > 0
    && LifeOf(reports, o.oid) == Open(ledger[o.oid].quantity - o.quantity)
  }

  ghost predicate QueueRests(q: seq<Order>, reports: seq<Report>, ledger: Ledger) {
    && (forall i :: 0 <= i < |q| ==> Rests(q[i], reports, ledger))
    && (forall i, j :: 0 <= i < j < |q| ==> q[i].oid != q[j].oid)
  }

  /** The incoming order while it is being swept: fresh until its first trade. */
  ghost predicate Arriving(inc: Order, reports: seq<Report>, ledger: Ledger) {
    && Entered(inc, ledger)
    && var traded := ledger[inc.oid].quantity - inc.quantity;
       LifeOf(reports, inc.oid) ==
       if traded == 0 then Fresh else if inc.quantity == 0 then Closed(traded) else Open(traded)
  }

  ghost function Oids(q: seq<Order>): set<string> {
    set i | 0 <= i < |q| :: q[i].oid
  }

  /** From `q` to `q'`: the orders that left are closed in full, and nobody outside `q` but `oid` was reported on. */
  ghost predicate Settled(
      oid: string, q: seq<Order>, q': seq<Order>, reports: seq<Report>, after: seq<Report>, ledger: Ledger)
  {
    && Oids(q') <= Oids(q)
    && (forall x :: x in Oids(q) && x !in Oids(q') ==>
          x in ledger && LifeOf(after, x) == Closed(ledger[x].quantity))
    && (forall x :: x != oid && x !in Oids(q) ==> LifeOf(after, x) == LifeOf(reports, x))
  }

  /** Reports that touch only the tail of `q` and `oid` compose with those of the first trade. */
  lemma SettledCompose(oid: string, q: seq<Order>, q1: seq<Order>, q2: seq<Order>,
                       r0: seq<Report>, r1: seq<Report>, r2: seq<Report>, ledger: Ledger)
    requires Settled(oid, q, q1, r0, r1, ledger) && Settled(oid, q1, q2, r1, r2, ledger)
    requires oid !in Oids(q)
    ensures Settled(oid, q, q2, r0, r2, ledger)
  {
    forall x | x in Oids(q) && x !in Oids(q2)
      ensures x in ledger && LifeOf(r2, x) == Closed(ledger[x].quantity)
    {
      if x !in Oids(q1) {
        assert LifeOf(r2, x) == LifeOf(r1, x);
      }
    }
  }

  /** One trade keeps both sides accounted for. */
  lemma TradeAccounts(inc: Order, opp: seq<Order>, ts: string, reports: seq<Report>, ledger: Ledger)
    requires CanTrade(inc, opp)
    requires QueueRests(opp, reports, ledger) && Arriving(inc, reports, ledger) && inc.oid !in Oids(opp)
    ensures var first := TradeStep(inc, opp, ts);
            var after := reports + first.reports;
            && QueueRests(first.opp, after, ledger) && Arriving(first.inc, after, ledger)
            && first.inc.oid == inc.oid
            && Settled(inc.oid, opp, first.opp, reports, after, ledger)
  {
    hide LifeOf, Oids, Crosses;
    var first := TradeStep(inc, opp, ts);
    var after := reports + first.reports;
    HeadOid(opp);
    assert opp[0].oid in Oids(opp) && Rests(opp[0], reports, ledger);
    forall oid
      ensures LifeOf(after, oid) ==
              if oid == inc.oid then Advance(LifeOf(reports, oid), first.reports[0])
              else if oid == opp[0].oid then Advance(LifeOf(reports, oid), first.reports[1])
              else LifeOf(reports, oid)
    {
      LifeAfterPair(reports, first.reports[0], first.reports[1], oid);
    }
    TradeOids(inc, opp, ts);
    forall i | 0 <= i < |first.opp|
      ensures Rests(first.opp[i], after, ledger)
    {
      var j := i + |opp| - |first.opp|;
      assert first.opp[i].oid == opp[j].oid && Rests(opp[j], reports, ledger);
    }
  }

  lemma HeadOid(q: seq<Order>)
    ensures forall i :: 0 <= i < |q| ==> q[i].oid in Oids(q)
  {
  }

  lemma TradeOids(inc: Order, opp: seq<Order>, ts: string)
    requires CanTrade(inc, opp)
    ensures var opp' := TradeStep(inc, opp, ts).opp;
            && Oids(opp') <= Oids(opp) <= Oids(opp') + {opp[0].oid}
            && (opp[0].quantity > inc.quantity ==> opp[0].oid in Oids(opp'))
  {
    var opp' := TradeStep(inc, opp, ts).opp;
    forall oid | oid in Oids(opp) && oid != opp[0].oid
      ensures oid in Oids(opp')
    {
      var i :| 0 <= i < |opp| && opp[i].oid == oid;
      assert opp'[|opp'| - |opp| + i] == opp[i];
    }
    forall i | 0 <= i < |opp'|
      ensures opp'[i].oid in Oids(opp)
    {
      assert opp'[i].oid == opp[i + |opp| - |opp'|].oid;
    }
    if opp[0].quantity > inc.quantity {
      assert opp'[0].oid == opp[0].oid;
    }
  }

  /** A whole sweep keeps both sides accounted for; orders that leave the queue are closed in full. */
  lemma {:induction false} SweepAccounts(
      inc: Order, opp: seq<Order>, ts: string, reports: seq<Report>, ledger: Ledger)
    requires QueueRests(opp, reports, ledger) && Arriving(inc, reports, ledger) && inc.oid !in Oids(opp)
    ensures var s := Sweep(inc, opp, ts);
            var after := reports + s.reports;
            && QueueRests(s.opp, after, ledger) && Arriving(s.inc, after, ledger)
            && s.inc.oid == inc.oid
            && Settled(inc.oid, opp, s.opp, reports, after, ledger)
    decreases |opp| + inc.quantity
  {
    if !CanTrade(inc, opp) {
      assert reports + [] == reports;
    } else {
      var first := TradeStep(inc, opp, ts);
      var middle := reports + first.reports;
      TradeAccounts(inc, opp, ts, reports, ledger);
      SweepAccounts(first.inc, first.opp, ts, middle, ledger);
      var s, rest := Sweep(inc, opp, ts), Sweep(first.inc, first.opp, ts);
      assert s == SweepResult(rest.inc, rest.opp, first.reports + rest.reports);
      var after := reports + s.reports;
      Associate(reports, first.reports, rest.reports);
      SettledCompose(inc.oid, opp, first.opp, rest.opp, reports, middle, after, ledger);
    }
  }

  lemma {:induction false} SweepTrades(inc: Order, opp: seq<Order>, ts: string)
    requires AllPositive(opp)
    ensures Sweep(inc, opp, ts).inc.quantity <= inc.quantity
    ensures Sweep(inc, opp, ts).reports != [] <==> Sweep(inc, opp, ts).inc.quantity < inc.quantity
    decreases |opp| + inc.quantity
  {
    if CanTrade(inc, opp) {
      var first := TradeStep(inc, opp, ts);
      SweepTrades(first.inc, first.opp, ts);
    }
  }

  // ----- one accepted order -----

  /** Reports about others leave a queue accounted for. */
  lemma QueueUntouched(q: seq<Order>, reports: seq<Report>, after: seq<Report>, ledger: Ledger)
    requires QueueRests(q, reports, ledger)
    requires forall x :: x in Oids(q) ==> LifeOf(after, x) == LifeOf(reports, x)
    ensures QueueRests(q, after, ledger)
  {
    forall i | 0 <= i < |q|
      ensures Rests(q[i], after, ledger)
    {
      assert q[i].oid in Oids(q) && Rests(q[i], reports, ledger);
    }
  }

  /** Orders of queues on different sides or instruments never share an id. */
  lemma QueuesDisjoint(q1: seq<Order>, i1: Instrument, s1: Side, q2: seq<Order>, i2: Instrument, s2: Side,
                       reports: seq<Report>, ledger: Ledger)
    requires QueueRests(q1, reports, ledger) && QueueRests(q2, reports, ledger)
    requires GoodQueue(i1, s1, q1) && GoodQueue(i2, s2, q2)
    requires i1 != i2 || s1 != s2
    ensures Oids(q1) !! Oids(q2)
  {
    OidsAreFiled(q1, i1, s1, reports, ledger);
    OidsAreFiled(q2, i2, s2, reports, ledger);
  }

  lemma OidsAreFiled(q: seq<Order>, instrument: Instrument, side: Side, reports: seq<Report>, ledger: Ledger)
    requires QueueRests(q, reports, ledger) && GoodQueue(instrument, side, q)
    ensures forall x :: x in Oids(q) ==> x in ledger && ledger[x].instrument == instrument && ledger[x].side == side
  {
    forall i | 0 <= i < |q|
      ensures q[i].oid in ledger && ledger[q[i].oid].instrument == instrument && ledger[q[i].oid].side == side
    {
      assert Rests(q[i], reports, ledger) && Resting(instrument, side, q[i]);
    }
  }

  /** Resting what is left of an order joins it to its own queue's account. */
  lemma RestAccounts(side: Side, own: seq<Order>, o: Order, reports: seq<Report>, ledger: Ledger)
    requires Sorted(side, own) && QueueRests(own, reports, ledger) && Rests(o, reports, ledger)
    requires o.oid !in Oids(own)
    ensures QueueRests(Enqueue(side, own, o), reports, ledger)
    ensures Oids(Enqueue(side, own, o)) == Oids(own) + {o.oid}
  {
    var k := EnqueuePosition(side, own, o);
    InsertOids(own, o, k);
    InsertRests(own, o, k, reports, ledger);
  }

  lemma InsertOids(q: seq<Order>, o: Order, k: nat)
    requires k <= |q|
    ensures Oids(q[..k] + [o] + q[k..]) == Oids(q) + {o.oid}
  {
    var q' := q[..k] + [o] + q[k..];
    assert q'[k] == o;
    forall i | 0 <= i < |q|
      ensures q[i].oid in Oids(q')
    {
      assert q[i] == q'[if i < k then i else i + 1];
    }
  }

  lemma InsertRests(q: seq<Order>, o: Order, k: nat, reports: seq<Report>, ledger: Ledger)
    requires k <= |q| && QueueRests(q, reports, ledger) && Rests(o, reports, ledger)
    requires o.oid !in Oids(q)
    ensures QueueRests(q[..k] + [o] + q[k..], reports, ledger)
  {
    var q' := q[..k] + [o] + q[k..];
    assert forall i :: 0 <= i < |q'| ==> q'[i] == if i < k then q[i] else if i == k then o else q[i - 1];
    assert forall i :: 0 <= i < |q| ==> q[i].oid in Oids(q);
  }

  /** The whole effect of one accepted order on its own instrument's accounts. */
  lemma ProcessAccounts(b: Books, inc: Order, ts: string, reports: seq<Report>, ledger: Ledger)
    requires GoodBooks(inc.instrument, b)
    requires QueueRests(b.bids, reports, ledger) && QueueRests(b.asks, reports, ledger)
    requires inc.oid in ledger && ledger[inc.oid] == inc && inc.quantity > 0 && LifeOf(reports, inc.oid) == Fresh
    ensures var p := Process(b, inc, ts);
            var after := reports + p.reports;
            var own := p.books.Queue(inc.side);
            && QueueRests(p.books.bids, after, ledger) && QueueRests(p.books.asks, after, ledger)
            && Settled(inc.oid, b.Queue(Opposite(inc.side)), p.books.Queue(Opposite(inc.side)), reports, after, ledger)
            && (if inc.oid in Oids(own) then Oids(own) == Oids(b.Queue(inc.side)) + {inc.oid}
                else own == b.Queue(inc.side) && LifeOf(after, inc.oid) == Closed(inc.quantity))
  {
    var opp, own := b.Queue(Opposite(inc.side)), b.Queue(inc.side);
    FreshNotResting(inc.oid, opp, reports, ledger);
    FreshNotResting(inc.oid, own, reports, ledger);
    QueuesDisjoint(own, inc.instrument, inc.side, opp, inc.instrument, Opposite(inc.side), reports, ledger);
    var s := Sweep(inc, opp, ts);
    SweepAccounts(inc, opp, ts, reports, ledger);
    SweepTrades(inc, opp, ts);
    var middle := reports + s.reports;
    QueueUntouched(own, reports, middle, ledger);
    if s.inc.quantity > 0 {
      if s.reports == [] {
        assert reports + [] == reports;
        NewAccounts(b, inc, ts, reports, ledger);
      } else {
        assert s.reports + [] == s.reports;
        RestAccounts(inc.side, own, s.inc, middle, ledger);
      }
    }
  }

  lemma FreshNotResting(oid: string, q: seq<Order>, reports: seq<Report>, ledger: Ledger)
    requires QueueRests(q, reports, ledger) && LifeOf(reports, oid) == Fresh
    ensures oid !in Oids(q)
  {
    assert forall i :: 0 <= i < |q| ==> Rests(q[i], reports, ledger);
  }

  /** An order that met nothing is reported New and rests whole. */
  lemma NewAccounts(b: Books, inc: Order, ts: string, reports: seq<Report>, ledger: Ledger)
    requires GoodBooks(inc.instrument, b) && AllPositive(b.Queue(Opposite(inc.side)))
    requires Sweep(inc, b.Queue(Opposite(inc.side)), ts) == SweepResult(inc, b.Queue(Opposite(inc.side)), [])
    requires QueueRests(b.bids, reports, ledger) && QueueRests(b.asks, reports, ledger)
    requires inc.oid in ledger && ledger[inc.oid] == inc && inc.quantity > 0 && LifeOf(reports, inc.oid) == Fresh
    ensures var p := Process(b, inc, ts);
            var after := reports + p.reports;
            && QueueRests(p.books.bids, after, ledger) && QueueRests(p.books.asks, after, ledger)
            && Settled(inc.oid, b.Queue(Opposite(inc.side)), p.books.Queue(Opposite(inc.side)), reports, after, ledger)
            && Oids(p.books.Queue(inc.side)) == Oids(b.Queue(inc.side)) + {inc.oid}
  {
    var opp, own := b.Queue(Opposite(inc.side)), b.Queue(inc.side);
    FreshNotResting(inc.oid, opp, reports, ledger);
    FreshNotResting(inc.oid, own, reports, ledger);
    var p := Process(b, inc, ts);
    assert p.reports == [NewReport(inc, ts)];
    var after := reports + [NewReport(inc, ts)];
    forall x
      ensures LifeOf(after, x) == if x == inc.oid then Open(0) else LifeOf(reports, x)
    {
      LifeAfterOne(reports, NewReport(inc, ts), x);
    }
    QueueUntouched(own, reports, after, ledger);
    QueueUntouched(opp, reports, after, ledger);
    RestAccounts(inc.side, own, inc, after, ledger);
  }

  // ----- the whole run -----

  /** The order that event `k` (counting from 1) submits. */
  function Submitted(events: seq<Event>, k: nat): Order
    requires 1 <= k <= |events| && Refusal(events[k - 1].msg) == None
  {
    AcceptedOrder(events[k - 1].msg, OrderId(k))
  }

  function LedgerOf(events: seq<Event>): Ledger {
    if events == [] then map[]
    else
      var n := |events|;
      var before := LedgerOf(events[..n - 1]);
      if Refusal(events[n - 1].msg) == None then before[OrderId(n) := Submitted(events, n)] else before
  }

  lemma OrderIdInjective(a: nat, b: nat)
    requires OrderId(a) == OrderId(b)
    ensures a == b
  {
    assert OrderId(a)[3..] == Decimal(a) && OrderId(b)[3..] == Decimal(b);
    DecimalInjective(a, b);
  }

  /** The ledger holds exactly the accepted orders, under the ids the exchange gave them. */
  lemma {:induction false} LedgerEntries(events: seq<Event>, k: nat)
    ensures OrderId(k) in LedgerOf(events) <==> 1 <= k <= |events| && Refusal(events[k - 1].msg) == None
    ensures OrderId(k) in LedgerOf(events) ==>
              && LedgerOf(events)[OrderId(k)] == Submitted(events, k)
              && LedgerOf(events)[OrderId(k)].oid == OrderId(k)
              && AsksFor(events[k - 1].msg, LedgerOf(events)[OrderId(k)])
  {
    hide OrderId, AsksFor, Refusal, AcceptedOrder;
    if events != [] {
      var n := |events|;
      LedgerEntries(events[..n - 1], k);
      if OrderId(k) == OrderId(n) {
        OrderIdInjective(k, n);
      }
      if Refusal(events[n - 1].msg) == None {
        AdmittedAs(events[n - 1].msg, OrderId(n));
      }
    }
  }

  ghost predicate MarketRests(market: Market, reports: seq<Report>, ledger: Ledger) {
    forall i :: 0 <= i < INSTRUMENTS ==>
      QueueRests(market[i].bids, reports, ledger) && QueueRests(market[i].asks, reports, ledger)
  }

  /** An accepted order is still queued, or closed in full. */
  ghost predicate QueuedOrClosed(market: Market, reports: seq<Report>, ledger: Ledger, oid: string)
    requires oid in ledger
  {
    || oid in Oids(market[Index(ledger[oid].instrument)].Queue(ledger[oid].side))
    || LifeOf(reports, oid) == Closed(ledger[oid].quantity)
  }

  ghost predicate Accounted(market: Market, reports: seq<Report>, ledger: Ledger) {
    && MarketRests(market, reports, ledger)
    && (forall oid :: oid in ledger ==> QueuedOrClosed(market, reports, ledger, oid))
  }

  /** Ids beyond the run have never been reported on; those of refused messages exactly once. */
  ghost predicate IdsUsed(events: seq<Event>, reports: seq<Report>) {
    forall k: nat ::
      (k == 0 || k > |events| ==> LifeOf(reports, OrderId(k)) == Fresh)
      && (1 <= k <= |events| && Refusal(events[k - 1].msg).Some? ==> LifeOf(reports, OrderId(k)) == Refused)
  }

  lemma {:induction false} RunAccounts(events: seq<Event>)
    ensures var o := Run(events);
            Accounted(o.state.market, o.reports, LedgerOf(events)) && IdsUsed(events, o.reports)
  {
    if events != [] {
      var n := |events|;
      RunAccounts(events[..n - 1]);
      RunKeepsMarketGood(events[..n - 1]);
      if Refusal(events[n - 1].msg) == None {
        AcceptAccounts(events);
      } else {
        RefuseAccounts(events);
      }
    }
  }

  /** Reports on ids outside the ledger disturb no account. */
  lemma {:induction false} MarketUntouched(market: Market, reports: seq<Report>, after: seq<Report>, ledger: Ledger)
    requires Accounted(market, reports, ledger)
    requires forall x :: x in ledger ==> LifeOf(after, x) == LifeOf(reports, x)
    ensures Accounted(market, after, ledger)
  {
    forall i | 0 <= i < INSTRUMENTS
      ensures QueueRests(market[i].bids, after, ledger) && QueueRests(market[i].asks, after, ledger)
    {
      RestingInLedger(market[i].bids, reports, ledger);
      RestingInLedger(market[i].asks, reports, ledger);
      QueueUntouched(market[i].bids, reports, after, ledger);
      QueueUntouched(market[i].asks, reports, after, ledger);
    }
    forall oid | oid in ledger
      ensures QueuedOrClosed(market, after, ledger, oid)
    {
      assert QueuedOrClosed(market, reports, ledger, oid);
    }
  }

  lemma RestingInLedger(q: seq<Order>, reports: seq<Report>, ledger: Ledger)
    requires QueueRests(q, reports, ledger)
    ensures Oids(q) <= ledger.Keys
  {
    assert forall i :: 0 <= i < |q| ==> Rests(q[i], reports, ledger);
  }

  /** A new ledger entry disturbs no account of the old ones. */
  lemma {:induction false} LedgerGrows(q: seq<Order>, reports: seq<Report>, ledger: Ledger, o: Order)
    requires QueueRests(q, reports, ledger) && o.oid !in ledger
    ensures QueueRests(q, reports, ledger[o.oid := o])
  {
    forall i | 0 <= i < |q|
      ensures Rests(q[i], reports, ledger[o.oid := o])
    {
      assert Rests(q[i], reports, ledger);
    }
  }

  lemma {:induction false} RefuseAccounts(events: seq<Event>)
    requires events != [] && Refusal(events[|events| - 1].msg).Some?
    requires var o := Run(events[..|events| - 1]);
             && Accounted(o.state.market, o.reports, LedgerOf(events[..|events| - 1]))
             && IdsUsed(events[..|events| - 1], o.reports) && o.state.nextOid == |events|
    ensures var o := Run(events);
            Accounted(o.state.market, o.reports, LedgerOf(events)) && IdsUsed(events, o.reports)
  {
    var n := |events|;
    var before, after := Run(events[..n - 1]), Run(events);
    var r := RejectReport(events[n - 1].msg, OrderId(n), events[n - 1].timestamp);
    forall x
      ensures LifeOf(after.reports, x) ==
              if x == OrderId(n) then Advance(LifeOf(before.reports, x), r) else LifeOf(before.reports, x)
    {
      LifeAfterOne(before.reports, r, x);
    }
    LedgerEntries(events, n);
    MarketUntouched(before.state.market, before.reports, after.reports, LedgerOf(events));
    forall k: nat
      ensures (k == 0 || k > n ==> LifeOf(after.reports, OrderId(k)) == Fresh)
      ensures 1 <= k <= n && Refusal(events[k - 1].msg).Some? ==> LifeOf(after.reports, OrderId(k)) == Refused
    {
      if OrderId(k) == OrderId(n) {
        OrderIdInjective(k, n);
      }
    }
  }

  /** What the last message does to the run when it is accepted. */
  lemma {:induction false} RunAccepts(events: seq<Event>)
    requires events != [] && Refusal(events[|events| - 1].msg) == None
    requires Run(events[..|events| - 1]).state.nextOid == |events|
    ensures var n, before := |events|, Run(events[..|events| - 1]);
            var order := Submitted(events, n);
            var i := Index(order.instrument);
            var p := Process(before.state.market[i], order, events[n - 1].timestamp);
            && Run(events).reports == before.reports + p.reports
            && Run(events).state.market == before.state.market[i := p.books]
            && order.oid == OrderId(n) && order.quantity > 0
            && LedgerOf(events) == LedgerOf(events[..n - 1])[order.oid := order]
  {
    hide Process, OrderId;
  }

  lemma {:induction false} AcceptAccounts(events: seq<Event>)
    requires events != [] && Refusal(events[|events| - 1].msg) == None
    requires var o := Run(events[..|events| - 1]);
             && Accounted(o.state.market, o.reports, LedgerOf(events[..|events| - 1]))
             && IdsUsed(events[..|events| - 1], o.reports) && o.state.nextOid == |events|
             && GoodMarket(o.state.market)
    ensures var o := Run(events);
            Accounted(o.state.market, o.reports, LedgerOf(events)) && IdsUsed(events, o.reports)
  {
    hide LifeOf, Accounted, GoodMarket, Process, Refusal, AcceptedOrder, OrderId, Run, LedgerOf, Submitted;
    RunAccepts(events);
    var n := |events|;
    var before, after, ledger := Run(events[..n - 1]), Run(events), LedgerOf(events[..n - 1]);
    var order := Submitted(events, n);
    LedgerEntries(events[..n - 1], n);
    MarketAccepts(before.state.market, order, events[n - 1].timestamp, before.reports, ledger);
    forall k: nat
      ensures (k == 0 || k > n ==> LifeOf(after.reports, OrderId(k)) == Fresh)
      ensures 1 <= k <= n && Refusal(events[k - 1].msg).Some? ==> LifeOf(after.reports, OrderId(k)) == Refused
    {
      if OrderId(k) == OrderId(n) {
        OrderIdInjective(k, n);
      }
    }
  }

  /** Accepting one order, seen from the whole market. */
  lemma {:induction false} MarketAccepts(market: Market, order: Order, ts: string, reports: seq<Report>, ledger: Ledger)
    requires GoodMarket(market) && Accounted(market, reports, ledger)
    requires order.oid !in ledger && LifeOf(reports, order.oid) == Fresh && order.quantity > 0
    ensures var i := Index(order.instrument);
            var p := Process(market[i], order, ts);
            var after := reports + p.reports;
            && Accounted(market[i := p.books], after, ledger[order.oid := order])
            && forall x :: x != order.oid && (LifeOf(reports, x) == Fresh || LifeOf(reports, x) == Refused) ==>
                 LifeOf(after, x) == LifeOf(reports, x)
  {
    hide Process, QueueRests, Settled, Rests, GoodQueue, Uncrossed, LifeOf;
    var i := Index(order.instrument);
    var ledger' := ledger[order.oid := order];
    var p := Process(market[i], order, ts);
    var after := reports + p.reports;
    var opp, opp' := market[i].Queue(Opposite(order.side)), p.books.Queue(Opposite(order.side));
    forall j | 0 <= j < INSTRUMENTS
      ensures QueueRests(market[j].bids, reports, ledger') && QueueRests(market[j].asks, reports, ledger')
    {
      LedgerGrows(market[j].bids, reports, ledger, order);
      LedgerGrows(market[j].asks, reports, ledger, order);
    }
    ProcessAccounts(market[i], order, ts, reports, ledger');
    ClosedUndisturbed(order.oid, opp, opp', reports, after, ledger');
    OthersAccepted(market, order, reports, after, opp', ledger');
    var market' := market[i := p.books];
    forall j | 0 <= j < INSTRUMENTS
      ensures QueueRests(market'[j].bids, after, ledger') && QueueRests(market'[j].asks, after, ledger')
    {
      assert j != i ==> market'[j] == market[j];
    }
    forall x | x in ledger'
      ensures QueuedOrClosed(market', after, ledger', x)
    {
      if x != order.oid {
        assert QueuedOrClosed(market, reports, ledger, x);
        AcceptKeepsQueued(market, p.books, order, reports, after, ledger', x);
      }
    }
  }

  /** Ids that rest in no queue are not reported on by a sweep of `q`. */
  lemma ClosedUndisturbed(oid: string, q: seq<Order>, q': seq<Order>, reports: seq<Report>, after: seq<Report>,
                          ledger: Ledger)
    requires QueueRests(q, reports, ledger) && Settled(oid, q, q', reports, after, ledger)
    ensures forall x :: x != oid && (LifeOf(reports, x) == Fresh || LifeOf(reports, x) == Refused) ==>
              LifeOf(after, x) == LifeOf(reports, x)
  {
    hide LifeOf;
    assert forall k :: 0 <= k < |q| ==> Rests(q[k], reports, ledger);
  }

  /** An older order is still queued or closed after `order` was processed into `books`. */
  lemma {:induction false} AcceptKeepsQueued(
      market: Market, books: Books, order: Order, reports: seq<Report>, after: seq<Report>, ledger: Ledger, x: string)
    requires GoodMarket(market) && MarketRests(market, reports, ledger)
    requires x in ledger && x != order.oid && QueuedOrClosed(market, reports, ledger, x)
    requires Settled(order.oid, market[Index(order.instrument)].Queue(Opposite(order.side)),
                     books.Queue(Opposite(order.side)), reports, after, ledger)
    requires Oids(market[Index(order.instrument)].Queue(order.side)) <= Oids(books.Queue(order.side))
    ensures QueuedOrClosed(market[Index(order.instrument) := books], after, ledger, x)
  {
    var opp := market[Index(order.instrument)].Queue(Opposite(order.side));
    assert GoodBooks(order.instrument, market[Index(order.instrument)]);
    OidsAreFiled(opp, order.instrument, Opposite(order.side), reports, ledger);
    IndexInjective(ledger[x].instrument, order.instrument);
    if LifeOf(reports, x).Closed? {
      assert forall k :: 0 <= k < |opp| ==> Rests(opp[k], reports, ledger);
    }
  }

  lemma IndexInjective(a: Instrument, b: Instrument)
    ensures Index(a) == Index(b) ==> a == b
  {
  }

  lemma InstrumentAt(j: nat) returns (instrument: Instrument)
    requires j < INSTRUMENTS
    ensures Index(instrument) == j
  {
    instrument := if j == 0 then Rose else if j == 1 then Lavender else if j == 2 then Lotus
                  else if j == 3 then Tulip else Orchid;
  }

  /** The other instruments' queues are not reported on. */
  lemma {:induction false} OthersAccepted(market: Market, order: Order, reports: seq<Report>, after: seq<Report>,
                                          opp': seq<Order>,
                       ledger: Ledger)
    requires GoodMarket(market) && MarketRests(market, reports, ledger)
    requires LifeOf(reports, order.oid) == Fresh
    requires Settled(order.oid, market[Index(order.instrument)].Queue(Opposite(order.side)), opp',
                     reports, after, ledger)
    ensures forall j :: 0 <= j < INSTRUMENTS && j != Index(order.instrument) ==>
              QueueRests(market[j].bids, after, ledger) && QueueRests(market[j].asks, after, ledger)
  {
    var i := Index(order.instrument);
    var opp := market[i].Queue(Opposite(order.side));
    assert GoodBooks(order.instrument, market[i]);
    forall j | 0 <= j < INSTRUMENTS && j != i
      ensures QueueRests(market[j].bids, after, ledger) && QueueRests(market[j].asks, after, ledger)
    {
      var instrument := InstrumentAt(j);
      assert GoodBooks(instrument, market[Index(instrument)]);
      OtherQueueAccepted(market[j].bids, instrument, Buy, opp, order, opp', reports, after, ledger);
      OtherQueueAccepted(market[j].asks, instrument, Sell, opp, order, opp', reports, after, ledger);
    }
  }

  lemma OtherQueueAccepted(q: seq<Order>, instrument: Instrument, side: Side, opp: seq<Order>, order: Order,
                           opp': seq<Order>, reports: seq<Report>, after: seq<Report>, ledger: Ledger)
    requires GoodQueue(instrument, side, q) && QueueRests(q, reports, ledger) && instrument != order.instrument
    requires GoodQueue(order.instrument, Opposite(order.side), opp) && QueueRests(opp, reports, ledger)
    requires LifeOf(reports, order.oid) == Fresh && Settled(order.oid, opp, opp', reports, after, ledger)
    ensures QueueRests(q, after, ledger)
  {
    QueuesDisjoint(q, instrument, side, opp, order.instrument, Opposite(order.side), reports, ledger);
    FreshNotResting(order.oid, q, reports, ledger);
    QueueUntouched(q, reports, after, ledger);
  }

  // ----- the theorem, order by order -----

  /** Order `k` was refused: one Reject, no trade, nothing resting. */
  ghost predicate IsRefused(events: seq<Event>, k: nat) {
    var reports := Run(events).reports;
    && Statuses(reports, OrderId(k)) == [Rejected] && TradedQuantity(reports, OrderId(k)) == 0
    && !IsQueued(Run(events).state.market, OrderId(k))
  }

  /** Order `k` traded its whole quantity, ended with its only Fill and rests nowhere. */
  ghost predicate IsFilled(events: seq<Event>, k: nat, order: Order) {
    var reports := Run(events).reports;
    && ClosedWord(Statuses(reports, OrderId(k))) && TradedQuantity(reports, OrderId(k)) == order.quantity
    && !IsQueued(Run(events).state.market, OrderId(k))
  }

  /** Order `k` rests at one place, its own, with exactly what it has not traded; it was never reported Fill. */
  ghost predicate IsResting(events: seq<Event>, k: nat, order: Order) {
    var reports, market := Run(events).reports, Run(events).state.market;
    var own := market[Index(order.instrument)].Queue(order.side);
    var w := Statuses(reports, OrderId(k));
    && w != [] && OpenWord(w)
    && (exists i :: 0 <= i < |own| && RestsAt(market, own, i, order, TradedQuantity(reports, OrderId(k))))
  }

  ghost predicate RestsAt(market: Market, own: seq<Order>, i: nat, order: Order, traded: nat)
    requires i < |own|
  {
    && traded < order.quantity && own[i] == Reduce(order, traded)
    && (forall j :: 0 <= j < |own| && own[j].oid == order.oid ==> j == i)
    && (forall instrument, side :: order.oid in Oids(market[Index(instrument)].Queue(side)) ==>
          instrument == order.instrument && side == order.side)
  }

  ghost predicate IsQueued(market: Market, oid: string) {
    exists instrument, side :: oid in Oids(market[Index(instrument)].Queue(side))
  }

  lemma SubmittedId(events: seq<Event>, k: nat)
    requires 1 <= k <= |events| && Refusal(events[k - 1].msg) == None
    ensures Submitted(events, k).oid == OrderId(k)
  {
  }

  lemma {:induction false} RefusedLifecycle(events: seq<Event>, k: nat)
    requires 1 <= k <= |events| && Refusal(events[k - 1].msg).Some?
    ensures IsRefused(events, k)
  {
    hide Run, Refusal, LedgerOf, LifeOf, Statuses, TradedQuantity, OrderId, MarketRests, IsQueued, QueuedOrClosed;
    var o := Run(events);
    RunAccounts(events);
    LifeIsWord(o.reports, OrderId(k));
    ClosedNotQueued(o.state.market, o.reports, LedgerOf(events), OrderId(k));
  }

  lemma {:induction false} AcceptedLifecycle(events: seq<Event>, k: nat)
    requires 1 <= k <= |events| && Refusal(events[k - 1].msg) == None
    ensures IsFilled(events, k, Submitted(events, k)) <==> !IsResting(events, k, Submitted(events, k))
  {
    hide Run, Refusal, LedgerOf, Submitted, LifeOf, Statuses, TradedQuantity, OrderId, MarketRests, GoodMarket,
         LegalBooks, MarketInArrivalOrder, RestsAt, Reduce, IdsUsed, OpenWord, ClosedWord;
    var o, ledger, oid, order := Run(events), LedgerOf(events), OrderId(k), Submitted(events, k);
    var own := o.state.market[Index(order.instrument)].Queue(order.side);
    RunAccounts(events);
    RunKeepsMarketGood(events);
    LifeIsWord(o.reports, oid);
    LedgerEntries(events, k);
    SubmittedId(events, k);
    assert QueuedOrClosed(o.state.market, o.reports, ledger, oid);
    if oid in Oids(own) {
      OpenIsResting(o.state.market, o.reports, ledger, order);
      assert IsQueued(o.state.market, oid);
    } else {
      ClosedNotQueued(o.state.market, o.reports, ledger, oid);
      assert !IsResting(events, k, order) by {
        RestingIsQueued(o.state.market, order);
      }
    }
  }

  lemma RestingIsQueued(market: Market, order: Order)
    ensures var own := market[Index(order.instrument)].Queue(order.side);
            forall i, traded :: 0 <= i < |own| && RestsAt(market, own, i, order, traded) ==> order.oid in Oids(own)
  {
  }

  /**
   Lifecycle and conservation, for every order of every run. The k-th message is refused once and for all,
   or its order has reported a word New? Pfill* Fill? whose trades and what still rests add up to the
   submitted quantity; Fill appears exactly when nothing is left, and an open order rests in one place.
   */
  lemma OrderLifecycle(events: seq<Event>, k: nat)
    requires 1 <= k <= |events|
    ensures Refusal(events[k - 1].msg).Some? ==> IsRefused(events, k)
    ensures Refusal(events[k - 1].msg) == None ==>
              (IsFilled(events, k, Submitted(events, k)) <==> !IsResting(events, k, Submitted(events, k)))
  {
    hide Refusal, IsRefused, IsFilled, IsResting, Submitted;
    if Refusal(events[k - 1].msg).Some? {
      RefusedLifecycle(events, k);
    } else {
      AcceptedLifecycle(events, k);
    }
  }

  lemma {:induction false} StatusesTwice(reports: seq<Report>, oid: string, i: nat, j: nat)
    requires i < j < |reports| && reports[i].oid == oid && reports[j].oid == oid
    ensures |Statuses(reports, oid)| >= 2
  {
    var n := |reports| - 1;
    if j < n {
      StatusesTwice(reports[..n], oid, i, j);
    } else {
      StatusesOnce(reports[..n], oid, i);
    }
  }

  lemma {:induction false} StatusesOnce(reports: seq<Report>, oid: string, i: nat)
    requires i < |reports| && reports[i].oid == oid
    ensures |Statuses(reports, oid)| >= 1
  {
    var n := |reports| - 1;
    if i < n {
      StatusesOnce(reports[..n], oid, i);
    }
  }

  /** What the row of a refused message says: its own number, and the client's own words. */
  ghost predicate RefusesRow(row: Outbound, e: Event, k: nat)
    requires Refusal(e.msg).Some?
  {
    && row.oid == OrderId(k) && row.coid == e.msg.coid && row.instrument == e.msg.instrument && row.side == e.msg.side
    && row.status == "Reject" && row.reason == Refusal(e.msg).value && row.priceText == SignedPriceText(e.msg.price)
    && row.timestamp == e.timestamp && row.sequence == e.msg.sequence
    && row.quantity == (if e.msg.quantity > 0 then e.msg.quantity else 0) % 65536
  }

  lemma RejectRow(m: Message, k: nat, ts: string)
    requires Refusal(m).Some?
    ensures var rows := PublishAll(m, [RejectReport(m, OrderId(k), ts)]);
            |rows| == 1 && RefusesRow(rows[0], Event(m, ts), k)
  {
    hide Refusal, OrderId, SignedPriceText;
  }

  /** In any run a refused message is answered by exactly one row, which repeats what the client sent. */
  lemma RefusedRow(events: seq<Event>, k: nat) returns (i: nat)
    requires 1 <= k <= |events| && Refusal(events[k - 1].msg).Some?
    ensures var out := Run(events).out;
            && i < |out| && RefusesRow(out[i], events[k - 1], k)
            && forall j :: 0 <= j < |out| && out[j].oid == OrderId(k) ==> j == i
  {
    hide Run, Refusal, RefusesRow, Handle, Statuses, LegalBooks, MarketInArrivalOrder;
    var prior, e := events[..k - 1], events[k - 1];
    assert events[..k] == prior + [e];
    RunNext(prior, e);
    RunKeepsMarketGood(prior);
    HandleRefused(Run(prior).state, e);
    RejectRow(e.msg, k, e.timestamp);
    RunOutGrows(events, k);
    i := |Run(prior).out|;
    assert Run(events).out[i] == Run(events[..k]).out[i];
    assert e == Event(e.msg, e.timestamp);
    RefusedLifecycle(events, k);
    RunPublishes(events);
    RefusedOnce(events, k, i);
  }

  lemma RefusedOnce(events: seq<Event>, k: nat, i: nat)
    requires |Run(events).out| == |Run(events).reports| && i < |Run(events).out|
    requires forall j :: 0 <= j < |Run(events).out| ==> Run(events).out[j].oid == Run(events).reports[j].oid
    requires Run(events).out[i].oid == OrderId(k) && |Statuses(Run(events).reports, OrderId(k))| == 1
    ensures forall j :: 0 <= j < |Run(events).out| && Run(events).out[j].oid == OrderId(k) ==> j == i
  {
    hide Run, Statuses, OrderId;
    forall j | 0 <= j < |Run(events).out| && Run(events).out[j].oid == OrderId(k)
      ensures j == i
    {
      if i < j {
        StatusesTwice(Run(events).reports, OrderId(k), i, j);
      } else if j < i {
        StatusesTwice(Run(events).reports, OrderId(k), j, i);
      }
    }
  }

  lemma ClosedNotQueued(market: Market, reports: seq<Report>, ledger: Ledger, oid: string)
    requires MarketRests(market, reports, ledger) && !LifeOf(reports, oid).Open?
    ensures !IsQueued(market, oid)
  {
    forall instrument, side
      ensures oid !in Oids(market[Index(instrument)].Queue(side))
    {
      var q := market[Index(instrument)].Queue(side);
      assert forall i :: 0 <= i < |q| ==> Rests(q[i], reports, ledger);
    }
  }

  lemma OpenIsResting(market: Market, reports: seq<Report>, ledger: Ledger, order: Order)
    requires GoodMarket(market) && MarketRests(market, reports, ledger)
    requires order.oid in ledger && ledger[order.oid] == order
    requires order.oid in Oids(market[Index(order.instrument)].Queue(order.side))
    ensures LifeOf(reports, order.oid).Open?
    ensures var own := market[Index(order.instrument)].Queue(order.side);
            exists i :: 0 <= i < |own| && RestsAt(market, own, i, order, LifeOf(reports, order.oid).traded)
  {
    var own := market[Index(order.instrument)].Queue(order.side);
    var i :| 0 <= i < |own| && own[i].oid == order.oid;
    assert Rests(own[i], reports, ledger);
    forall instrument, side | order.oid in Oids(market[Index(instrument)].Queue(side))
      ensures instrument == order.instrument && side == order.side
    {
      assert GoodBooks(instrument, market[Index(instrument)]);
      OidsAreFiled(market[Index(instrument)].Queue(side), instrument, side, reports, ledger);
    }
    assert RestsAt(market, own, i, order, LifeOf(reports, order.oid).traded);
  }

  // ----- New, and the two sides of every trade -----

  lemma {:induction false} StatusesAppend(reports: seq<Report>, more: seq<Report>, oid: string)
    ensures Statuses(reports + more, oid) == Statuses(reports, oid) + Statuses(more, oid)
  {
    if more == [] {
      assert reports + more == reports;
    } else {
      var n := |more| - 1;
      StatusesAppend(reports, more[..n], oid);
      assert (reports + more)[..|reports + more| - 1] == reports + more[..n];
    }
  }

  lemma {:induction false} RunReportsGrow(events: seq<Event>, k: nat)
    requires k <= |events|
    ensures Run(events[..k]).reports <= Run(events).reports
  {
    if k < |events| {
      RunReportsGrow(events[..|events| - 1], k);
      assert events[..|events| - 1][..k] == events[..k];
    } else {
      assert events[..k] == events;
    }
  }

  /** The first report on order `k`, in the whole run, is the first one its own arrival caused. */
  lemma {:induction false} FirstStatus(events: seq<Event>, k: nat)
    requires 1 <= k <= |events| && Refusal(events[k - 1].msg) == None
    ensures var step := Handle(Run(events[..k - 1]).state, events[k - 1]).reports;
            var w := Statuses(Run(events).reports, OrderId(k));
            step != [] && w != [] && w[0] == step[0].status
  {
    var upto, prior := events[..k], Run(events[..k - 1]);
    assert upto[..|upto| - 1] == events[..k - 1];
    var step := Handle(prior.state, events[k - 1]).reports;
    FreshOnArrival(events, k);
    FirstReportIsOwn(prior.state.market[Index(Submitted(events, k).instrument)], Submitted(events, k),
                     events[k - 1].timestamp);
    assert Run(upto).reports == prior.reports + step;
    RunReportsGrow(events, k);
    FirstStatusIn(prior.reports, step, Run(events).reports, OrderId(k));
  }

  lemma FirstStatusIn(prior: seq<Report>, step: seq<Report>, all: seq<Report>, oid: string)
    requires Statuses(prior, oid) == [] && step != [] && step[0].oid == oid && prior + step <= all
    ensures Statuses(all, oid) != [] && Statuses(all, oid)[0] == step[0].status
  {
    var later := all[|prior + step|..];
    assert all == prior + step + later;
    StatusesOfFirst(step, oid);
    StatusesAppend(prior, step, oid);
    StatusesAppend(prior + step, later, oid);
  }

  lemma FreshOnArrival(events: seq<Event>, k: nat)
    requires 1 <= k <= |events|
    ensures Run(events[..k - 1]).state.nextOid == k
    ensures Statuses(Run(events[..k - 1]).reports, OrderId(k)) == []
  {
    var before := events[..k - 1];
    RunAccounts(before);
    RunKeepsMarketGood(before);
    LifeIsWord(Run(before).reports, OrderId(k));
  }

  /**
   New is reported exactly for the orders that met nothing to trade with on arrival: every ask was dearer than
   the bid, or every bid cheaper than the ask.
   */
  lemma NewIffUnmatched(events: seq<Event>, k: nat)
    requires 1 <= k <= |events| && Refusal(events[k - 1].msg) == None
    ensures var order, m := Submitted(events, k), events[k - 1].msg;
            var book := Run(events[..k - 1]).state.market[Index(order.instrument)];
            && AsksFor(m, order)
            && (New in Statuses(Run(events).reports, OrderId(k)) <==>
                if m.side == 1 then forall i :: 0 <= i < |book.asks| ==> book.asks[i].price > order.price
                else forall i :: 0 <= i < |book.bids| ==> book.bids[i].price < order.price)
  {
    hide Run, Statuses, OrderId, AcceptedOrder, Refusal, Handle, Process, IsNamed, IsNearestTick, IsFilled, IsResting,
         LegalBooks, MarketInArrivalOrder, Uncrossed, CanTrade;
    var order, prior := Submitted(events, k), Run(events[..k - 1]).state;
    var book := prior.market[Index(order.instrument)];
    AdmittedAs(events[k - 1].msg, OrderId(k));
    RunKeepsMarketGood(events[..k - 1]);
    assert GoodBooks(order.instrument, book);
    FirstStatus(events, k);
    FreshOnArrival(events, k);
    HandleAccepted(prior, events[k - 1]);
    FirstReportIsOwn(book, order, events[k - 1].timestamp);
    UnmatchedBeyond(order, book.Queue(Opposite(order.side)));
    AcceptedWord(events, k);
    OnlyFirstIsNew(Statuses(Run(events).reports, OrderId(k)));
  }

  lemma AcceptedWord(events: seq<Event>, k: nat)
    requires 1 <= k <= |events| && Refusal(events[k - 1].msg) == None
    ensures OpenWord(Statuses(Run(events).reports, OrderId(k))) || ClosedWord(Statuses(Run(events).reports, OrderId(k)))
  {
    hide Run, Statuses, TradedQuantity, OrderId, Refusal, OpenWord, ClosedWord, RestsAt, IsQueued;
    OrderLifecycle(events, k);
  }

  /** A sorted queue offers an order nothing exactly if every price in it lies beyond the order's limit. */
  lemma UnmatchedBeyond(order: Order, opp: seq<Order>)
    requires order.quantity > 0 && Sorted(Opposite(order.side), opp)
    ensures !CanTrade(order, opp) <==>
            forall i :: 0 <= i < |opp| ==>
              if order.side == Buy then opp[i].price > order.price else opp[i].price < order.price
  {
  }

  lemma OnlyFirstIsNew(w: seq<ExecStatus>)
    requires w != [] && (OpenWord(w) || ClosedWord(w))
    ensures New in w <==> w[0] == New
  {
    if ClosedWord(w) {
      var v := w[..|w| - 1];
      assert w == v + [Fill];
    }
  }

  lemma FirstReportIsOwn(b: Books, inc: Order, ts: string)
    requires inc.quantity > 0
    ensures var r := Process(b, inc, ts).reports;
            r != [] && r[0].oid == inc.oid
            && (r[0].status == New <==> !CanTrade(inc, b.Queue(Opposite(inc.side))))
  {
  }

  lemma {:induction false} StatusesOfFirst(reports: seq<Report>, oid: string)
    requires reports != [] && reports[0].oid == oid
    ensures Statuses(reports, oid) != [] && Statuses(reports, oid)[0] == reports[0].status
  {
    if |reports| > 1 {
      StatusesOfFirst(reports[..|reports| - 1], oid);
    } else {
      assert reports[..0] == [];
    }
  }

  /** Total quantity traded on one side of one instrument at one price. */
  function Volume(reports: seq<Report>, instrument: Instrument, side: Side, price: nat): nat {
    if reports == [] then 0
    else
      var last := reports[|reports| - 1];
      Volume(reports[..|reports| - 1], instrument, side, price)
      + if (last.status == PFill || last.status == Fill) && last.instrument == Some(instrument)
           && last.side == side && last.price == price
        then last.quantity else 0
  }

  lemma {:induction false} VolumeAppend(a: seq<Report>, b: seq<Report>, instrument: Instrument, side: Side, price: nat)
    ensures Volume(a + b, instrument, side, price)
            == Volume(a, instrument, side, price) + Volume(b, instrument, side, price)
  {
    if b == [] {
      assert a + b == a;
    } else {
      var n := |b| - 1;
      VolumeAppend(a, b[..n], instrument, side, price);
      assert (a + b)[..|a + b| - 1] == a + b[..n];
    }
  }

  lemma {:induction false} SweepBalances(inc: Order, opp: seq<Order>, ts: string, instrument: Instrument, price: nat)
    requires GoodQueue(inc.instrument, Opposite(inc.side), opp)
    ensures var r := Sweep(inc, opp, ts).reports;
            Volume(r, instrument, Buy, price) == Volume(r, instrument, Sell, price)
    decreases |opp| + inc.quantity
  {
    if CanTrade(inc, opp) {
      var first := TradeStep(inc, opp, ts);
      SortedTail(Opposite(inc.side), opp, first.opp);
      SweepBalances(first.inc, first.opp, ts, instrument, price);
      TradeBalances(inc, opp, ts, instrument, price);
      var rest := Sweep(first.inc, first.opp, ts).reports;
      VolumeAppend(first.reports, rest, instrument, Buy, price);
      VolumeAppend(first.reports, rest, instrument, Sell, price);
    }
  }

  /** A trade is reported once for each side, with the same quantity and price. */
  lemma TradeBalances(inc: Order, opp: seq<Order>, ts: string, instrument: Instrument, price: nat)
    requires CanTrade(inc, opp) && Resting(inc.instrument, Opposite(inc.side), opp[0])
    ensures var r := TradeStep(inc, opp, ts).reports;
            Volume(r, instrument, Buy, price) == Volume(r, instrument, Sell, price)
  {
    var r := TradeStep(inc, opp, ts).reports;
    VolumeOfPair(r[0], r[1], instrument, Buy, price);
    VolumeOfPair(r[0], r[1], instrument, Sell, price);
  }

  lemma VolumeOfPair(a: Report, b: Report, instrument: Instrument, side: Side, price: nat)
    ensures Volume([a, b], instrument, side, price)
            == Volume([a], instrument, side, price) + Volume([b], instrument, side, price)
  {
    assert [a, b] == [a] + [b];
    VolumeAppend([a], [b], instrument, side, price);
  }

  /** Over any run, what was bought of an instrument at a price is what was sold of it at that price. */
  lemma {:induction false} BoughtEqualsSold(events: seq<Event>, instrument: Instrument, price: nat)
    ensures var r := Run(events).reports;
            Volume(r, instrument, Buy, price) == Volume(r, instrument, Sell, price)
  {
    if events != [] {
      var n := |events| - 1;
      var before, e := Run(events[..n]), events[n];
      BoughtEqualsSold(events[..n], instrument, price);
      RunKeepsMarketGood(events[..n]);
      var step := Handle(before.state, e).reports;
      HandleBalances(before.state, e, instrument, price);
      VolumeAppend(before.reports, step, instrument, Buy, price);
      VolumeAppend(before.reports, step, instrument, Sell, price);
    }
  }

  lemma HandleBalances(s: State, e: Event, instrument: Instrument, price: nat)
    requires GoodMarket(s.market)
    ensures var r := Handle(s, e).reports;
            Volume(r, instrument, Buy, price) == Volume(r, instrument, Sell, price)
  {
    hide Process, Volume, GoodBooks, Refusal, AcceptedOrder, OrderId, RejectReport, Publish, PublishAll;
    if Refusal(e.msg) == None {
      var order := AcceptedOrder(e.msg, OrderId(s.nextOid));
      ProcessBalances(s.market[Index(order.instrument)], order, e.timestamp, instrument, price);
    } else {
      RejectBalances(e.msg, OrderId(s.nextOid), e.timestamp, instrument, price);
    }
  }

  lemma RejectBalances(m: Message, oid: string, ts: string, instrument: Instrument, price: nat)
    requires Refusal(m).Some?
    ensures var r := [RejectReport(m, oid, ts)];
            Volume(r, instrument, Buy, price) == Volume(r, instrument, Sell, price)
  {
    hide Refusal;
  }

  lemma ProcessBalances(b: Books, order: Order, ts: string, instrument: Instrument, price: nat)
    requires GoodBooks(order.instrument, b)
    ensures var r := Process(b, order, ts).reports;
            Volume(r, instrument, Buy, price) == Volume(r, instrument, Sell, price)
  {
    hide Sweep, Enqueue;
    var opp := b.Queue(Opposite(order.side));
    var swept := Sweep(order, opp, ts);
    SweepBalances(order, opp, ts, instrument, price);
    if swept.inc.quantity > 0 && swept.reports == [] {
      assert Process(b, order, ts).reports == [NewReport(swept.inc, ts)];
    } else {
      assert Process(b, order, ts).reports == swept.reports;
    }
  }
}
