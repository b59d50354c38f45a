/** What every report and every row of a run says, in the terms of the messages that the clients sent. */
module ReportMeaning {
  import opened Types
  import opened Matching
  import opened Exchange
  import opened Accounting

  // ----- reports against the ledger -----

  /** `r` reports on order `o`, as submitted, and stays on the right side of its limit. */
  ghost predicate Fits(r: Report, o: Order) {
    && r.coid == o.coid && r.instrument == Some(o.instrument) && r.side == o.side && r.reason == ""
    && 0 < r.quantity <= o.quantity
    && (if r.status == New then r.price == o.price && r.quantity == o.quantity
        else if o.side == Buy then r.price <= o.price
        else r.price >= o.price)
  }

  ghost predicate FitLedger(reports: seq<Report>, ledger: Ledger) {
    forall i :: 0 <= i < |reports| && reports[i].status != Rejected ==>
      reports[i].oid in ledger && Fits(reports[i], ledger[reports[i].oid])
  }

  ghost predicate QueueEntered(q: seq<Order>, side: Side, ledger: Ledger) {
    forall i :: 0 <= i < |q| ==> Entered(q[i], ledger) && q[i].side == side && q[i].quantity > 0
  }

  lemma TradeFits(inc: Order, opp: seq<Order>, ts: string, ledger: Ledger)
    requires CanTrade(inc, opp) && Entered(inc, ledger) && QueueEntered(opp, Opposite(inc.side), ledger)
    ensures var first := TradeStep(inc, opp, ts);
            && FitLedger(first.reports, ledger) && Entered(first.inc, ledger) && first.inc.side == inc.side
            && QueueEntered(first.opp, Opposite(inc.side), ledger)
  {
    var first := TradeStep(inc, opp, ts);
    assert Entered(opp[0], ledger);
    forall i | 0 <= i < |first.opp|
      ensures Entered(first.opp[i], ledger) && first.opp[i].side == Opposite(inc.side) && first.opp[i].quantity > 0
    {
      assert Entered(opp[i + |opp| - |first.opp|], ledger);
    }
  }

  lemma {:induction false} SweepFits(inc: Order, opp: seq<Order>, ts: string, ledger: Ledger)
    requires Entered(inc, ledger) && QueueEntered(opp, Opposite(inc.side), ledger)
    ensures FitLedger(Sweep(inc, opp, ts).reports, ledger)
    decreases |opp| + inc.quantity
  {
    hide FitLedger, QueueEntered, Entered, Crosses;
    if CanTrade(inc, opp) {
      var first := TradeStep(inc, opp, ts);
      TradeFits(inc, opp, ts, ledger);
      SweepFits(first.inc, first.opp, ts, ledger);
      FitAppend(first.reports, Sweep(first.inc, first.opp, ts).reports, ledger);
    } else {
      FitNone(ledger);
    }
  }

  lemma FitAppend(a: seq<Report>, b: seq<Report>, ledger: Ledger)
    requires FitLedger(a, ledger) && FitLedger(b, ledger)
    ensures FitLedger(a + b, ledger)
  {
    hide Fits;
  }

  lemma FitNone(ledger: Ledger)
    ensures FitLedger([], ledger)
  {
  }

  lemma ProcessFits(b: Books, inc: Order, ts: string, reports: seq<Report>, ledger: Ledger)
    requires GoodBooks(inc.instrument, b) && inc.quantity > 0 && inc.oid !in ledger
    requires QueueRests(b.Queue(Opposite(inc.side)), reports, ledger)
    ensures FitLedger(Process(b, inc, ts).reports, ledger[inc.oid := inc])
  {
    hide Sweep, Enqueue, LifeOf, Sorted, Uncrossed;
    var opp, ledger' := b.Queue(Opposite(inc.side)), ledger[inc.oid := inc];
    forall i | 0 <= i < |opp|
      ensures Entered(opp[i], ledger') && opp[i].side == Opposite(inc.side) && opp[i].quantity > 0
    {
      assert Rests(opp[i], reports, ledger) && Resting(inc.instrument, Opposite(inc.side), opp[i]);
    }
    SweepFits(inc, opp, ts, ledger');
    SweepGood(inc, opp, ts);
  }

  /** Every report of a run but the rejects fits an order of the ledger. */
  lemma {:induction false} RunFits(events: seq<Event>)
    ensures FitLedger(Run(events).reports, LedgerOf(events))
  {
    hide Process, Fits, QueueRests, GoodBooks, LegalBooks, MarketInArrivalOrder, IdsUsed, QueuedOrClosed, OrderId,
         AcceptedOrder, RejectReport, Refusal, PublishAll;
    if events != [] {
      var n := |events|;
      var prior, before := events[..n - 1], Run(events[..n - 1]);
      RunFits(prior);
      RunAccounts(prior);
      RunKeepsMarketGood(prior);
      if Refusal(events[n - 1].msg) == None {
        RunAccepts(events);
        LedgerEntries(prior, n);
        var order := Submitted(events, n);
        ProcessFits(before.state.market[Index(order.instrument)], order, events[n - 1].timestamp,
                    before.reports, LedgerOf(prior));
      } else {
        RejectIsReject(events[n - 1].msg, OrderId(n), events[n - 1].timestamp);
      }
    }
  }

  lemma RejectIsReject(m: Message, oid: string, ts: string)
    requires Refusal(m).Some?
    ensures RejectReport(m, oid, ts).status == Rejected && RejectReport(m, oid, ts).oid == oid
  {
  }

  // ----- the status against what has traded so far -----

  lemma {:induction false} ReportedNotFresh(reports: seq<Report>, oid: string, i: nat)
    requires i < |reports| && reports[i].oid == oid
    ensures LifeOf(reports, oid) != Fresh
  {
    var n := |reports| - 1;
    if i < n {
      ReportedNotFresh(reports[..n], oid, i);
    }
  }

  /** What report `i` on a sound order says of the order's life up to there. */
  ghost predicate StatusTells(r: Report, upTo: Life, whole: Life) {
    match r.status
    case Rejected => false
    case New => upTo == Open(0)
    case PFill => upTo.Open? && 0 < r.quantity <= upTo.traded && (whole.Open? || whole.Closed?)
                  && if whole.Closed? then upTo.traded < whole.traded else upTo.traded <= whole.traded
    case Fill => upTo.Closed? && 0 < r.quantity <= upTo.traded && upTo == whole
  }

  lemma {:induction false} LifeUpTo(reports: seq<Report>, oid: string, i: nat)
    requires i < |reports| && reports[i].oid == oid && (LifeOf(reports, oid).Open? || LifeOf(reports, oid).Closed?)
    ensures StatusTells(reports[i], LifeOf(reports[..i + 1], oid), LifeOf(reports, oid))
  {
    var n := |reports| - 1;
    if i == n {
      assert reports[..i + 1] == reports;
    } else {
      ReportedNotFresh(reports[..n], oid, i);
      LifeUpTo(reports[..n], oid, i);
      assert reports[..n][..i + 1] == reports[..i + 1];
    }
  }

  /** An accepted order is open with less than its quantity traded, or closed with all of it. */
  lemma AcceptedLife(events: seq<Event>, k: nat)
    requires 1 <= k <= |events| && Refusal(events[k - 1].msg) == None
    ensures var life, quantity := LifeOf(Run(events).reports, OrderId(k)), events[k - 1].msg.quantity;
            (life.Open? && life.traded < quantity) || (life.Closed? && life.traded == quantity)
  {
    hide Run, Refusal, LedgerOf, Submitted, LifeOf, OrderId, GoodMarket, LegalBooks, MarketInArrivalOrder, IdsUsed,
         AcceptedOrder, IsNamed, IsNearestTick;
    var o, ledger, oid := Run(events), LedgerOf(events), OrderId(k);
    RunAccounts(events);
    LedgerEntries(events, k);
    SubmittedId(events, k);
    assert QueuedOrClosed(o.state.market, o.reports, ledger, oid);
    var own := o.state.market[Index(ledger[oid].instrument)].Queue(ledger[oid].side);
    if oid in Oids(own) {
      var i :| 0 <= i < |own| && own[i].oid == oid;
      assert Rests(own[i], o.reports, ledger);
    }
  }

  // ----- every report in the message's own terms -----

  /**
   Report `r` on the order of message `m`: the client's own id, instrument and side; New with the whole quantity
   at the limit before anything has traded, or a trade no worse than the limit, Fill exactly when it completes
   the quantity. `traded` counts all trades of the order up to this report.
   */
  ghost predicate Says(m: Message, r: Report, limit: nat, traded: nat) {
    && r.coid == m.coid && r.reason == "" && r.instrument.Some? && IsNamed(m.instrument, r.instrument.value)
    && (m.side == 1 || m.side == 2) && (r.side == Buy <==> m.side == 1)
    && IsNearestTick(m.price, limit)
    && (if r.status == New then r.price == limit && r.quantity == m.quantity && traded == 0
        else
          && (if m.side == 1 then r.price <= limit else r.price >= limit)
          && 0 < r.quantity <= traded
          && (if r.status == PFill then traded < m.quantity else r.status == Fill && traded == m.quantity))
  }

  /** Every report of a run on an accepted message says just that. */
  lemma ReportSays(events: seq<Event>, k: nat, i: nat) returns (limit: nat)
    requires 1 <= k <= |events| && Refusal(events[k - 1].msg) == None
    requires i < |Run(events).reports| && Run(events).reports[i].oid == OrderId(k)
    ensures var reports := Run(events).reports;
            Says(events[k - 1].msg, reports[i], limit, TradedQuantity(reports[..i + 1], OrderId(k)))
  {
    hide Run, Refusal, LedgerOf, Submitted, LifeOf, TradedQuantity, Statuses, OrderId, AcceptedOrder, OpenWord,
         ClosedWord, IsNamed, IsNearestTick, WordMeaning, TradesPositive;
    var reports, oid := Run(events).reports, OrderId(k);
    limit := Submitted(events, k).price;
    RunFits(events);
    LedgerEntries(events, k);
    AcceptedLife(events, k);
    LifeUpTo(reports, oid, i);
    LifeIsWord(reports[..i + 1], oid);
  }

  // ----- where an order rests -----

  /** `o` is what is left of message `m`, of the given side code, in the book of `instrument`. */
  ghost predicate LeftOf(o: Order, m: Message, instrument: Instrument, code: int) {
    && Refusal(m) == None && m.side == code && IsNamed(m.instrument, instrument)
    && o.coid == m.coid && 0 < o.quantity <= m.quantity && IsNearestTick(m.price, o.price)
  }

  /** Whatever rests of message `k` rests among the bids of its instrument if its code is 1, among the asks if 2. */
  lemma RestsAsAsked(events: seq<Event>, k: nat, instrument: Instrument, i: nat)
    requires 1 <= k <= |events|
    ensures var book, m := Run(events).state.market[Index(instrument)], events[k - 1].msg;
            && (i < |book.bids| && book.bids[i].oid == OrderId(k) ==> LeftOf(book.bids[i], m, instrument, 1))
            && (i < |book.asks| && book.asks[i].oid == OrderId(k) ==> LeftOf(book.asks[i], m, instrument, 2))
  {
    hide Run, LedgerOf, LifeOf, OrderId, Submitted, Refusal, IsNamed, IsNearestTick, LegalBooks, MarketInArrivalOrder,
         IdsUsed, QueuedOrClosed;
    var book, ledger := Run(events).state.market[Index(instrument)], LedgerOf(events);
    RunAccounts(events);
    RunKeepsMarketGood(events);
    LedgerEntries(events, k);
    assert GoodBooks(instrument, book);
    if i < |book.bids| {
      assert Rests(book.bids[i], Run(events).reports, ledger) && Resting(instrument, Buy, book.bids[i]);
    }
    if i < |book.asks| {
      assert Rests(book.asks[i], Run(events).reports, ledger) && Resting(instrument, Sell, book.asks[i]);
    }
  }

  // ----- who trades with whom -----

  /** The two reports of one trade, between the incoming order `oid` and the resting `o`, at `o`'s own price. */
  ghost predicate IsTrade(a: Report, b: Report, oid: string, o: Order) {
    && a.oid == oid && b.oid == o.oid && a.price == b.price == o.price
    && a.quantity == b.quantity && 0 < b.quantity <= o.quantity
    && (a.status == Fill || a.status == PFill) && (b.status == Fill || b.status == PFill)
  }

  /** The reports come in pairs: the `j`-th trade is with the `j`-th order of the queue. */
  ghost predicate ArePairs(rs: seq<Report>, oid: string, opp: seq<Order>) {
    && |rs| % 2 == 0 && |rs| / 2 <= |opp|
    && forall j :: 0 <= j < |rs| / 2 ==> IsTrade(rs[2 * j], rs[2 * j + 1], oid, opp[j])
  }

  lemma {:induction false} SweepPairs(inc: Order, opp: seq<Order>, ts: string)
    requires AllPositive(opp)
    ensures ArePairs(Sweep(inc, opp, ts).reports, inc.oid, opp)
    decreases |opp| + inc.quantity
  {
    hide IsTrade, Crosses;
    if CanTrade(inc, opp) {
      var first := TradeStep(inc, opp, ts);
      var rest := Sweep(first.inc, first.opp, ts).reports;
      TradeIsTrade(inc, opp, ts);
      if first.inc.quantity > 0 {
        assert first.opp == opp[1..];
        SweepPairs(first.inc, first.opp, ts);
        PairsBehind(first.reports, rest, inc.oid, opp);
      } else {
        assert rest == [];
      }
    }
  }

  lemma TradeIsTrade(inc: Order, opp: seq<Order>, ts: string)
    requires CanTrade(inc, opp) && opp[0].quantity > 0
    ensures var rs := TradeStep(inc, opp, ts).reports;
            |rs| == 2 && IsTrade(rs[0], rs[1], inc.oid, opp[0])
  {
  }

  lemma PairsBehind(first: seq<Report>, rest: seq<Report>, oid: string, opp: seq<Order>)
    requires |first| == 2 && opp != [] && IsTrade(first[0], first[1], oid, opp[0]) && ArePairs(rest, oid, opp[1..])
    ensures ArePairs(first + rest, oid, opp)
  {
    hide IsTrade;
    var rs := first + rest;
    forall j | 0 <= j < |rs| / 2
      ensures IsTrade(rs[2 * j], rs[2 * j + 1], oid, opp[j])
    {
      if j > 0 {
        assert opp[j] == opp[1..][j - 1];
        assert rs[2 * j] == rest[2 * (j - 1)] && rs[2 * j + 1] == rest[2 * (j - 1) + 1];
      } else {
        assert rs[0] == first[0] && rs[1] == first[1];
      }
    }
  }

  /** All that the next message causes: one reject, one New, or its trades with the head of the opposite queue. */
  ghost predicate Causes(rs: seq<Report>, m: Message, oid: string, book: Books) {
    if Refusal(m).Some? then |rs| == 1 && rs[0].oid == oid && rs[0].status == Rejected
    else
      || (|rs| == 1 && rs[0].oid == oid && rs[0].status == New)
      || (rs != [] && ArePairs(rs, oid, if m.side == 1 then book.asks else book.bids))
  }

  /**
   In any run the next message is refused by one report, answered New by one report, or trades: then its reports
   come in pairs, the `j`-th pair for one quantity between it and the `j`-th order of the opposite queue, at the
   price that this order asked for.
   */
  lemma ReportsCaused(events: seq<Event>, e: Event, instrument: Instrument)
    requires Refusal(e.msg) == None ==> IsNamed(e.msg.instrument, instrument)
    ensures Causes(Handle(Run(events).state, e).reports, e.msg, OrderId(|events| + 1),
                   Run(events).state.market[Index(instrument)])
  {
    hide Run, Handle, Refusal, OrderId, AcceptedOrder, Process, RejectReport, PublishAll, Sorted, Uncrossed, LegalBooks,
         MarketInArrivalOrder, IsNearestTick, ArePairs;
    var s, oid := Run(events).state, OrderId(|events| + 1);
    RunKeepsMarketGood(events);
    if Refusal(e.msg).Some? {
      HandleRefused(s, e);
      RejectIsReject(e.msg, oid, e.timestamp);
    } else {
      HandleAccepted(s, e);
      AdmittedAs(e.msg, oid);
      var order := AcceptedOrder(e.msg, oid);
      assert order.instrument == instrument;
      assert GoodBooks(instrument, s.market[Index(instrument)]);
      ProcessPairs(s.market[Index(instrument)], order, e.timestamp);
    }
  }

  lemma ProcessPairs(b: Books, inc: Order, ts: string)
    requires AllPositive(b.Queue(Opposite(inc.side))) && inc.quantity > 0
    ensures var rs := Process(b, inc, ts).reports;
            || (|rs| == 1 && rs[0].oid == inc.oid && rs[0].status == New)
            || (rs != [] && ArePairs(rs, inc.oid, b.Queue(Opposite(inc.side))))
  {
    hide Sweep, Enqueue, ArePairs;
    var opp := b.Queue(Opposite(inc.side));
    SweepPairs(inc, opp, ts);
    SweepTrades(inc, opp, ts);
    SweepKeepsId(inc, opp, ts);
    var s := Sweep(inc, opp, ts);
    assert s.reports + [] == s.reports;
  }

  lemma {:induction false} SweepKeepsId(inc: Order, opp: seq<Order>, ts: string)
    ensures Sweep(inc, opp, ts).inc.oid == inc.oid
    decreases |opp| + inc.quantity
  {
    if CanTrade(inc, opp) {
      var first := TradeStep(inc, opp, ts);
      SweepKeepsId(first.inc, first.opp, ts);
    }
  }
}
