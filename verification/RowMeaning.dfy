/** What every row of a run says: the columns of the report file in the terms of the messages and of earlier rows. */
module RowMeaning {
  import opened Types
  import opened PriceText
  import opened Matching
  import opened Exchange
  import opened Accounting
  import opened ReportMeaning

  // ----- what the rows themselves say has traded -----

  /** Total quantity of the trade rows of order `oid`. */
  function TradedIn(rows: seq<Outbound>, oid: string): int {
    if rows == [] then 0
    else
      var last := rows[|rows| - 1];
      TradedIn(rows[..|rows| - 1], oid)
      + if last.oid == oid && (last.status == "Pfill" || last.status == "Fill") then last.quantity else 0
  }

  /** `row` prints the id, the amount and the status of `r`. */
  ghost predicate Prints(row: Outbound, r: Report) {
    row.oid == r.oid && row.quantity == r.quantity && row.status == StatusText(r.status)
  }

  lemma StatusNames(status: ExecStatus)
    ensures status == New <==> StatusText(status) == "New"
    ensures status == Rejected <==> StatusText(status) == "Reject"
    ensures status == Fill <==> StatusText(status) == "Fill"
    ensures status == PFill <==> StatusText(status) == "Pfill"
  {
    assert StatusText(status)[0] == 'N' <==> status == New;
    assert StatusText(status)[0] == 'R' <==> status == Rejected;
    assert StatusText(status)[0] == 'F' <==> status == Fill;
  }

  lemma {:induction false} TradedRows(rows: seq<Outbound>, reports: seq<Report>, oid: string)
    requires |rows| == |reports| && forall i :: 0 <= i < |rows| ==> Prints(rows[i], reports[i])
    ensures TradedIn(rows, oid) == TradedQuantity(reports, oid)
  {
    hide StatusText;
    if rows != [] {
      var n := |rows| - 1;
      TradedRows(rows[..n], reports[..n], oid);
      assert Prints(rows[n], reports[n]);
      StatusNames(reports[n].status);
    }
  }

  // ----- which message causes a row -----

  /** Row `i` of a run publishes report `i`, and is caused by message `j + 1`. */
  ghost predicate CausedBy(events: seq<Event>, i: nat, j: nat) {
    && j < |events| && |Run(events[..j]).out| <= i < |Run(events[..j + 1]).out|
    && |Run(events).out| == |Run(events).reports| && i < |Run(events).out|
    && Run(events).out[i] == Publish(events[j].msg, Run(events).reports[i])
    && i - |Run(events[..j]).out| < |Handle(Run(events[..j]).state, events[j]).reports|
    && Run(events).reports[i] == Handle(Run(events[..j]).state, events[j]).reports[i - |Run(events[..j]).out|]
  }

  lemma {:induction false} RowCause(events: seq<Event>, i: nat) returns (j: nat)
    requires i < |Run(events).out|
    ensures CausedBy(events, i, j)
  {
    hide Handle, Publish;
    var n := |events| - 1;
    var prior := events[..n];
    RunPublishes(prior);
    RunPublishes(events);
    HandleRows(Run(prior).state, events[n]);
    if i < |Run(prior).out| {
      j := RowCause(prior, i);
      assert prior[..j] == events[..j] && prior[..j + 1] == events[..j + 1];
    } else {
      j := n;
      assert events[..j + 1] == events;
    }
  }

  lemma HandleRows(s: State, e: Event)
    ensures |Handle(s, e).out| == |Handle(s, e).reports|
    ensures forall i :: 0 <= i < |Handle(s, e).out| ==> Handle(s, e).out[i] == Publish(e.msg, Handle(s, e).reports[i])
  {
    hide Process, Refusal, AcceptedOrder, RejectReport, OrderId, Publish;
  }

  lemma InstrumentOf(m: Message) returns (instrument: Instrument)
    ensures Refusal(m) == None ==> IsNamed(m.instrument, instrument)
  {
    instrument := Rose;
    if Refusal(m) == None {
      NamesMatch(m.instrument);
      instrument := ParseInstrument(m.instrument).value;
    }
  }

  /** Each row carries the clock text and the number of the message that caused it, which is never older. */
  lemma RowIsStamped(events: seq<Event>, i: nat, j: nat, k: nat)
    requires CausedBy(events, i, j) && Run(events).out[i].oid == OrderId(k)
    ensures var row := Run(events).out[i];
            && row.timestamp == events[j].timestamp && row.sequence == events[j].msg.sequence
            && k <= j + 1 && (row.status == "New" || row.status == "Reject" ==> k == j + 1)
  {
    hide Run, Handle, OrderId, Refusal, StatusText, IsTrade, IsNamed, SignedPriceText, TickText, InstrumentText,
         MarketInArrivalOrder, LegalBooks, GoodMarket;
    var prior := events[..j];
    var s, r, m := Run(prior).state, Run(events).reports[i], i - |Run(prior).out|;
    RunKeepsMarketGood(prior);
    HandleRows(s, events[j]);
    RowsStamped(s, events[j]);
    HandleOwned(s, events[j]);
    assert Owned(r.oid, s.nextOid + 1);
    var l: nat :| 1 <= l < s.nextOid + 1 && r.oid == OrderId(l);
    OrderIdInjective(k, l);
    var instrument := InstrumentOf(events[j].msg);
    ReportsCaused(prior, events[j], instrument);
    StatusNames(r.status);
    var rs, book := Handle(s, events[j]).reports, s.market[Index(instrument)];
    if r.status == New || r.status == Rejected {
      AnswersAreOwn(rs, events[j].msg, OrderId(j + 1), book, m);
      OrderIdInjective(k, j + 1);
    }
  }

  lemma PairsTrade(rs: seq<Report>, oid: string, opp: seq<Order>)
    requires ArePairs(rs, oid, opp)
    ensures forall i :: 0 <= i < |rs| ==> rs[i].status == Fill || rs[i].status == PFill
  {
    forall i | 0 <= i < |rs|
      ensures rs[i].status == Fill || rs[i].status == PFill
    {
      var j := i / 2;
      assert i == 2 * j || i == 2 * j + 1;
      assert IsTrade(rs[2 * j], rs[2 * j + 1], oid, opp[j]);
    }
  }

  /** Only the message itself is refused or answered New. */
  lemma AnswersAreOwn(rs: seq<Report>, m: Message, oid: string, book: Books, i: nat)
    requires Causes(rs, m, oid, book) && i < |rs| && (rs[i].status == New || rs[i].status == Rejected)
    ensures rs[i].oid == oid
  {
    hide ArePairs, Refusal;
    var opp := if m.side == 1 then book.asks else book.bids;
    if ArePairs(rs, oid, opp) {
      PairsTrade(rs, oid, opp);
    }
  }

  // ----- what a row says -----

  /**
   The row of an accepted message: the client's own id, instrument and side. Before anything has traded it is New,
   with the whole quantity at the limit, the hundredth nearest to the client's price. Afterwards it is one trade at
   a price no worse than the limit, and says Fill when `traded`, all trade rows of the order so far, is the whole
   quantity, Pfill before.
   */
  ghost predicate RowSays(row: Outbound, m: Message, limit: nat, ticks: nat, traded: int) {
    && row.coid == m.coid && row.instrument == m.instrument && row.side == m.side && row.reason == ""
    && (m.side == 1 || m.side == 2) && IsNearestTick(m.price, limit) && row.priceText == TickText(ticks)
    && (if traded == 0 then row.status == "New" && ticks == limit && row.quantity == m.quantity
        else
          && row.status == (if traded == m.quantity then "Fill" else "Pfill")
          && 0 < row.quantity <= traded <= m.quantity
          && (if m.side == 1 then ticks <= limit else ticks >= limit))
  }

  lemma RowFromReport(m: Message, r: Report, row: Outbound, sender: Message, limit: nat, traded: nat)
    requires Says(m, r, limit, traded) && row == Publish(sender, r)
    ensures RowSays(row, m, limit, r.price, traded)
  {
    hide SignedPriceText, TickText, IsNearestTick;
  }

  lemma AcceptedRowSays(events: seq<Event>, k: nat, i: nat) returns (limit: nat, ticks: nat)
    requires 1 <= k <= |events| && Refusal(events[k - 1].msg) == None
    requires i < |Run(events).out| && Run(events).out[i].oid == OrderId(k)
    ensures RowSays(Run(events).out[i], events[k - 1].msg, limit, ticks, TradedIn(Run(events).out[..i + 1], OrderId(k)))
  {
    hide Run, OrderId, Refusal, TradedQuantity, TradedIn, Says, RowSays, Publish;
    var o := Run(events);
    RunPublishes(events);
    RunPrints(events);
    limit := ReportSays(events, k, i);
    ticks := o.reports[i].price;
    TradedRows(o.out[..i + 1], o.reports[..i + 1], OrderId(k));
    var j := RowCause(events, i);
    RowFromReport(events[k - 1].msg, o.reports[i], o.out[i], events[j].msg, limit,
                  TradedQuantity(o.reports[..i + 1], OrderId(k)));
  }

  lemma RunPrints(events: seq<Event>)
    ensures |Run(events).out| == |Run(events).reports|
    ensures forall i :: 0 <= i < |Run(events).out| ==> Prints(Run(events).out[i], Run(events).reports[i])
  {
    hide Run, Handle, SignedPriceText, TickText, InstrumentText, StatusText;
    RunPublishes(events);
    forall i | 0 <= i < |Run(events).out|
      ensures Prints(Run(events).out[i], Run(events).reports[i])
    {
      var j := RowCause(events, i);
    }
  }

  /**
   Every row of every run says what happened to one message, numbered `k`, in the terms of that message and of
   the rows so far; it carries the clock text and the sequence number of the message that caused it, number `j`.
   */
  lemma EveryRowSays(events: seq<Event>, i: nat) returns (k: nat, j: nat, limit: nat, ticks: nat)
    requires i < |Run(events).out|
    ensures 1 <= k <= j <= |events| && Run(events).out[i].oid == OrderId(k)
    ensures var row, m := Run(events).out[i], events[k - 1].msg;
            && row.timestamp == events[j - 1].timestamp && row.sequence == events[j - 1].msg.sequence
            && (row.status == "New" || row.status == "Reject" ==> j == k)
            && (if Refusal(m).Some? then RefusesRow(row, events[k - 1], k)
                else RowSays(row, m, limit, ticks, TradedIn(Run(events).out[..i + 1], OrderId(k))))
  {
    hide Run, OrderId, Refusal, Publish, RowSays, Handle, TradedIn;
    RunPublishes(events);
    ReportsOwned(events);
    assert Owned(Run(events).reports[i].oid, |events| + 1);
    k :| 1 <= k < |events| + 1 && Run(events).reports[i].oid == OrderId(k);
    j := RowCause(events, i);
    RowIsStamped(events, i, j, k);
    j := j + 1;
    limit, ticks := 0, 0;
    if Refusal(events[k - 1].msg).Some? {
      var l := RefusedRow(events, k);
    } else {
      limit, ticks := AcceptedRowSays(events, k, i);
    }
  }
}
