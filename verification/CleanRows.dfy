/** Every report row of a run can be read back: nothing a client sends can break the row format. */
module CleanRows {
  import opened Types
  import opened Decimals
  import opened PriceText
  import opened NumberText
  import opened Matching
  import opened Exchange
  import opened CsvReader
  import opened CsvWriter

  /** Free of the row format's two delimiters. */
  predicate Clean(s: string) {
    ',' !in s && '\n' !in s
  }

  predicate CleanText(s: string, size: nat) {
    Clean(s) && |s| < size
  }

  predicate CleanStamp(ts: string) {
    CleanText(ts, 20) && (ts != [] ==> ts[|ts| - 1] != '\r')
  }

  /** An outbound message within its arrays whose texts hold no delimiter. */
  predicate CleanMessage(m: Outbound) {
    && FitsMessage(m) && Clean(m.oid) && Clean(m.coid) && Clean(m.instrument) && Clean(m.status)
    && Clean(m.priceText) && Clean(m.reason) && CleanStamp(m.timestamp)
  }

  // ----- one row -----

  lemma CleanConcat(a: string, b: string)
    requires Clean(a) && Clean(b)
    ensures Clean(a + b)
  {
  }

  lemma {:induction false} DigitsClean(s: string)
    requires AllDigits(s)
    ensures Clean(s)
  {
  }

  lemma IntTextClean(n: int)
    ensures Clean(IntText(n))
  {
    DecimalRoundTrip(if n < 0 then -n else n);
    DigitsClean(Decimal(if n < 0 then -n else n));
  }

  lemma {:induction false} JoinNoNewline(fields: seq<string>)
    requires fields != [] && forall i :: 0 <= i < |fields| ==> Clean(fields[i])
    ensures '\n' !in Join(fields)
  {
    var n := |fields| - 1;
    if n > 0 {
      JoinNoNewline(fields[..n]);
    }
  }

  /** A joined line ends like its last field, or in a comma. */
  lemma JoinEnd(fields: seq<string>)
    requires |fields| > 1 && CleanStamp(fields[|fields| - 1])
    ensures StripCr(Join(fields)) == Join(fields)
  {
    var n := |fields| - 1;
    assert Join(fields) == Join(fields[..n]) + "," + fields[n];
  }

  /** The header is one line that names nine columns. */
  lemma HeaderNames()
    ensures HEADER != "" && HEADER[|HEADER| - 1] == '\n'
    ensures Split(StripCr(HEADER[..|HEADER| - 1])) ==
            ["Order ID", "Client Order Id", "Instrument", "Side", "Exec Status", "Quantity", "Price", "Reason",
             "Timestamp"]
  {
    hide Split, Join, HEADER;
    var names := ["Order ID"] + ["Client Order Id"] + ["Instrument"] + ["Side"] + ["Exec Status"] + ["Quantity"]
                 + ["Price"] + ["Reason"] + ["Timestamp"];
    HeaderJoins(names);
    assert HEADER[..|HEADER| - 1] == Join(names);
    JoinEnd(names);
    SplitJoin(names);
  }

  lemma HeaderJoins(names: seq<string>)
    requires names == ["Order ID"] + ["Client Order Id"] + ["Instrument"] + ["Side"] + ["Exec Status"] + ["Quantity"]
                      + ["Price"] + ["Reason"] + ["Timestamp"]
    ensures HEADER == Join(names) + "\n"
  {
    hide Join;
    var three := ["Order ID"] + ["Client Order Id"] + ["Instrument"];
    JoinOne("Order ID", "Order ID");
    JoinSnoc(["Order ID"], "Client Order Id");
    JoinSnoc(["Order ID"] + ["Client Order Id"], "Instrument");
    JoinThree(three, "Side", "Exec Status", "Quantity");
    JoinThree(three + ["Side"] + ["Exec Status"] + ["Quantity"], "Price", "Reason", "Timestamp");
    HeaderParts();
  }

  lemma HeaderParts()
    ensures "Order ID" + "," + "Client Order Id" + "," + "Instrument" == "Order ID,Client Order Id,Instrument"
    ensures "," + "Side" + "," + "Exec Status" + "," + "Quantity" == ",Side,Exec Status,Quantity"
    ensures "," + "Price" + "," + "Reason" + "," + "Timestamp" == ",Price,Reason,Timestamp"
  {
  }

  lemma JoinThree(fields: seq<string>, a: string, b: string, c: string)
    requires fields != []
    ensures Join(fields + [a] + [b] + [c]) == Join(fields) + ("," + a + "," + b + "," + c)
  {
    hide Join;
    JoinSnoc(fields, a);
    JoinSnoc(fields + [a], b);
    JoinSnoc(fields + [a] + [b], c);
    assert Join(fields) + "," + a + "," + b + "," + c == Join(fields) + ("," + a + "," + b + "," + c);
  }

  /**
   A report row is one line of nine fields: a single newline, at its end; eight commas; and reading it back
   gives the nine field texts in the order of the header, the two numbers among them parsing to the message's own.
   */
  lemma RowSurvives(m: Outbound)
    requires CleanMessage(m)
    ensures |RowText(m)| <= ROW_BUFFER
    ensures var row := RowText(m);
            var line := row[..|row| - 1];
            && row == line + "\n" && '\n' !in line && multiset(line)[','] == 8
            && Split(StripCr(line)) == [m.oid, m.coid, m.instrument, IntText(m.side), m.status, IntText(m.quantity),
                                        m.priceText, m.reason, m.timestamp]
    ensures m.side > INT_MIN ==> ReadInt(IntText(m.side)) == Ok(m.side)
    ensures m.quantity > INT_MIN ==> ReadInt(IntText(m.quantity)) == Ok(m.quantity)
  {
    hide Join, Split, IntText, ReadInt, StripCr;
    var fields := Fields(m);
    IntTextClean(m.side);
    IntTextClean(m.quantity);
    IntRoundTrip(m.side);
    IntRoundTrip(m.quantity);
    forall i | 0 <= i < |fields|
      ensures Clean(fields[i])
    {
    }
    JoinNoNewline(fields);
    JoinEnd(fields);
    SplitJoin(fields);
    SplitCount(Join(fields));
    assert RowText(m)[..|RowText(m)| - 1] == Join(fields);
    RowFits(m);
  }

  lemma RowFits(m: Outbound)
    requires FitsMessage(m)
    ensures |RowText(m)| <= ROW_BUFFER
  {
    hide Join, IntText;
    IntTextLength(m.side);
    IntTextLength(m.quantity);
    var f := Fields(m);
    JoinLength(f[..1]);
    JoinLength(f[..2]);
    JoinLength(f[..3]);
    JoinLength(f[..4]);
    JoinLength(f[..5]);
    JoinLength(f[..6]);
    JoinLength(f[..7]);
    JoinLength(f[..8]);
    JoinLength(f);
    assert forall k :: 1 <= k < 9 ==> f[..k + 1][..k] == f[..k];
    assert f[..9] == f;
  }

  lemma JoinLength(f: seq<string>)
    requires f != []
    ensures |Join(f)| == if |f| == 1 then |f[0]| else |Join(f[..|f| - 1])| + 1 + |f[|f| - 1]|
  {
  }

  // ----- every row of a run -----

  ghost predicate CleanOrder(o: Order) {
    CleanText(o.oid, 32) && CleanText(o.coid, 64) && o.price < TICK_CAPACITY
  }

  ghost predicate CleanQueue(q: seq<Order>) {
    forall i :: 0 <= i < |q| ==> CleanOrder(q[i])
  }

  ghost predicate CleanBooks(b: Books) {
    CleanQueue(b.bids) && CleanQueue(b.asks)
  }

  ghost predicate CleanReports(rs: seq<Report>, ts: string) {
    forall i :: 0 <= i < |rs| ==> CleanReport(rs[i], ts)
  }

  ghost predicate CleanReport(r: Report, ts: string) {
    && CleanText(r.oid, 32) && CleanText(r.coid, 64) && r.price < TICK_CAPACITY
    && r.status != Rejected && r.reason == "" && r.timestamp == ts && r.instrument.Some?
  }

  lemma {:induction false} SweepClean(inc: Order, opp: seq<Order>, ts: string)
    requires CleanOrder(inc) && CleanQueue(opp)
    ensures var s := Sweep(inc, opp, ts); CleanOrder(s.inc) && CleanQueue(s.opp) && CleanReports(s.reports, ts)
    decreases |opp| + inc.quantity
  {
    hide CleanText;
    if CanTrade(inc, opp) {
      var first := TradeStep(inc, opp, ts);
      assert CleanOrder(opp[0]);
      SweepClean(first.inc, first.opp, ts);
    }
  }

  lemma {:induction false} EnqueueClean(side: Side, q: seq<Order>, o: Order)
    requires CleanOrder(o) && CleanQueue(q)
    ensures CleanQueue(Enqueue(side, q, o))
  {
    hide CleanOrder;
    if !(q == [] || Better(side, o.price, q[0].price)) {
      EnqueueClean(side, q[1..], o);
    }
  }

  lemma ProcessClean(b: Books, inc: Order, ts: string)
    requires CleanOrder(inc) && CleanBooks(b)
    ensures CleanBooks(Process(b, inc, ts).books) && CleanReports(Process(b, inc, ts).reports, ts)
  {
    hide CleanText, Sweep, Enqueue;
    var s := Sweep(inc, b.Queue(Opposite(inc.side)), ts);
    SweepClean(inc, b.Queue(Opposite(inc.side)), ts);
    EnqueueClean(inc.side, b.Queue(inc.side), s.inc);
  }

  lemma TickTextClean(ticks: nat)
    ensures Clean(TickText(ticks))
  {
    DecimalRoundTrip(ticks / 100);
    DigitsClean(Decimal(ticks / 100));
    DigitsClean([Digit(ticks % 100 / 10), Digit(ticks % 10)]);
  }

  lemma PriceTextClean(ticks: nat)
    requires ticks <= MAX_TICK
    ensures CleanText(TickText(ticks), 24)
  {
    TickTextFits(ticks);
    TickTextClean(ticks);
  }

  /** Even a negative price prints within the 24 bytes. */
  lemma SignedTextClean(price: real)
    ensures CleanText(SignedPriceText(price), 24)
  {
    if price >= 0.0 {
      RoundedFits(price);
      PriceTextClean(ToTicks(price));
    } else if price * TICKS_PER_UNIT >= MIN_LONG_LONG as real {
      var cents := Round(price * TICKS_PER_UNIT);
      assert cents >= MIN_LONG_LONG;
      var size := if cents < 0 then -cents else 0;
      PriceTextClean(size);
      assert Pow10(17) == 100_000_000_000_000_000 by {
        assert Pow10(6) == 1000_000;
        assert Pow10(12) == 1000_000_000_000;
      }
      DecimalLength(size / 100, 17);
      TextParts(size);
    }
  }

  lemma RoundedFits(price: real)
    ensures ToTicks(price) <= MAX_TICK
  {
  }

  ghost predicate CleanInput(e: Event) {
    && CleanText(e.msg.coid, 64) && CleanText(e.msg.instrument, 32) && CleanStamp(e.timestamp)
    && INT_MIN <= e.msg.side <= INT_MAX && INT_MIN <= e.msg.quantity <= INT_MAX
  }

  lemma OrderIdClean(k: nat)
    requires k <= MAX_TICK
    ensures CleanText(OrderId(k), 32)
  {
    assert Pow10(20) == 100_000_000_000_000_000_000 by {
      assert Pow10(6) == 1000_000;
      assert Pow10(12) == 1000_000_000_000;
      assert Pow10(17) == 100_000_000_000_000_000;
    }
    DecimalLength(k, 20);
    DecimalRoundTrip(k);
    DigitsClean(Decimal(k));
    CleanConcat("ord", Decimal(k));
  }

  lemma PublishClean(m: Message, r: Report, ts: string)
    requires CleanReport(r, ts) && CleanStamp(ts)
    ensures CleanMessage(Publish(m, r))
  {
    hide TickText, InstrumentText, StatusText;
    PriceTextClean(r.price);
    NamesClean(r.instrument, r.status);
  }

  lemma NamesClean(instrument: Option<Instrument>, status: ExecStatus)
    ensures CleanText(InstrumentText(instrument), 32) && CleanText(StatusText(status), 16)
  {
  }

  /** A report of message `m`'s making: about trading, or the refusal of `m` itself. */
  ghost predicate Printable(m: Message, r: Report) {
    && CleanStamp(r.timestamp)
    && (CleanReport(r, r.timestamp)
        || (Refusal(m).Some? && CleanText(r.oid, 32) && CleanText(m.coid, 64) && CleanText(m.instrument, 32)
            && INT_MIN <= m.side <= INT_MAX && r == RejectReport(m, r.oid, r.timestamp)))
  }

  lemma PrintableClean(m: Message, r: Report)
    requires Printable(m, r)
    ensures CleanMessage(Publish(m, r))
  {
    if CleanReport(r, r.timestamp) {
      PublishClean(m, r, r.timestamp);
    } else {
      RejectClean(m, r.oid, r.timestamp);
    }
  }

  lemma RejectClean(m: Message, oid: string, ts: string)
    requires Refusal(m).Some? && CleanText(oid, 32) && CleanStamp(ts)
    requires CleanText(m.coid, 64) && CleanText(m.instrument, 32) && INT_MIN <= m.side <= INT_MAX
    ensures CleanMessage(Publish(m, RejectReport(m, oid, ts)))
  {
    hide SignedPriceText, Refusal;
    SignedTextClean(m.price);
    ReasonClean(m);
  }

  lemma ReasonClean(m: Message)
    requires Refusal(m).Some?
    ensures CleanText(Refusal(m).value, 50)
  {
    hide ParseInstrument;
  }

  ghost predicate CleanMarket(market: Market) {
    forall i :: 0 <= i < INSTRUMENTS ==> CleanBooks(market[i])
  }

  /** Each row of a message publishes one report that is printable. */
  ghost predicate RowsPublish(m: Message, reports: seq<Report>, out: seq<Outbound>) {
    |out| == |reports| && forall i :: 0 <= i < |out| ==> out[i] == Publish(m, reports[i]) && Printable(m, reports[i])
  }

  lemma HandleClean(s: State, e: Event)
    requires CleanMarket(s.market) && CleanInput(e) && s.nextOid <= MAX_TICK
    ensures CleanMarket(Handle(s, e).state.market)
    ensures RowsPublish(e.msg, Handle(s, e).reports, Handle(s, e).out)
  {
    hide Process, CleanBooks, OrderId, Publish, RejectReport, CleanStamp, ToTicks, Validate;
    var oid := OrderId(s.nextOid);
    OrderIdClean(s.nextOid);
    if Refusal(e.msg).Some? {
      HandleRefused(s, e);
      RejectStamp(e.msg, oid, e.timestamp);
    } else {
      HandleAccepted(s, e);
      AcceptedInRange(e.msg, oid);
      var order := AcceptedOrder(e.msg, oid);
      ProcessClean(s.market[Index(order.instrument)], order, e.timestamp);
    }
  }

  lemma RejectStamp(m: Message, oid: string, ts: string)
    requires Refusal(m).Some?
    ensures RejectReport(m, oid, ts).oid == oid && RejectReport(m, oid, ts).timestamp == ts
  {
  }

  ghost predicate CleanInputs(events: seq<Event>) {
    |events| <= MAX_TICK && forall i :: 0 <= i < |events| ==> CleanInput(events[i])
  }

  /** Row `i` of a run publishes its report `i`, on behalf of some message of the run. */
  ghost predicate RowPublishes(events: seq<Event>, r: Report, row: Outbound) {
    exists k :: 0 <= k < |events| && row == Publish(events[k].msg, r) && Printable(events[k].msg, r)
  }

  lemma {:induction false} RunRows(events: seq<Event>)
    requires CleanInputs(events)
    ensures CleanMarket(Run(events).state.market) && Run(events).state.nextOid == |events| + 1
    ensures |Run(events).out| == |Run(events).reports|
    ensures forall i :: 0 <= i < |Run(events).out| ==> RowPublishes(events, Run(events).reports[i], Run(events).out[i])
  {
    hide Handle, Publish, Printable, CleanInput, CleanBooks;
    if events == [] {
      EmptyClean();
    } else {
      var n := |events| - 1;
      var before, last := Run(events[..n]), Handle(Run(events[..n]).state, events[n]);
      RunRows(events[..n]);
      HandleClean(before.state, events[n]);
      NextId(before.state, events[n]);
      forall i | 0 <= i < |Run(events).out|
        ensures RowPublishes(events, Run(events).reports[i], Run(events).out[i])
      {
        if i < |before.out| {
          assert RowPublishes(events[..n], before.reports[i], before.out[i]);
          var k :| 0 <= k < n && before.out[i] == Publish(events[k].msg, before.reports[i])
                   && Printable(events[k].msg, before.reports[i]);
        } else {
          assert last.out[i - |before.out|] == Publish(events[n].msg, last.reports[i - |before.out|]);
        }
      }
    }
  }

  /** Whatever clean messages arrive, each row of the run is clean, so each row survives being written and split. */
  lemma RunClean(events: seq<Event>)
    requires CleanInputs(events)
    ensures CleanMarket(Run(events).state.market)
    ensures forall i :: 0 <= i < |Run(events).out| ==> CleanMessage(Run(events).out[i])
  {
    hide Run, Publish, Printable, CleanMessage, CleanInputs;
    RunRows(events);
    forall i | 0 <= i < |Run(events).out|
      ensures CleanMessage(Run(events).out[i])
    {
      var r := Run(events).reports[i];
      assert RowPublishes(events, r, Run(events).out[i]);
      var k :| 0 <= k < |events| && Run(events).out[i] == Publish(events[k].msg, r) && Printable(events[k].msg, r);
      PrintableClean(events[k].msg, r);
    }
  }

  lemma NextId(s: State, e: Event)
    ensures Handle(s, e).state.nextOid == s.nextOid + 1
  {
  }

  lemma EmptyClean()
    ensures CleanMarket(EMPTY_MARKET)
  {
  }

  lemma NamesInjective(a: Option<Instrument>, b: Option<Instrument>)
    requires a.Some? && b.Some? && InstrumentText(a) == InstrumentText(b)
    ensures a == b && ParseInstrument(InstrumentText(a)) == a
  {
    assert InstrumentText(a)[0] == 'R' <==> a == Some(Rose);
    assert InstrumentText(a)[0] == 'L' <==> a == Some(Lavender) || a == Some(Lotus);
    assert InstrumentText(b)[0] == 'R' <==> b == Some(Rose);
    assert InstrumentText(b)[0] == 'L' <==> b == Some(Lavender) || b == Some(Lotus);
  }

  lemma StatusInjective(a: ExecStatus, b: ExecStatus)
    requires StatusText(a) == StatusText(b)
    ensures a == b
  {
    assert StatusText(a)[0] == 'N' <==> a == New;
    assert StatusText(b)[0] == 'N' <==> b == New;
  }

  lemma IntTextInjective(a: int, b: int)
    requires IntText(a) == IntText(b)
    ensures a == b
  {
    var x, y := if a < 0 then -a else a, if b < 0 then -b else b;
    DecimalRoundTrip(x);
    DecimalRoundTrip(y);
    assert IntText(a)[0] == '-' <==> a < 0;
    assert IntText(b)[0] == '-' <==> b < 0;
    assert IntText(a)[if a < 0 then 1 else 0..] == Decimal(x);
    assert IntText(b)[if b < 0 then 1 else 0..] == Decimal(y);
  }

  /** Rows that print the same have the same nine texts and numbers. */
  lemma EqualRows(a: Outbound, b: Outbound)
    requires CleanMessage(a) && CleanMessage(b) && RowText(a) == RowText(b)
    ensures a.oid == b.oid && a.coid == b.coid && a.instrument == b.instrument && a.side == b.side
    ensures a.status == b.status && a.quantity == b.quantity && a.priceText == b.priceText
    ensures a.reason == b.reason && a.timestamp == b.timestamp
  {
    hide Join, Split, IntText, CleanMessage;
    FieldsFromRow(a);
    FieldsFromRow(b);
    assert Fields(a) == Fields(b);
    assert Fields(a)[0] == Fields(b)[0] && Fields(a)[1] == Fields(b)[1] && Fields(a)[2] == Fields(b)[2];
    assert Fields(a)[3] == Fields(b)[3] && Fields(a)[4] == Fields(b)[4] && Fields(a)[5] == Fields(b)[5];
    assert Fields(a)[6] == Fields(b)[6] && Fields(a)[7] == Fields(b)[7] && Fields(a)[8] == Fields(b)[8];
    IntTextInjective(a.side, b.side);
    IntTextInjective(a.quantity, b.quantity);
  }

  /** Two reports that print the same row are the same report, rejects included. */
  lemma RowDeterminesReport(m: Message, r: Report, m': Message, r': Report)
    requires Printable(m, r) && Printable(m', r')
    requires RowText(Publish(m, r)) == RowText(Publish(m', r'))
    ensures r == r'
  {
    hide RowText, InstrumentText, StatusText, TickText, SignedPriceText, CleanText, CleanStamp, CleanMessage, Refusal;
    PrintableClean(m, r);
    PrintableClean(m', r');
    EqualRows(Publish(m, r), Publish(m', r'));
    StatusInjective(r.status, r'.status);
    if r.status != Rejected {
      NamesInjective(r.instrument, r'.instrument);
      TickTextInjective(r.price, r'.price);
    }
  }

  /** In all runs over clean messages a report row tells everything about its report. */
  lemma RowsTellReports(a: seq<Event>, b: seq<Event>, i: nat, j: nat)
    requires CleanInputs(a) && CleanInputs(b) && i < |Run(a).out| && j < |Run(b).out|
    requires RowText(Run(a).out[i]) == RowText(Run(b).out[j])
    ensures i < |Run(a).reports| && j < |Run(b).reports| && Run(a).reports[i] == Run(b).reports[j]
  {
    hide Run, RowText, Publish, Printable, CleanInputs;
    RunRows(a);
    RunRows(b);
    var r, r' := Run(a).reports[i], Run(b).reports[j];
    assert RowPublishes(a, r, Run(a).out[i]) && RowPublishes(b, r', Run(b).out[j]);
    var k :| 0 <= k < |a| && Run(a).out[i] == Publish(a[k].msg, r) && Printable(a[k].msg, r);
    var l :| 0 <= l < |b| && Run(b).out[j] == Publish(b[l].msg, r') && Printable(b[l].msg, r');
    RowDeterminesReport(a[k].msg, r, b[l].msg, r');
  }

  lemma FieldsFromRow(m: Outbound)
    requires CleanMessage(m)
    ensures Split(StripCr(RowText(m)[..|RowText(m)| - 1])) == Fields(m)
  {
    RowSurvives(m);
  }
}
