/**
 The exchange as a function from its input stream: validate, number, match and report every message
 in turn. This is the sequential meaning that the processor (OrderProcessor.dfy) implements and that
 every interleaving of the pipeline (Pipeline.dfy) is proved to write.
 */
module Exchange {
  import opened Types
  import opened Decimals
  import opened PriceText
  import opened Matching

  // ----- messages -----

  datatype Message = Message(
    coid: string, instrument: string, side: int, quantity: int, price: real, sequence: nat)

  datatype Outbound = Outbound(
    oid: string, coid: string, instrument: string, side: int, status: string, quantity: int,
    priceText: string, reason: string, timestamp: string, sequence: nat)

  /** A message together with the clock text taken when it is consumed. */
  datatype Event = Event(msg: Message, timestamp: string)

  const BUY_CODE: int := 1
  const SELL_CODE: int := 2

  function SideCode(side: Side): int {
    if side == Buy then BUY_CODE else SELL_CODE
  }

  function ParseInstrument(text: string): Option<Instrument> {
    if text == "Rose" then Some(Rose)
    else if text == "Lavender" then Some(Lavender)
    else if text == "Lotus" then Some(Lotus)
    else if text == "Tulip" then Some(Tulip)
    else if text == "Orchid" then Some(Orchid)
    else None
  }

  function InstrumentText(instrument: Option<Instrument>): string {
    match instrument
    case Some(Rose) => "Rose"
    case Some(Lavender) => "Lavender"
    case Some(Lotus) => "Lotus"
    case Some(Tulip) => "Tulip"
    case Some(Orchid) => "Orchid"
    case None => "UNKNOWN"
  }

  function StatusText(status: ExecStatus): string {
    match status
    case New => "New"
    case Rejected => "Reject"
    case Fill => "Fill"
    case PFill => "Pfill"
  }

  /** The reason to refuse an order, or None. */
  function Validate(instrument: Option<Instrument>, side: int, price: real, quantity: int): Option<string> {
    if instrument == None then Some("Invalid instrument")
    else if side != BUY_CODE && side != SELL_CODE then Some("Invalid side")
    else if quantity % QUANTITY_MULTIPLE != 0 || quantity < MIN_QUANTITY || quantity > MAX_QUANTITY then
      Some("Invalid size")
    else if price <= MIN_VALID_PRICE || price > MAX_VALID_PRICE then Some("Invalid price")
    else None
  }

  function Refusal(m: Message): Option<string> {
    Validate(ParseInstrument(m.instrument), m.side, m.price, m.quantity)
  }

  function OrderId(k: nat): string {
    "ord" + Decimal(k)
  }

  /** The order an accepted message becomes. */
  function AcceptedOrder(m: Message, oid: string): Order
    requires Refusal(m) == None
  {
    Order(oid, m.coid, ParseInstrument(m.instrument).value, if m.side == BUY_CODE then Buy else Sell,
          ToTicks(m.price), m.quantity)
  }

  /** The report of a refused message; its quantity field keeps only 16 bits. */
  function RejectReport(m: Message, oid: string, ts: string): Report
    requires Refusal(m).Some?
  {
    Report(oid, m.coid, None, if m.side == SELL_CODE then Sell else Buy, 0,
           (if m.quantity > 0 then m.quantity else 0) % 0x1_0000, Rejected, Refusal(m).value, ts)
  }

  /** The outbound form: a reject echoes the client's own instrument, side and price. */
  function Publish(m: Message, r: Report): Outbound {
    if r.status == Rejected then
      Outbound(r.oid, r.coid, m.instrument, m.side, StatusText(r.status), r.quantity,
               SignedPriceText(m.price), r.reason, r.timestamp, m.sequence)
    else
      Outbound(r.oid, r.coid, InstrumentText(r.instrument), SideCode(r.side), StatusText(r.status), r.quantity,
               TickText(r.price), r.reason, r.timestamp, m.sequence)
  }

  function PublishAll(m: Message, rs: seq<Report>): (out: seq<Outbound>)
    ensures |out| == |rs| && forall i :: 0 <= i < |rs| ==> out[i] == Publish(m, rs[i])
  {
    if rs == [] then [] else [Publish(m, rs[0])] + PublishAll(m, rs[1..])
  }

  // ----- the run -----

  const INSTRUMENTS: nat := 5

  function Index(instrument: Instrument): (i: nat)
    ensures i < INSTRUMENTS
  {
    match instrument
    case Rose => 0
    case Lavender => 1
    case Lotus => 2
    case Tulip => 3
    case Orchid => 4
  }

  const NO_ORDERS: Books := Books([], [])

  type Market = m: seq<Books> | |m| == INSTRUMENTS witness [NO_ORDERS, NO_ORDERS, NO_ORDERS, NO_ORDERS, NO_ORDERS]

  const EMPTY_MARKET: Market := [NO_ORDERS, NO_ORDERS, NO_ORDERS, NO_ORDERS, NO_ORDERS]

  datatype State = State(nextOid: nat, market: Market)

  const INITIAL: State := State(1, EMPTY_MARKET)

  datatype Outcome = Outcome(state: State, reports: seq<Report>, out: seq<Outbound>)

  /** One message: a fresh id, then either a single reject or the matching of one order. */
  function Handle(s: State, e: Event): Outcome {
    var oid := OrderId(s.nextOid);
    if Refusal(e.msg).Some? then
      var reports := [RejectReport(e.msg, oid, e.timestamp)];
      Outcome(State(s.nextOid + 1, s.market), reports, PublishAll(e.msg, reports))
    else
      var order := AcceptedOrder(e.msg, oid);
      var i := Index(order.instrument);
      var p := Process(s.market[i], order, e.timestamp);
      Outcome(State(s.nextOid + 1, s.market[i := p.books]), p.reports, PublishAll(e.msg, p.reports))
  }

  /** The whole run, reports in emission order. */
  function Run(events: seq<Event>): Outcome {
    if events == [] then Outcome(INITIAL, [], [])
    else
      var before := Run(events[..|events| - 1]);
      var last := Handle(before.state, events[|events| - 1]);
      Outcome(last.state, before.reports + last.reports, before.out + last.out)
  }

  // ----- what every reachable market satisfies -----

  ghost predicate GoodMarket(market: Market) {
    forall instrument: Instrument :: GoodBooks(instrument, market[Index(instrument)])
  }

  /** Validation bounds the tick of an accepted order to the dense books' index range. */
  lemma AcceptedInRange(m: Message, oid: string)
    requires Refusal(m) == None
    ensures AcceptedOrder(m, oid).price < TICK_CAPACITY
  {
    assert m.price * TICKS_PER_UNIT <= 100000.0;
  }

  /** The id of message `k`: "ord" and the decimal text of `k`. */
  lemma OrderIdText(k: nat)
    ensures var id := OrderId(k);
            && |id| > 3 && id[..3] == "ord" && AllDigits(id[3..]) && Value(id[3..]) == k && (id[3] == '0' ==> k == 0)
  {
    DecimalRoundTrip(k);
    DecimalShortest(k);
    assert OrderId(k)[3..] == Decimal(k);
  }

  // ----- what a message asks for -----

  predicate NamesFlower(text: string) {
    text in ["Rose", "Lavender", "Lotus", "Tulip", "Orchid"]
  }

  ghost predicate IsLots(quantity: int) {
    exists lots: nat :: 1 <= lots <= 100 && quantity == 10 * lots
  }

  /** The first fault of a message, in the order and the words of the order format; a sound one is accepted. */
  lemma RefusalIsFirstFault(m: Message)
    ensures Refusal(m) ==
            if !NamesFlower(m.instrument) then Some("Invalid instrument")
            else if m.side != 1 && m.side != 2 then Some("Invalid side")
            else if !IsLots(m.quantity) then Some("Invalid size")
            else if !(0.0 < m.price <= 1000.0) then Some("Invalid price")
            else None
  {
    if m.quantity >= 0 && m.quantity % 10 == 0 {
      var lots: nat := m.quantity / 10;
      assert m.quantity == 10 * lots;
    }
    assert MAX_VALID_PRICE == 1000.0;
  }

  /** What validation lets through, in the numbers of the order format. */
  lemma AcceptsExactly(m: Message)
    ensures Refusal(m) == None <==>
            && m.instrument in ["Rose", "Lavender", "Lotus", "Tulip", "Orchid"]
            && m.side in {1, 2}
            && (exists lots: nat :: 1 <= lots <= 100 && m.quantity == 10 * lots)
            && 0.0 < m.price <= 1000.0
  {
    hide Refusal;
    RefusalIsFirstFault(m);
  }

  /** `tick` is the whole number of hundredths nearest to `price`, halves up. */
  predicate IsNearestTick(price: real, tick: int) {
    tick as real - 0.5 <= 100.0 * price < tick as real + 0.5
  }

  ghost predicate IsNamed(text: string, instrument: Instrument) {
    && (instrument == Rose <==> text == "Rose") && (instrument == Lavender <==> text == "Lavender")
    && (instrument == Lotus <==> text == "Lotus") && (instrument == Tulip <==> text == "Tulip")
    && (instrument == Orchid <==> text == "Orchid")
  }

  /** `o` is what `m` asks for: codes, name, texts and amounts are the message's own. */
  ghost predicate AsksFor(m: Message, o: Order) {
    && o.coid == m.coid && o.quantity == m.quantity && IsNamed(m.instrument, o.instrument)
    && (o.side == Buy <==> m.side == 1) && (o.side == Sell <==> m.side == 2)
    && IsNearestTick(m.price, o.price)
  }

  /** An accepted message becomes the order it asks for, under the id it was given. */
  lemma AdmittedAs(m: Message, oid: string)
    requires Refusal(m) == None
    ensures var o := AcceptedOrder(m, oid); o.oid == oid && o.quantity > 0 && AsksFor(m, o)
  {
    var o := AcceptedOrder(m, oid);
    NamesMatch(m.instrument);
    assert m.price * TICKS_PER_UNIT <= 100000.0;
  }

  lemma NamesMatch(text: string)
    requires ParseInstrument(text).Some?
    ensures IsNamed(text, ParseInstrument(text).value) && text == InstrumentText(ParseInstrument(text))
  {
  }

  /** The two ways a message goes. */
  lemma HandleRefused(s: State, e: Event)
    requires Refusal(e.msg).Some?
    ensures var reports := [RejectReport(e.msg, OrderId(s.nextOid), e.timestamp)];
            Handle(s, e) == Outcome(State(s.nextOid + 1, s.market), reports, PublishAll(e.msg, reports))
  {
  }

  lemma HandleAccepted(s: State, e: Event)
    requires Refusal(e.msg) == None
    ensures var order := AcceptedOrder(e.msg, OrderId(s.nextOid));
            var i := Index(order.instrument);
            var p := Process(s.market[i], order, e.timestamp);
            Handle(s, e) == Outcome(State(s.nextOid + 1, s.market[i := p.books]), p.reports,
                                    PublishAll(e.msg, p.reports))
  {
  }

  lemma {:induction false} SweepStamps(inc: Order, opp: seq<Order>, ts: string)
    ensures forall i :: 0 <= i < |Sweep(inc, opp, ts).reports| ==>
              var r := Sweep(inc, opp, ts).reports[i]; r.timestamp == ts && r.status != Rejected && r.reason == ""
    decreases |opp| + inc.quantity
  {
    if CanTrade(inc, opp) {
      var first := TradeStep(inc, opp, ts);
      SweepStamps(first.inc, first.opp, ts);
    }
  }

  /** Every row a message causes carries its sequence number and the one clock text taken for it. */
  lemma RowsStamped(s: State, e: Event)
    ensures forall i :: 0 <= i < |Handle(s, e).out| ==>
              Handle(s, e).out[i].timestamp == e.timestamp && Handle(s, e).out[i].sequence == e.msg.sequence
  {
    hide Refusal, OrderId, AcceptedOrder, Sweep, Enqueue, SignedPriceText, TickText;
    if Refusal(e.msg) == None {
      var order := AcceptedOrder(e.msg, OrderId(s.nextOid));
      SweepStamps(order, s.market[Index(order.instrument)].Queue(Opposite(order.side)), e.timestamp);
    }
  }

  /** Row `i` of a run publishes report `i`. */
  lemma {:induction false} RunPublishes(events: seq<Event>)
    ensures |Run(events).out| == |Run(events).reports|
    ensures forall i :: 0 <= i < |Run(events).out| ==> Run(events).out[i].oid == Run(events).reports[i].oid
  {
    hide Handle;
    if events != [] {
      var n := |events| - 1;
      RunPublishes(events[..n]);
      HandlePublishes(Run(events[..n]).state, events[n]);
    }
  }

  lemma HandlePublishes(s: State, e: Event)
    ensures |Handle(s, e).out| == |Handle(s, e).reports|
    ensures forall i :: 0 <= i < |Handle(s, e).out| ==> Handle(s, e).out[i].oid == Handle(s, e).reports[i].oid
  {
    hide Process, Refusal, AcceptedOrder, RejectReport, OrderId;
  }

  /**
   An accepted price may still round to tick 0: validation asks for a positive price, not for a whole tick.
   It rounds to at least one tick exactly from half a tick up.
   */
  lemma AcceptedTickPositive(m: Message, oid: string)
    requires Refusal(m) == None
    ensures AcceptedOrder(m, oid).price >= 1 <==> m.price >= 0.005
  {
  }

  /** A tenth of a tick is accepted, and rests at tick 0. */
  lemma TinyPriceAccepted()
    ensures var m := Message("c", "Rose", BUY_CODE, 10, 0.001, 1);
            Refusal(m) == None && AcceptedOrder(m, "ord1").price == 0
  {
  }

  /** A reject repeats the client's quantity exactly when that fits in 16 bits. */
  lemma RejectEchoesQuantity(m: Message, oid: string, ts: string)
    requires Refusal(m).Some?
    ensures RejectReport(m, oid, ts).quantity == m.quantity <==> 0 <= m.quantity < 0x1_0000
  {
  }

  /** An order for 70000 lots is rejected with a report for 4464. */
  lemma LargeQuantityWraps()
    ensures var m := Message("c", "Rose", BUY_CODE, 70000, 1.0, 1);
            Refusal(m) == Some("Invalid size") && RejectReport(m, "ord1", "").quantity == 4464
  {
  }

  /** Every resting order of `q` fits the dense book and holds a legal amount. */
  ghost predicate LegalQueue(q: seq<Order>) {
    forall i :: 0 <= i < |q| ==>
      q[i].price < TICK_CAPACITY && q[i].quantity % QUANTITY_MULTIPLE == 0 && 0 < q[i].quantity <= MAX_QUANTITY
  }

  ghost predicate LegalBooks(b: Books) {
    LegalQueue(b.bids) && LegalQueue(b.asks)
  }

  lemma {:induction false} SweepLegal(inc: Order, opp: seq<Order>, ts: string)
    requires LegalQueue(opp) && inc.quantity % QUANTITY_MULTIPLE == 0
    ensures LegalQueue(Sweep(inc, opp, ts).opp) && Sweep(inc, opp, ts).inc.quantity % QUANTITY_MULTIPLE == 0
    decreases |opp| + inc.quantity
  {
    if CanTrade(inc, opp) {
      var first := TradeStep(inc, opp, ts);
      assert LegalQueue(opp[1..]);
      SweepLegal(first.inc, first.opp, ts);
    }
  }

  lemma ProcessLegal(b: Books, inc: Order, ts: string)
    requires GoodBooks(inc.instrument, b) && LegalBooks(b)
    requires LegalQueue([inc])
    ensures LegalBooks(Process(b, inc, ts).books)
  {
    hide Sweep, Enqueue, Sorted, Uncrossed;
    assert [inc][0] == inc;
    var opp, own := b.Queue(Opposite(inc.side)), b.Queue(inc.side);
    var s := Sweep(inc, opp, ts);
    SweepLegal(inc, opp, ts);
    SweepGood(inc, opp, ts);
    if s.inc.quantity > 0 {
      EnqueueLegal(inc.side, own, s.inc);
    }
  }

  lemma {:induction false} EnqueueLegal(side: Side, q: seq<Order>, o: Order)
    requires LegalQueue(q) && LegalQueue([o])
    ensures LegalQueue(Enqueue(side, q, o))
  {
    assert [o][0] == o;
    if !(q == [] || Better(side, o.price, q[0].price)) {
      EnqueueLegal(side, q[1..], o);
    }
  }

  // ----- unfolding and growing a run -----

  lemma RunStart()
    ensures Run([]) == Outcome(INITIAL, [], [])
  {
  }

  lemma RunNext(events: seq<Event>, e: Event)
    ensures var before := Run(events);
            var last := Handle(before.state, e);
            Run(events + [e]) == Outcome(last.state, before.reports + last.reports, before.out + last.out)
  {
    hide Handle;
    assert (events + [e])[..|events|] == events;
  }

  lemma RunExtends(events: seq<Event>, i: nat)
    requires i < |events|
    ensures var before := Run(events[..i]);
            var last := Handle(before.state, events[i]);
            Run(events[..i + 1]) == Outcome(last.state, before.reports + last.reports, before.out + last.out)
  {
    hide Handle, Run;
    assert events[..i + 1] == events[..i] + [events[i]];
    RunNext(events[..i], events[i]);
  }

  lemma {:induction false} RunOutGrows(events: seq<Event>, k: nat)
    requires k <= |events|
    ensures Run(events[..k]).out <= Run(events).out
  {
    hide Handle;
    if k < |events| {
      RunOutGrows(events[..|events| - 1], k);
      assert events[..|events| - 1][..k] == events[..k];
    } else {
      assert events[..k] == events;
    }
  }

  // ----- the clock -----

  /** The same reports but for their clock texts. */
  ghost predicate SameReports(a: seq<Report>, b: seq<Report>) {
    |a| == |b| && forall i :: 0 <= i < |a| ==> a[i].(timestamp := "") == b[i].(timestamp := "")
  }

  /** The same rows but for their clock texts. */
  ghost predicate SameRows(a: seq<Outbound>, b: seq<Outbound>) {
    |a| == |b| && forall i :: 0 <= i < |a| ==> a[i].(timestamp := "") == b[i].(timestamp := "")
  }

  ghost predicate SameMessages(a: seq<Event>, b: seq<Event>) {
    |a| == |b| && forall i :: 0 <= i < |a| ==> a[i].msg == b[i].msg
  }

  lemma {:induction false} SweepUntimed(inc: Order, opp: seq<Order>, a: string, b: string)
    ensures Sweep(inc, opp, a).inc == Sweep(inc, opp, b).inc && Sweep(inc, opp, a).opp == Sweep(inc, opp, b).opp
    ensures SameReports(Sweep(inc, opp, a).reports, Sweep(inc, opp, b).reports)
    decreases |opp| + inc.quantity
  {
    if CanTrade(inc, opp) {
      var first := TradeStep(inc, opp, a);
      SweepUntimed(first.inc, first.opp, a, b);
    }
  }

  lemma ProcessUntimed(books: Books, inc: Order, a: string, b: string)
    ensures Process(books, inc, a).books == Process(books, inc, b).books
    ensures SameReports(Process(books, inc, a).reports, Process(books, inc, b).reports)
  {
    hide Sweep, Enqueue;
    SweepUntimed(inc, books.Queue(Opposite(inc.side)), a, b);
  }

  lemma HandleUntimed(s: State, m: Message, a: string, b: string)
    ensures Handle(s, Event(m, a)).state == Handle(s, Event(m, b)).state
    ensures SameReports(Handle(s, Event(m, a)).reports, Handle(s, Event(m, b)).reports)
    ensures SameRows(Handle(s, Event(m, a)).out, Handle(s, Event(m, b)).out)
  {
    hide Process, Handle, PublishAll, Refusal, AcceptedOrder, OrderId, SameReports, SameRows;
    if Refusal(m) == None {
      HandleAccepted(s, Event(m, a));
      HandleAccepted(s, Event(m, b));
      var order := AcceptedOrder(m, OrderId(s.nextOid));
      ProcessUntimed(s.market[Index(order.instrument)], order, a, b);
    } else {
      HandleRefused(s, Event(m, a));
      HandleRefused(s, Event(m, b));
      RejectUntimed(m, OrderId(s.nextOid), a, b);
    }
    PublishUntimed(m, Handle(s, Event(m, a)).reports, Handle(s, Event(m, b)).reports);
  }

  lemma RejectUntimed(m: Message, oid: string, a: string, b: string)
    requires Refusal(m).Some?
    ensures SameReports([RejectReport(m, oid, a)], [RejectReport(m, oid, b)])
  {
    hide Refusal;
  }

  lemma PublishUntimed(m: Message, a: seq<Report>, b: seq<Report>)
    requires SameReports(a, b)
    ensures SameRows(PublishAll(m, a), PublishAll(m, b))
  {
    hide SignedPriceText, TickText, InstrumentText, StatusText;
    forall i | 0 <= i < |a|
      ensures Publish(m, a[i]).(timestamp := "") == Publish(m, b[i]).(timestamp := "")
    {
      assert a[i].(timestamp := "") == b[i].(timestamp := "");
      assert b[i] == a[i].(timestamp := b[i].timestamp);
    }
  }

  /** Clock texts are printed and otherwise ignored: same market, and same reports and rows but for the clock. */
  lemma {:induction false} RunUntimed(a: seq<Event>, b: seq<Event>)
    requires SameMessages(a, b)
    ensures Run(a).state == Run(b).state
    ensures SameReports(Run(a).reports, Run(b).reports) && SameRows(Run(a).out, Run(b).out)
  {
    hide Handle;
    if a != [] {
      var n := |a| - 1;
      RunUntimed(a[..n], b[..n]);
      HandleUntimed(Run(a[..n]).state, a[n].msg, a[n].timestamp, b[n].timestamp);
      assert a[n] == Event(a[n].msg, a[n].timestamp) && b[n] == Event(a[n].msg, b[n].timestamp);
    }
  }

  // ----- arrival order -----

  /** `ks` numbers the messages behind the orders of `q`, all before `next`; within a price they ascend. */
  ghost predicate Numbered(q: seq<Order>, ks: seq<nat>, next: nat) {
    && |ks| == |q|
    && (forall i :: 0 <= i < |q| ==> 1 <= ks[i] < next && q[i].oid == OrderId(ks[i]))
    && (forall i, j :: 0 <= i < j < |q| && q[i].price == q[j].price ==> ks[i] < ks[j])
  }

  /** Orders of equal price stand in the order in which their messages came. */
  ghost predicate InArrivalOrder(q: seq<Order>, next: nat) {
    exists ks :: Numbered(q, ks, next)
  }

  ghost predicate BooksInArrivalOrder(b: Books, next: nat) {
    InArrivalOrder(b.bids, next) && InArrivalOrder(b.asks, next)
  }

  ghost predicate MarketInArrivalOrder(market: Market, next: nat) {
    forall i :: 0 <= i < INSTRUMENTS ==> BooksInArrivalOrder(market[i], next)
  }

  lemma ArrivalLater(b: Books, next: nat)
    requires BooksInArrivalOrder(b, next)
    ensures BooksInArrivalOrder(b, next + 1)
  {
    var ks :| Numbered(b.bids, ks, next);
    var ls :| Numbered(b.asks, ls, next);
    assert Numbered(b.bids, ks, next + 1) && Numbered(b.asks, ls, next + 1);
  }

  /** What a sweep leaves of a numbered queue is numbered by the tail of the numbers. */
  lemma SweepNumbered(inc: Order, opp: seq<Order>, ts: string, ks: seq<nat>, next: nat) returns (k: nat)
    requires AllPositive(opp) && Numbered(opp, ks, next)
    ensures TakesPrefix(opp, Sweep(inc, opp, ts).opp, k)
    ensures Numbered(Sweep(inc, opp, ts).opp, ks[k..], next) && InArrivalOrder(Sweep(inc, opp, ts).opp, next)
  {
    hide Sweep, OrderId;
    k := SweepTakesPrefix(inc, opp, ts);
    var rest := Sweep(inc, opp, ts).opp;
    assert forall i :: 0 <= i < |rest| ==> rest[i].oid == opp[k + i].oid && rest[i].price == opp[k + i].price;
  }

  /** The newest order queues behind every older one of its price. */
  lemma EnqueueNumbered(side: Side, q: seq<Order>, o: Order, ks: seq<nat>, n: nat)
    requires Sorted(side, q) && Numbered(q, ks, n) && n >= 1 && o.oid == OrderId(n)
    ensures InArrivalOrder(Enqueue(side, q, o), n + 1)
  {
    hide Enqueue, Numbered, OrderId;
    var k := EnqueuePosition(side, q, o);
    InsertNumbered(q, o, ks, n, k);
  }

  lemma InsertNumbered(q: seq<Order>, o: Order, ks: seq<nat>, n: nat, k: nat)
    requires Numbered(q, ks, n) && n >= 1 && o.oid == OrderId(n) && k <= |q|
    requires forall i :: k <= i < |q| ==> q[i].price != o.price
    ensures k <= |ks| && Numbered(q[..k] + [o] + q[k..], ks[..k] + [n] + ks[k..], n + 1)
  {
    hide OrderId;
    var q', ks' := q[..k] + [o] + q[k..], ks[..k] + [n] + ks[k..];
    forall i | 0 <= i < |q'|
      ensures 1 <= ks'[i] < n + 1 && q'[i].oid == OrderId(ks'[i])
    {
      assert i < k ==> q'[i] == q[i] && ks'[i] == ks[i];
      assert i > k ==> q'[i] == q[i - 1] && ks'[i] == ks[i - 1];
    }
    forall i, j | 0 <= i < j < |q'| && q'[i].price == q'[j].price
      ensures ks'[i] < ks'[j]
    {
      var i0, j0 := if i < k then i else i - 1, if j < k then j else j - 1;
      assert i != k ==> q'[i] == q[i0] && ks'[i] == ks[i0];
      assert j != k ==> q'[j] == q[j0] && ks'[j] == ks[j0];
    }
  }

  lemma ProcessKeepsArrivalOrder(b: Books, inc: Order, ts: string, n: nat)
    requires GoodBooks(inc.instrument, b) && BooksInArrivalOrder(b, n) && n >= 1 && inc.oid == OrderId(n)
    ensures BooksInArrivalOrder(Process(b, inc, ts).books, n + 1)
  {
    hide Sweep, Enqueue, Numbered, Uncrossed, OrderId;
    var opp, own := b.Queue(Opposite(inc.side)), b.Queue(inc.side);
    var ks :| Numbered(opp, ks, n);
    var ls :| Numbered(own, ls, n);
    var k := SweepNumbered(inc, opp, ts, ks, n);
    SweepGood(inc, opp, ts);
    var s := Sweep(inc, opp, ts);
    assert InArrivalOrder(s.opp, n) && InArrivalOrder(own, n);
    ArrivalLater(b.With(Opposite(inc.side), s.opp), n);
    if s.inc.quantity > 0 {
      EnqueueNumbered(inc.side, own, s.inc, ls, n);
    }
  }

  // ----- the invariant of every reachable market -----

  /**
   No reachable market is crossed, and every resting order lies in the queue of its own instrument and
   side, by price and within a price by arrival, at a tick below capacity, with a positive multiple of ten
   up to 1000.
   */
  lemma {:induction false} RunKeepsMarketGood(events: seq<Event>)
    ensures Run(events).state.nextOid == |events| + 1
    ensures GoodMarket(Run(events).state.market)
    ensures forall i :: 0 <= i < INSTRUMENTS ==> LegalBooks(Run(events).state.market[i])
    ensures MarketInArrivalOrder(Run(events).state.market, |events| + 1)
  {
    hide Handle, LegalBooks, MarketInArrivalOrder, GoodMarket;
    if events == [] {
      EmptyMarketGood();
    } else {
      var before, e := Run(events[..|events| - 1]).state, events[|events| - 1];
      RunKeepsMarketGood(events[..|events| - 1]);
      HandleKeepsMarketGood(before, e);
    }
  }

  lemma EmptyMarketGood()
    ensures GoodMarket(EMPTY_MARKET) && MarketInArrivalOrder(EMPTY_MARKET, 1)
    ensures forall i :: 0 <= i < INSTRUMENTS ==> LegalBooks(EMPTY_MARKET[i])
  {
    assert Numbered([], [], 1);
  }

  lemma HandleKeepsMarketGood(s: State, e: Event)
    requires GoodMarket(s.market) && MarketInArrivalOrder(s.market, s.nextOid) && s.nextOid >= 1
    requires forall i :: 0 <= i < INSTRUMENTS ==> LegalBooks(s.market[i])
    ensures GoodMarket(Handle(s, e).state.market) && Handle(s, e).state.nextOid == s.nextOid + 1
    ensures forall i :: 0 <= i < INSTRUMENTS ==> LegalBooks(Handle(s, e).state.market[i])
    ensures MarketInArrivalOrder(Handle(s, e).state.market, s.nextOid + 1)
  {
    hide Process, GoodBooks, LegalBooks, BooksInArrivalOrder, OrderId, PublishAll, ToTicks;
    forall i | 0 <= i < INSTRUMENTS
      ensures BooksInArrivalOrder(s.market[i], s.nextOid + 1)
    {
      ArrivalLater(s.market[i], s.nextOid);
    }
    if Refusal(e.msg) == None {
      var order := AcceptedOrder(e.msg, OrderId(s.nextOid));
      AcceptedInRange(e.msg, OrderId(s.nextOid));
      ProcessKeepsBooksGood(s.market[Index(order.instrument)], order, e.timestamp);
      ProcessLegal(s.market[Index(order.instrument)], order, e.timestamp);
      ProcessKeepsArrivalOrder(s.market[Index(order.instrument)], order, e.timestamp, s.nextOid);
    }
  }

  /** `i` comes before `j`: at a better price, or at the same price with the earlier message. */
  ghost predicate Precedes(side: Side, q: seq<Order>, ks: seq<nat>, i: nat, j: nat)
    requires i < |q| == |ks| && j < |q|
  {
    || (if side == Buy then q[i].price > q[j].price else q[i].price < q[j].price)
    || (q[i].price == q[j].price && ks[i] < ks[j])
  }

  /**
   Price-time priority in every run: the orders that the next message hits are exactly the first `k` of the
   opposite queue, plus possibly the next one in part, and every order of that queue precedes all behind it by
   price and then by the number of its message.
   */
  lemma PriceTimePriority(events: seq<Event>, e: Event) returns (k: nat, ks: seq<nat>)
    requires Refusal(e.msg) == None
    ensures var order := AcceptedOrder(e.msg, OrderId(|events| + 1));
            var side := Opposite(order.side);
            var opp := Run(events).state.market[Index(order.instrument)].Queue(side);
            var opp' := Run(events + [e]).state.market[Index(order.instrument)].Queue(side);
            && TakesPrefix(opp, opp', k) && Numbered(opp, ks, |events| + 1)
            && forall i, j :: 0 <= i < j < |opp| ==> Precedes(side, opp, ks, i, j)
  {
    hide Sweep, Enqueue, Numbered, Uncrossed, OrderId, AcceptedOrder, Run, PublishAll, Refusal, LegalBooks, TakesPrefix;
    var s := Run(events).state;
    RunKeepsMarketGood(events);
    RunNext(events, e);
    HandleAccepted(s, e);
    var order := AcceptedOrder(e.msg, OrderId(s.nextOid));
    var b := s.market[Index(order.instrument)];
    assert GoodBooks(order.instrument, b) && BooksInArrivalOrder(b, s.nextOid);
    var opp := b.Queue(Opposite(order.side));
    ks :| Numbered(opp, ks, s.nextOid);
    k := SweepNumbered(order, opp, e.timestamp, ks, s.nextOid);
    SortedPrecedes(Opposite(order.side), opp, ks, s.nextOid);
  }

  lemma SortedPrecedes(side: Side, q: seq<Order>, ks: seq<nat>, next: nat)
    requires Sorted(side, q) && Numbered(q, ks, next)
    ensures forall i, j :: 0 <= i < j < |q| ==> Precedes(side, q, ks, i, j)
  {
    hide OrderId;
  }

  // ----- every report belongs to a message -----

  ghost predicate Owned(oid: string, next: nat) {
    exists k: nat :: 1 <= k < next && oid == OrderId(k)
  }

  ghost predicate OwnedQueue(q: seq<Order>, next: nat) {
    forall i :: 0 <= i < |q| ==> Owned(q[i].oid, next)
  }

  ghost predicate OwnedReports(rs: seq<Report>, next: nat) {
    forall i :: 0 <= i < |rs| ==> Owned(rs[i].oid, next)
  }

  lemma {:induction false} SweepOwned(inc: Order, opp: seq<Order>, ts: string, next: nat)
    requires Owned(inc.oid, next) && OwnedQueue(opp, next)
    ensures Sweep(inc, opp, ts).inc.oid == inc.oid && OwnedReports(Sweep(inc, opp, ts).reports, next)
    decreases |opp| + inc.quantity
  {
    hide Owned;
    if CanTrade(inc, opp) {
      var first := TradeStep(inc, opp, ts);
      SweepOwned(first.inc, first.opp, ts, next);
    }
  }

  lemma NumberedOwned(q: seq<Order>, next: nat)
    requires InArrivalOrder(q, next)
    ensures OwnedQueue(q, next + 1)
  {
    hide OrderId;
  }

  lemma ProcessOwned(b: Books, inc: Order, ts: string, n: nat)
    requires BooksInArrivalOrder(b, n) && n >= 1 && inc.oid == OrderId(n)
    ensures OwnedReports(Process(b, inc, ts).reports, n + 1)
  {
    hide Sweep, Enqueue, OrderId, InArrivalOrder;
    assert Owned(inc.oid, n + 1);
    NumberedOwned(b.Queue(Opposite(inc.side)), n);
    SweepOwned(inc, b.Queue(Opposite(inc.side)), ts, n + 1);
  }

  lemma HandleOwned(s: State, e: Event)
    requires MarketInArrivalOrder(s.market, s.nextOid) && s.nextOid >= 1
    ensures OwnedReports(Handle(s, e).reports, s.nextOid + 1)
  {
    hide Process, OrderId, PublishAll, Refusal, AcceptedOrder, RejectReport, BooksInArrivalOrder;
    if Refusal(e.msg) == None {
      HandleAccepted(s, e);
      AcceptedId(e.msg, OrderId(s.nextOid));
      var order := AcceptedOrder(e.msg, OrderId(s.nextOid));
      ProcessOwned(s.market[Index(order.instrument)], order, e.timestamp, s.nextOid);
    } else {
      HandleRefused(s, e);
      RefusedId(e.msg, OrderId(s.nextOid), e.timestamp);
      assert Owned(OrderId(s.nextOid), s.nextOid + 1);
    }
  }

  lemma AcceptedId(m: Message, oid: string)
    requires Refusal(m) == None
    ensures AcceptedOrder(m, oid).oid == oid
  {
  }

  lemma RefusedId(m: Message, oid: string, ts: string)
    requires Refusal(m).Some?
    ensures RejectReport(m, oid, ts).oid == oid
  {
  }

  lemma OwnedLonger(rs: seq<Report>, next: nat)
    requires OwnedReports(rs, next)
    ensures OwnedReports(rs, next + 1)
  {
    hide OrderId;
  }

  /** Every report of a run is about one of its messages. */
  lemma {:induction false} ReportsOwned(events: seq<Event>)
    ensures OwnedReports(Run(events).reports, |events| + 1)
  {
    hide Handle, Owned, LegalBooks;
    if events != [] {
      var n := |events| - 1;
      ReportsOwned(events[..n]);
      RunKeepsMarketGood(events[..n]);
      HandleOwned(Run(events[..n]).state, events[n]);
      OwnedLonger(Run(events[..n]).reports, n + 1);
    }
  }

  /** A message about one instrument leaves the books of every other instrument alone. */
  lemma HandleIsolatesInstruments(s: State, e: Event, i: nat)
    requires i < INSTRUMENTS
    requires Refusal(e.msg).Some? || i != Index(AcceptedOrder(e.msg, OrderId(s.nextOid)).instrument)
    ensures Handle(s, e).state.market[i] == s.market[i]
  {
  }
}
