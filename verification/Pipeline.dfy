/**
 The three threads of a file run as a step relation: producer, matcher and writer over two bounded FIFO
 queues and two done flags. Each step does at most one load, store, push or pop on shared state, so every
 loop guard that reads two shared things is two steps. A schedule picks who moves; nothing is assumed of it.
 */
module Pipeline {
  import opened Exchange
  import opened CsvProducer
  import opened CsvWriter

  datatype Thread = Producing | Matching | Writing

  /** One move of a schedule: who, and what the clock text is should that process look. */
  datatype Move = Move(who: Thread, clock: string)

  datatype Config = Config(lines: seq<string>, inboundCapacity: nat, outboundCapacity: nat)

  type Setup = c: Config | c.inboundCapacity > 0 && c.outboundCapacity > 0 witness Config([], 1, 1)

  // Program counters, holding the local variables that are live only there.

  datatype ProducerPc =
    | Reading | Pushing(msg: Message) | PushingEnd | StoringProduced | RaisingProducerDone | ProducerExited

  datatype MatcherPc =
    | Guarding | Popping | Emitting(pending: seq<Outbound>) | StoringConsumed | RaisingMatcherDone | MatcherExited

  datatype WriterPc = LoadingFlag | TestingEmpty | Draining | Closed

  /** The producer's locals, and the shared counter and flag that only it writes. */
  datatype Producer = Producer(
    pc: ProducerPc, lines: seq<string>, firstRow: bool, sequence: nat, produced: nat, producedOrders: nat, done: bool)

  /** The matcher's locals and its exchange, and the shared counter and flag that only it writes. */
  datatype Matcher = Matcher(
    pc: MatcherPc, gotEnd: bool, exchange: State, handled: seq<Event>, consumedOrders: nat, done: bool)

  /** The writer: the messages it popped, the text it flushed to the file, and the text it still holds back. */
  datatype Writer = Writer(pc: WriterPc, written: seq<Outbound>, file: string, batch: string)

  datatype System = System(
    producer: Producer, matcher: Matcher, writer: Writer, inbound: seq<Token>, outbound: seq<Outbound>, aborted: bool)

  /** Before the threads start: empty queues, a reset exchange and fresh flags. */
  function Initial(c: Setup): System {
    System(Producer(Reading, c.lines, true, 1, 0, 0, false), Matcher(Guarding, false, INITIAL, [], 0, false),
           Writer(LoadingFlag, [], "", HEADER), [], [], false)
  }

  // ----- steps -----

  datatype ProducerMove = ProducerMove(producer: Producer, inbound: seq<Token>, aborted: bool)

  /** produce: read a row, or push, or finish. */
  function Produces(p: Producer, inbound: seq<Token>, capacity: nat): ProducerMove {
    match p.pc
    case Reading =>
      if p.lines == [] then ProducerMove(p.(pc := PushingEnd), inbound, false)
      else if p.firstRow || |FieldsOf(p.lines[0])| < 5 then
        ProducerMove(p.(lines := p.lines[1..], firstRow := false), inbound, false)
      else
        var m := MessageOf(FieldsOf(p.lines[0]), p.sequence);
        if m.Err? then ProducerMove(p, inbound, true)
        else
          ProducerMove(p.(pc := Pushing(m.value), lines := p.lines[1..], sequence := p.sequence + 1,
                          produced := p.produced + 1), inbound, false)
    case Pushing(m) =>
      if |inbound| < capacity then ProducerMove(p.(pc := Reading), inbound + [Token.Row(m)], false)
      else ProducerMove(p, inbound, false)
    case PushingEnd =>
      if |inbound| < capacity then ProducerMove(p.(pc := StoringProduced), inbound + [End], false)
      else ProducerMove(p, inbound, false)
    case StoringProduced => ProducerMove(p.(producedOrders := p.produced, pc := RaisingProducerDone), inbound, false)
    case RaisingProducerDone => ProducerMove(p.(done := true, pc := ProducerExited), inbound, false)
    case ProducerExited => ProducerMove(p, inbound, false)
  }

  datatype MatcherMove = MatcherMove(matcher: Matcher, inbound: seq<Token>, outbound: seq<Outbound>)

  /** consume: the guard reads producer_done only after the end of stream came; a popped order is handled at once. */
  function Matches(m: Matcher, inbound: seq<Token>, outbound: seq<Outbound>, capacity: nat,
                   producerDone: bool, clock: string): MatcherMove {
    match m.pc
    case Guarding =>
      MatcherMove(m.(pc := if !m.gotEnd || !producerDone then Popping else StoringConsumed), inbound, outbound)
    case Popping =>
      if inbound == [] then MatcherMove(m.(pc := Guarding), inbound, outbound)
      else if inbound[0].Row? then
        var e := Event(inbound[0].msg, clock);
        var o := Handle(m.exchange, e);
        MatcherMove(m.(pc := Emitting(o.out), exchange := o.state, handled := m.handled + [e]), inbound[1..], outbound)
      else MatcherMove(m.(pc := Guarding, gotEnd := true), inbound[1..], outbound)
    case Emitting(pending) =>
      if pending == [] then MatcherMove(m.(pc := Guarding), inbound, outbound)
      else if |outbound| < capacity then
        MatcherMove(m.(pc := Emitting(pending[1..])), inbound, outbound + [pending[0]])
      else MatcherMove(m, inbound, outbound)
    case StoringConsumed =>
      MatcherMove(m.(consumedOrders := |m.handled|, pc := RaisingMatcherDone), inbound, outbound)
    case RaisingMatcherDone => MatcherMove(m.(done := true, pc := MatcherExited), inbound, outbound)
    case MatcherExited => MatcherMove(m, inbound, outbound)
  }

  /** One more row: into the batch, which is flushed when it has grown large. */
  function Appends(w: Writer, m: Outbound): Writer {
    var batch := w.batch + RowText(m);
    if |batch| >= BATCH_LIMIT then Writer(LoadingFlag, w.written + [m], w.file + batch, "")
    else Writer(LoadingFlag, w.written + [m], w.file, batch)
  }

  /** After the loop: flush what is left and close. */
  function Closes(w: Writer): Writer {
    Writer(Closed, w.written, w.file + w.batch, "")
  }

  datatype WriterMove = WriterMove(writer: Writer, outbound: seq<Outbound>)

  /** drain: the flag first, then the queue, then a pop. */
  function Writes(w: Writer, outbound: seq<Outbound>, matcherDone: bool): WriterMove {
    match w.pc
    case LoadingFlag => WriterMove(w.(pc := if matcherDone then TestingEmpty else Draining), outbound)
    case TestingEmpty => WriterMove(if outbound == [] then Closes(w) else w.(pc := Draining), outbound)
    case Draining =>
      if outbound == [] then WriterMove(w.(pc := LoadingFlag), outbound)
      else WriterMove(Appends(w, outbound[0]), outbound[1..])
    case Closed => WriterMove(w, outbound)
  }

  /** One step of the system; a process that threw takes the others with it. */
  function Step(c: Setup, s: System, move: Move): System {
    if s.aborted then s
    else match move.who
      case Producing =>
        var t := Produces(s.producer, s.inbound, c.inboundCapacity);
        s.(producer := t.producer, inbound := t.inbound, aborted := t.aborted)
      case Matching =>
        var t := Matches(s.matcher, s.inbound, s.outbound, c.outboundCapacity, s.producer.done, move.clock);
        s.(matcher := t.matcher, inbound := t.inbound, outbound := t.outbound)
      case Writing =>
        var t := Writes(s.writer, s.outbound, s.matcher.done);
        s.(writer := t.writer, outbound := t.outbound)
  }

  function Execute(c: Setup, s: System, schedule: seq<Move>): System
    decreases |schedule|
  {
    if schedule == [] then s else Execute(c, Step(c, s, schedule[0]), schedule[1..])
  }

  // ----- what every interleaving keeps -----

  /** The tokens behind a list of handled messages. */
  function Tokens(events: seq<Event>): (tokens: seq<Token>)
    ensures |tokens| == |events| && forall i :: 0 <= i < |events| ==> tokens[i] == Token.Row(events[i].msg)
  {
    if events == [] then [] else Tokens(events[..|events| - 1]) + [Token.Row(events[|events| - 1].msg)]
  }

  /** What the file as a whole sends. */
  function Whole(c: Setup): seq<Token> {
    Stream(c.lines, true, 1)
  }

  /** What the matcher has taken. */
  function Taken(m: Matcher): seq<Token> {
    Tokens(m.handled) + if m.gotEnd then [End] else []
  }

  /** What the rows still unread will send. */
  function Rest(p: Producer): seq<Token> {
    Stream(p.lines, p.firstRow, p.sequence)
  }

  /** What the producer has still to push. */
  function Unsent(p: Producer): seq<Token> {
    match p.pc
    case Reading => Rest(p)
    case Pushing(m) => [Token.Row(m)] + Rest(p)
    case PushingEnd => [End]
    case _ => []
  }

  function Pending(m: Matcher): seq<Outbound> {
    if m.pc.Emitting? then m.pc.pending else []
  }

  /** Number of orders among the tokens. */
  function Orders(tokens: seq<Token>): nat {
    if tokens == [] then 0 else Orders(tokens[1..]) + if tokens[0].Row? then 1 else 0
  }

  /** Messages: what was taken, what is queued and what is unsent make up the file, in order. */
  ghost predicate MessagesConserved(whole: seq<Token>, taken: seq<Token>, inbound: seq<Token>, unsent: seq<Token>) {
    taken + inbound + unsent == whole && Crash !in inbound
  }

  /** Reports: what was written, what is queued and what is pending make up the run so far, in order. */
  ghost predicate ReportsConserved(m: Matcher, outbound: seq<Outbound>, written: seq<Outbound>) {
    var run := Run(m.handled);
    m.exchange == run.state && written + outbound + Pending(m) == run.out
  }

  /** The producer's flag and counters mean what the other threads take them to mean. */
  ghost predicate ProducerTruthful(p: Producer, whole: seq<Token>) {
    && (p.done <==> p.pc.ProducerExited?)
    && (p.pc in {RaisingProducerDone, ProducerExited} ==> p.producedOrders == p.produced)
    && p.produced + (if p.pc.Reading? || p.pc.Pushing? then Orders(Rest(p)) else 0) == Orders(whole)
  }

  ghost predicate MatcherTruthful(m: Matcher, producerDone: bool) {
    && (m.done <==> m.pc.MatcherExited?)
    && (m.pc in {StoringConsumed, RaisingMatcherDone, MatcherExited} ==> m.gotEnd && producerDone)
    && (m.pc in {RaisingMatcherDone, MatcherExited} ==> m.consumedOrders == |m.handled|)
  }

  ghost predicate WriterTruthful(w: Writer, outbound: seq<Outbound>, matcherDone: bool) {
    && (w.pc in {TestingEmpty, Closed} ==> matcherDone)
    && (w.pc == Closed ==> outbound == [])
  }

  /** File and batch together are the header and the rows of what was written; a closed file lacks nothing. */
  ghost predicate TextConserved(w: Writer) {
    w.file + w.batch == HEADER + RowsText(w.written) && (w.pc == Closed ==> w.batch == "")
  }

  ghost predicate Inv(c: Setup, s: System) {
    && MessagesConserved(Whole(c), Taken(s.matcher), s.inbound, Unsent(s.producer))
    && ReportsConserved(s.matcher, s.outbound, s.writer.written) && TextConserved(s.writer)
    && ProducerTruthful(s.producer, Whole(c)) && MatcherTruthful(s.matcher, s.producer.done)
    && WriterTruthful(s.writer, s.outbound, s.matcher.done)
    && |s.inbound| <= c.inboundCapacity && |s.outbound| <= c.outboundCapacity
    && (s.aborted ==> Whole(c)[|Whole(c)| - 1] == Crash && s.writer.pc != Closed)
  }

  lemma InitialInv(c: Setup)
    ensures Inv(c, Initial(c))
  {
    hide HEADER, RowsText, Stream, Run;
    RowsNone();
    RunStart();
  }

  // ----- the stream, one row at a time -----

  lemma StreamRow(lines: seq<string>, first: bool, sequence: nat)
    requires lines != []
    ensures Stream(lines, first, sequence) ==
            if first || |FieldsOf(lines[0])| < 5 then Stream(lines[1..], false, sequence)
            else
              var m := MessageOf(FieldsOf(lines[0]), sequence);
              if m.Err? then [Crash] else [Token.Row(m.value)] + Stream(lines[1..], false, sequence + 1)
  {
  }

  lemma OrdersPrepend(t: Token, tokens: seq<Token>)
    ensures Orders([t] + tokens) == Orders(tokens) + if t.Row? then 1 else 0
  {
  }

  lemma OrdersEnd()
    ensures Orders([End]) == 0
  {
  }

  lemma PushMoves<T>(a: seq<T>, queue: seq<T>, x: T, rest: seq<T>)
    ensures a + queue + ([x] + rest) == a + (queue + [x]) + rest
  {
  }

  lemma PopMoves<T>(a: seq<T>, queue: seq<T>, rest: seq<T>)
    requires queue != []
    ensures a + queue + rest == a + [queue[0]] + queue[1..] + rest
  {
    assert queue == [queue[0]] + queue[1..];
  }

  // ----- the producer keeps it -----

  /** A producer step moves at most one token from what is unsent to the back of the queue. */
  lemma ProducerSends(p: Producer, inbound: seq<Token>, capacity: nat)
    ensures var t := Produces(p, inbound, capacity);
            var was, left := Unsent(p), Unsent(t.producer);
            && (if p.pc in {Reading, StoringProduced, RaisingProducerDone, ProducerExited} || |inbound| >= capacity
                then t.inbound == inbound && left == was
                else was != [] && was[0] != Crash && t.inbound == inbound + [was[0]] && left == was[1..])
            && (t.aborted ==> was == [Crash])
  {
    hide Stream, MessageOf, FieldsOf, Rest;
    match p.pc
    case Reading => ReadingSends(p, inbound, capacity);
    case Pushing(m) => PushingSends(p, inbound, capacity);
    case _ =>
  }

  /** Reading a row, or the end of the file, leaves what is unsent as it was. */
  lemma ReadingSends(p: Producer, inbound: seq<Token>, capacity: nat)
    requires p.pc.Reading?
    ensures var t := Produces(p, inbound, capacity);
            t.inbound == inbound && Unsent(t.producer) == Unsent(p) && (t.aborted ==> Unsent(p) == [Crash])
  {
    hide Stream, MessageOf, FieldsOf;
    if p.lines == [] {
      EndOfFile(p.firstRow, p.sequence);
    } else {
      StreamRow(p.lines, p.firstRow, p.sequence);
    }
  }

  lemma PushingSends(p: Producer, inbound: seq<Token>, capacity: nat)
    requires p.pc.Pushing?
    ensures var t := Produces(p, inbound, capacity);
            && !t.aborted && Unsent(p) != [] && Unsent(p)[0] == Token.Row(p.pc.msg)
            && (if |inbound| >= capacity then t.inbound == inbound && Unsent(t.producer) == Unsent(p)
                else t.inbound == inbound + [Token.Row(p.pc.msg)] && Unsent(t.producer) == Unsent(p)[1..])
  {
    hide Stream, MessageOf, FieldsOf;
    assert ([Token.Row(p.pc.msg)] + Rest(p))[1..] == Rest(p);
  }

  lemma ProducerCounts(p: Producer, inbound: seq<Token>, capacity: nat, whole: seq<Token>)
    requires ProducerTruthful(p, whole)
    ensures ProducerTruthful(Produces(p, inbound, capacity).producer, whole)
    ensures p.done ==> Produces(p, inbound, capacity).producer.done
  {
    hide Stream, MessageOf, FieldsOf, Orders;
    OrdersEnd();
    if p.pc.Reading? {
      if p.lines == [] {
        EndOfFile(p.firstRow, p.sequence);
      } else {
        StreamRow(p.lines, p.firstRow, p.sequence);
        if !p.firstRow && |FieldsOf(p.lines[0])| >= 5 && MessageOf(FieldsOf(p.lines[0]), p.sequence).Ok? {
          var m := MessageOf(FieldsOf(p.lines[0]), p.sequence).value;
          OrdersPrepend(Token.Row(m), Stream(p.lines[1..], false, p.sequence + 1));
        }
      }
    }
  }

  lemma ProducerKeeps(c: Setup, s: System, move: Move)
    requires Inv(c, s) && !s.aborted && move.who == Producing
    ensures Inv(c, Step(c, s, move))
  {
    hide Produces, Whole, Taken, Unsent, ReportsConserved, ProducerTruthful, WriterTruthful;
    ProducerSends(s.producer, s.inbound, c.inboundCapacity);
    ProducerCounts(s.producer, s.inbound, c.inboundCapacity, Whole(c));
    var was := Unsent(s.producer);
    if was != [] {
      assert was == [was[0]] + was[1..];
      PushMoves(Taken(s.matcher), s.inbound, was[0], was[1..]);
    }
    if s.writer.pc == Closed {
      ClosedMeansAllSent(c, s);
    }
  }

  /** The end of stream is the last message: behind it there is nothing. */
  lemma NothingBehindEnd(c: Setup, s: System)
    requires MessagesConserved(Whole(c), Taken(s.matcher), s.inbound, Unsent(s.producer)) && s.matcher.gotEnd
    ensures s.inbound == [] && Unsent(s.producer) == []
    ensures Tokens(s.matcher.handled) + [End] == Whole(c)
  {
    hide Stream, Tokens, Unsent;
    var k := |s.matcher.handled|;
    assert Taken(s.matcher) == Tokens(s.matcher.handled) + [End];
    assert Whole(c)[k] == End;
    assert |Whole(c)| == k + 1 + |s.inbound| + |Unsent(s.producer)|;
  }

  lemma ClosedMeansAllSent(c: Setup, s: System)
    requires Inv(c, s) && s.writer.pc == Closed
    ensures Unsent(s.producer) == []
  {
    hide Unsent, Taken, Whole, ReportsConserved, ProducerTruthful;
    NothingBehindEnd(c, s);
  }

  // ----- the matcher keeps it -----

  lemma TokensSnoc(events: seq<Event>, e: Event)
    ensures Tokens(events + [e]) == Tokens(events) + [Token.Row(e.msg)]
  {
    assert (events + [e])[..|events|] == events;
  }

  /** A matcher step takes at most the front of the queue. */
  lemma MatcherTakes(m: Matcher, inbound: seq<Token>, outbound: seq<Outbound>, capacity: nat,
                     producerDone: bool, clock: string)
    requires m.gotEnd ==> inbound == []
    requires Crash !in inbound
    ensures var t := Matches(m, inbound, outbound, capacity, producerDone, clock);
            if m.pc == Popping && inbound != []
            then t.inbound == inbound[1..] && Taken(t.matcher) == Taken(m) + [inbound[0]]
            else t.inbound == inbound && Taken(t.matcher) == Taken(m)
  {
    hide Handle, Tokens;
    if m.pc == Popping && inbound != [] && inbound[0].Row? {
      TokensSnoc(m.handled, Event(inbound[0].msg, clock));
    }
  }

  lemma MatcherReports(m: Matcher, inbound: seq<Token>, outbound: seq<Outbound>, capacity: nat,
                       producerDone: bool, clock: string, written: seq<Outbound>)
    requires ReportsConserved(m, outbound, written)
    ensures var t := Matches(m, inbound, outbound, capacity, producerDone, clock);
            ReportsConserved(t.matcher, t.outbound, written)
  {
    hide Handle, Run;
    if m.pc == Popping && inbound != [] && inbound[0].Row? {
      RunNext(m.handled, Event(inbound[0].msg, clock));
    } else if m.pc.Emitting? && m.pc.pending != [] {
      var pending := m.pc.pending;
      assert pending == [pending[0]] + pending[1..];
      PushMoves(written, outbound, pending[0], pending[1..]);
    }
  }

  lemma MatcherKeeps(c: Setup, s: System, move: Move)
    requires Inv(c, s) && !s.aborted && move.who == Matching
    ensures Inv(c, Step(c, s, move))
  {
    hide Whole, Taken, Unsent, ReportsConserved, ProducerTruthful, Handle;
    if s.matcher.gotEnd {
      NothingBehindEnd(c, s);
    }
    MatcherTakes(s.matcher, s.inbound, s.outbound, c.outboundCapacity, s.producer.done, move.clock);
    MatcherReports(s.matcher, s.inbound, s.outbound, c.outboundCapacity, s.producer.done, move.clock, s.writer.written);
    if s.inbound != [] {
      PopMoves(Taken(s.matcher), s.inbound, Unsent(s.producer));
    }
  }

  // ----- the writer keeps it -----

  lemma AppendsText(w: Writer, m: Outbound)
    requires TextConserved(w)
    ensures TextConserved(Appends(w, m))
    ensures Appends(w, m).written == w.written + [m] && Appends(w, m).pc == LoadingFlag
  {
    hide HEADER, RowText, RowsText;
    var batch := w.batch + RowText(m);
    RowsSnoc(w.written + [m], |w.written|);
    assert (w.written + [m])[..|w.written|] == w.written && (w.written + [m])[..|w.written| + 1] == w.written + [m];
    Flushed(w.file, w.batch, HEADER + RowsText(w.written), RowText(m));
    assert HEADER + RowsText(w.written) + RowText(m) == HEADER + RowsText(w.written + [m]);
  }

  lemma WriterTexts(w: Writer, outbound: seq<Outbound>, matcherDone: bool)
    requires TextConserved(w)
    ensures var t := Writes(w, outbound, matcherDone);
            && TextConserved(t.writer)
            && (if w.pc == Draining && outbound != []
                then t.writer.written == w.written + [outbound[0]] && t.outbound == outbound[1..]
                     && t.writer.pc == LoadingFlag
                else t.writer.written == w.written && t.outbound == outbound)
  {
    hide HEADER, RowText, RowsText, Appends, Closes;
    if outbound != [] {
      AppendsText(w, outbound[0]);
    }
    ClosesText(w);
  }

  lemma ClosesText(w: Writer)
    requires TextConserved(w)
    ensures TextConserved(Closes(w)) && Closes(w).written == w.written
  {
    hide HEADER, RowsText;
    assert w.file + w.batch + "" == w.file + w.batch;
  }

  lemma WriterKeeps(c: Setup, s: System, move: Move)
    requires Inv(c, s) && !s.aborted && move.who == Writing
    ensures Inv(c, Step(c, s, move))
  {
    hide Whole, Taken, Unsent, ProducerTruthful, Run, TextConserved, Appends;
    WriterTexts(s.writer, s.outbound, s.matcher.done);
    if s.outbound != [] {
      PopMoves(s.writer.written, s.outbound, Pending(s.matcher));
    }
    if s.matcher.done {
      NothingBehindEnd(c, s);
    }
  }

  lemma StepKeeps(c: Setup, s: System, move: Move)
    requires Inv(c, s)
    ensures Inv(c, Step(c, s, move))
  {
    hide Inv, Produces, Matches, Writes;
    if !s.aborted {
      match move.who
      case Producing => ProducerKeeps(c, s, move);
      case Matching => MatcherKeeps(c, s, move);
      case Writing => WriterKeeps(c, s, move);
    }
  }

  lemma {:induction false} ExecuteKeeps(c: Setup, s: System, schedule: seq<Move>)
    requires Inv(c, s)
    ensures Inv(c, Execute(c, s, schedule))
    decreases |schedule|
  {
    hide Inv, Step;
    if schedule != [] {
      StepKeeps(c, s, schedule[0]);
      ExecuteKeeps(c, Step(c, s, schedule[0]), schedule[1..]);
    }
  }

  // ----- safety -----

  /** At every moment the rows written are a prefix of what the messages handled so far call for. */
  lemma WrittenIsPrefix(c: Setup, schedule: seq<Move>)
    ensures var s := Execute(c, Initial(c), schedule);
            s.writer.written <= Run(s.matcher.handled).out && Tokens(s.matcher.handled) <= Whole(c)
  {
    hide Run, Tokens, Stream, Step, Unsent, HEADER, RowsText;
    InitialInv(c);
    ExecuteKeeps(c, Initial(c), schedule);
  }

  /**
   Whenever the writer stops, whatever the interleaving: every message of the file was handled once, in order;
   the rows written are exactly the rows of the sequential run over them, and the text of the file is the header
   and those rows, every batch flushed once; all queues are empty, both other processes are done, and both
   counters equal the number of messages.
   */
  lemma WriterStopsComplete(c: Setup, schedule: seq<Move>)
    requires Execute(c, Initial(c), schedule).writer.pc == Closed
    ensures var s := Execute(c, Initial(c), schedule);
            && Tokens(s.matcher.handled) + [End] == Whole(c)
            && s.writer.written == Run(s.matcher.handled).out && s.matcher.exchange == Run(s.matcher.handled).state
            && s.writer.file == HEADER + RowsText(Run(s.matcher.handled).out)
            && s.inbound == [] && s.outbound == []
            && s.producer.pc == ProducerExited && s.matcher.pc == MatcherExited
            && s.producer.producedOrders == s.matcher.consumedOrders == |s.matcher.handled|
  {
    hide Run, Tokens, Stream, Step, Orders, HEADER, RowsText;
    InitialInv(c);
    ExecuteKeeps(c, Initial(c), schedule);
    var s := Execute(c, Initial(c), schedule);
    NothingBehindEnd(c, s);
    assert s.writer.written + s.outbound + Pending(s.matcher) == s.writer.written;
    OrdersOfRows(s.matcher.handled);
  }

  lemma TokensTellMessages(a: seq<Event>, b: seq<Event>)
    requires Tokens(a) == Tokens(b)
    ensures SameMessages(a, b)
  {
    hide Tokens;
    forall i | 0 <= i < |a|
      ensures a[i].msg == b[i].msg
    {
      assert Tokens(a)[i] == Tokens(b)[i];
    }
  }

  /**
   Threads do not change the result: on the same file, with queues of any sizes, any two schedules after which the
   writer is closed leave the same market and have written the same rows, but for the clock texts taken on the way.
   */
  lemma SchedulesAgree(c: Setup, d: Setup, one: seq<Move>, two: seq<Move>)
    requires c.lines == d.lines
    requires Execute(c, Initial(c), one).writer.pc == Closed && Execute(d, Initial(d), two).writer.pc == Closed
    ensures var s, t := Execute(c, Initial(c), one), Execute(d, Initial(d), two);
            && SameRows(s.writer.written, t.writer.written) && s.matcher.exchange == t.matcher.exchange
            && SameMessages(s.matcher.handled, t.matcher.handled)
  {
    hide Execute, Run, Tokens, Stream, HEADER, RowsText, SameRows, SameMessages, SameReports;
    WriterStopsComplete(c, one);
    WriterStopsComplete(d, two);
    var s, t := Execute(c, Initial(c), one), Execute(d, Initial(d), two);
    assert Tokens(s.matcher.handled) == Whole(c)[..|Whole(c)| - 1];
    assert Tokens(t.matcher.handled) == Whole(d)[..|Whole(d)| - 1];
    TokensTellMessages(s.matcher.handled, t.matcher.handled);
    RunUntimed(s.matcher.handled, t.matcher.handled);
  }

  lemma {:induction false} OrdersOfRows(events: seq<Event>)
    ensures Orders(Tokens(events) + [End]) == |events|
  {
    OrdersCount(Tokens(events) + [End]);
  }

  /** A stream holds one token more than it holds orders. */
  lemma {:induction false} OrdersCount(tokens: seq<Token>)
    requires tokens != [] && !tokens[|tokens| - 1].Row?
    requires forall i :: 0 <= i < |tokens| - 1 ==> tokens[i].Row?
    ensures Orders(tokens) == |tokens| - 1
  {
    if |tokens| > 1 {
      OrdersCount(tokens[1..]);
    } else {
      assert tokens[1..] == [];
    }
  }

  // ----- progress -----

  /** The orders of a stream as events with blank clocks. */
  function Untimed(tokens: seq<Token>): (events: seq<Event>)
    ensures |events| <= |tokens|
    ensures forall i :: 0 <= i < |events| ==> tokens[i].Row? && events[i] == Event(tokens[i].msg, "")
    ensures |events| < |tokens| ==> !tokens[|events|].Row?
  {
    if tokens == [] || !tokens[0].Row? then [] else [Event(tokens[0].msg, "")] + Untimed(tokens[1..])
  }

  /** Reports the whole file will cause. */
  function AllReports(c: Setup): nat {
    |Run(Untimed(Whole(c))).out|
  }

  lemma HandledWithinAll(c: Setup, s: System)
    requires Tokens(s.matcher.handled) <= Whole(c)
    ensures |Run(s.matcher.handled).out| <= AllReports(c)
  {
    hide Run, Stream, Untimed, Tokens;
    var all, k := Untimed(Whole(c)), |s.matcher.handled|;
    assert forall i :: 0 <= i < k ==> Whole(c)[i] == Token.Row(s.matcher.handled[i].msg);
    assert k <= |all|;
    RunUntimed(s.matcher.handled, all[..k]);
    RunOutGrows(all, k);
  }

  /** Work left: rows to push, messages to pop, reports to push, rows to write, and the closing steps. */
  function Work(c: Setup, s: System): int {
    ProducerWork(s.producer) + QueueWork(s.inbound) + MatcherWork(s.matcher.pc)
    + 2 * (AllReports(c) - |Run(s.matcher.handled).out|) + 2 * |Pending(s.matcher)| + |s.outbound|
    + WriterWork(s.writer.pc)
  }

  function ProducerWork(p: Producer): nat {
    match p.pc
    case Reading => 4 * |p.lines| + 5
    case Pushing(_) => 4 * |p.lines| + 8
    case PushingEnd => 4
    case StoringProduced => 2
    case RaisingProducerDone => 1
    case ProducerExited => 0
  }

  function QueueWork(inbound: seq<Token>): nat {
    if inbound == [] then 0 else QueueWork(inbound[..|inbound| - 1]) + if inbound[|inbound| - 1].Row? then 2 else 1
  }

  function MatcherWork(pc: MatcherPc): nat {
    match pc
    case Guarding => 3
    case Popping => 3
    case Emitting(_) => 4
    case StoringConsumed => 2
    case RaisingMatcherDone => 1
    case MatcherExited => 0
  }

  function WriterWork(pc: WriterPc): nat {
    if pc == Closed then 0 else 1
  }

  lemma {:induction false} QueueWorkFront(inbound: seq<Token>)
    requires inbound != []
    ensures QueueWork(inbound) == QueueWork(inbound[1..]) + if inbound[0].Row? then 2 else 1
  {
    var n := |inbound| - 1;
    if n > 0 {
      QueueWorkFront(inbound[..n]);
      assert inbound[..n][1..] == inbound[1..][..n - 1];
    } else {
      assert inbound[..0] == [] && inbound[1..] == [];
    }
  }

  lemma QueueWorkBack(inbound: seq<Token>, t: Token)
    ensures QueueWork(inbound + [t]) == QueueWork(inbound) + if t.Row? then 2 else 1
  {
    assert (inbound + [t])[..|inbound|] == inbound;
  }

  lemma HandledIsPrefix(c: Setup, s: System)
    requires Inv(c, s)
    ensures Tokens(s.matcher.handled) <= Whole(c)
  {
    hide Tokens, Stream, Unsent;
  }

  lemma WorkNatural(c: Setup, s: System)
    requires Inv(c, s)
    ensures Work(c, s) >= WriterWork(s.writer.pc)
  {
    hide Inv, Run, AllReports;
    HandledIsPrefix(c, s);
    HandledWithinAll(c, s);
  }

  /** The step only turned a waiting loop. */
  ghost predicate Spins(s: System, t: System, who: Thread) {
    || t == s
    || (who == Matching && s.matcher.pc in {Guarding, Popping} && t.matcher.pc in {Guarding, Popping}
        && t == s.(matcher := s.matcher.(pc := t.matcher.pc)))
    || (who == Writing && s.writer.pc != Closed && t.writer.pc != Closed
        && t == s.(writer := s.writer.(pc := t.writer.pc)))
  }

  lemma ProducerWorks(p: Producer, inbound: seq<Token>, capacity: nat)
    ensures var t := Produces(p, inbound, capacity);
            || t.aborted || (t.producer == p && t.inbound == inbound)
            || ProducerWork(t.producer) + QueueWork(t.inbound) < ProducerWork(p) + QueueWork(inbound)
  {
    hide MessageOf, FieldsOf, QueueWork;
    match p.pc
    case Pushing(m) => QueueWorkBack(inbound, Token.Row(m));
    case PushingEnd => QueueWorkBack(inbound, End);
    case _ =>
  }

  lemma MatcherWorks(m: Matcher, inbound: seq<Token>, outbound: seq<Outbound>, capacity: nat,
                     producerDone: bool, clock: string)
    requires m.exchange == Run(m.handled).state
    ensures var t := Matches(m, inbound, outbound, capacity, producerDone, clock);
            || (t.inbound == inbound && t.outbound == outbound && t.matcher == m.(pc := t.matcher.pc)
                && (t.matcher == m || (m.pc in {Guarding, Popping} && t.matcher.pc in {Guarding, Popping})))
            || QueueWork(t.inbound) + MatcherWork(t.matcher.pc) + 2 * |Pending(t.matcher)| + |t.outbound|
               - 2 * |Run(t.matcher.handled).out|
               < QueueWork(inbound) + MatcherWork(m.pc) + 2 * |Pending(m)| + |outbound| - 2 * |Run(m.handled).out|
  {
    hide Handle, Run, QueueWork;
    if m.pc == Popping && inbound != [] {
      QueueWorkFront(inbound);
      if inbound[0].Row? {
        RunNext(m.handled, Event(inbound[0].msg, clock));
      }
    }
  }

  /** No step adds work; a step that does none only turned a waiting loop. */
  lemma StepWorks(c: Setup, s: System, move: Move)
    requires Inv(c, s)
    ensures var t := Step(c, s, move); t.aborted || Work(c, t) < Work(c, s) || Spins(s, t, move.who)
  {
    hide Produces, Matches, ProducerWork, QueueWork, Run, AllReports, Unsent, Taken;
    if !s.aborted {
      match move.who
      case Producing => ProducerWorks(s.producer, s.inbound, c.inboundCapacity);
      case Matching =>
        MatcherWorks(s.matcher, s.inbound, s.outbound, c.outboundCapacity, s.producer.done, move.clock);
      case Writing =>
    }
  }

  lemma SpinsKeepWork(c: Setup, s: System, t: System, who: Thread)
    requires Spins(s, t, who)
    ensures Work(c, t) == Work(c, s) && t.aborted == s.aborted && (t.writer.pc == Closed <==> s.writer.pc == Closed)
  {
    hide Run, AllReports, QueueWork;
  }

  /** How many of its own steps a process needs before one does work; 0 if it waits for another. */
  function Due(c: Setup, s: System, who: Thread): nat {
    match who
    case Producing =>
      if s.producer.pc == ProducerExited then 0
      else if s.producer.pc.Pushing? || s.producer.pc == PushingEnd then
        if |s.inbound| < c.inboundCapacity then 1 else 0
      else 1
    case Matching =>
      (match s.matcher.pc
       case MatcherExited => 0
       case Emitting(pending) => if pending == [] || |s.outbound| < c.outboundCapacity then 1 else 0
       case Guarding => if s.inbound != [] then 2 else if s.matcher.gotEnd && s.producer.done then 1 else 0
       case Popping => if s.inbound != [] then 1 else if s.matcher.gotEnd && s.producer.done then 2 else 0
       case _ => 1)
    case Writing =>
      (match s.writer.pc
       case Closed => 0
       case Draining => if s.outbound != [] then 1 else if s.matcher.done then 3 else 0
       case TestingEmpty => if s.outbound != [] then 2 else 1
       case LoadingFlag =>
         if s.matcher.done then (if s.outbound != [] then 3 else 2) else if s.outbound != [] then 2 else 0)
  }

  /** Until the writer has stopped, somebody is within three steps of doing work, even with both queues full. */
  lemma SomebodyDue(c: Setup, s: System) returns (who: Thread)
    requires Inv(c, s) && !s.aborted && s.writer.pc != Closed
    ensures 1 <= Due(c, s, who) <= 3
  {
    hide Run, Stream, Tokens, Orders, Rest;
    if s.matcher.gotEnd {
      NothingBehindEnd(c, s);
    }
    if Due(c, s, Writing) > 0 {
      who := Writing;
    } else if Due(c, s, Matching) > 0 {
      who := Matching;
    } else {
      who := Producing;
      NobodyElseDue(c, s);
    }
  }

  lemma NobodyElseDue(c: Setup, s: System)
    requires Inv(c, s) && !s.aborted && s.writer.pc != Closed
    requires s.matcher.gotEnd ==> s.inbound == []
    requires Due(c, s, Writing) == 0 && Due(c, s, Matching) == 0
    ensures Due(c, s, Producing) == 1
  {
    hide Run, Stream, Tokens, Orders, Rest;
    assert s.outbound == [] && !s.matcher.done;
    assert s.inbound == [];
    if s.producer.pc == ProducerExited {
      EndWasPopped(c, s);
    }
  }

  /** With everything sent and nothing queued, the end of stream has been popped. */
  lemma EndWasPopped(c: Setup, s: System)
    requires Inv(c, s) && s.inbound == [] && Unsent(s.producer) == []
    ensures s.matcher.gotEnd
  {
    hide Run, Stream, Tokens, Orders, Rest, Unsent;
  }

  /** A due process's own step does work or brings it nearer; a waiting step of another changes nothing for it. */
  lemma DueStep(c: Setup, s: System, who: Thread, move: Move)
    requires Inv(c, s) && !s.aborted && s.writer.pc != Closed && Due(c, s, who) > 0
    ensures var t := Step(c, s, move);
            || t.aborted || Work(c, t) < Work(c, s)
            || (Due(c, t, who) > 0 && t.writer.pc != Closed
                && Due(c, t, who) == Due(c, s, who) - if move.who == who then 1 else 0)
  {
    hide Produces, Matches, Work, ProducerWork, QueueWork, Run, AllReports, Unsent, Taken, Inv, Writes;
    StepWorks(c, s, move);
    var t := Step(c, s, move);
    if Spins(s, t, move.who) {
      if move.who == who {
        DueOwnStep(c, s, move);
      } else {
        DueUndisturbed(c, s, t, who, move.who);
      }
    }
  }

  lemma DueUndisturbed(c: Setup, s: System, t: System, who: Thread, other: Thread)
    requires Spins(s, t, other) && other != who && Due(c, s, who) > 0
    ensures Due(c, t, who) == Due(c, s, who) && (s.writer.pc != Closed ==> t.writer.pc != Closed)
  {
  }

  lemma DueOwnStep(c: Setup, s: System, move: Move)
    requires Inv(c, s) && !s.aborted && Due(c, s, move.who) > 0 && Spins(s, Step(c, s, move), move.who)
    ensures Due(c, Step(c, s, move), move.who) == Due(c, s, move.who) - 1 > 0
  {
    hide Run, Stream, Handle, MessageOf, FieldsOf, Tokens, Taken, Unsent, Whole, Orders, Rest, ReportsConserved;
    if s.matcher.gotEnd {
      NothingBehindEnd(c, s);
    }
  }

  function Turns(schedule: seq<Move>, who: Thread): nat {
    if schedule == [] then 0 else Turns(schedule[1..], who) + if schedule[0].who == who then 1 else 0
  }

  lemma {:induction false} AbortStays(c: Setup, s: System, schedule: seq<Move>)
    requires s.aborted
    ensures Execute(c, s, schedule) == s
    decreases |schedule|
  {
    if schedule != [] {
      AbortStays(c, s, schedule[1..]);
    }
  }

  lemma {:induction false} CloseStays(c: Setup, s: System, schedule: seq<Move>)
    requires s.writer.pc == Closed
    ensures Execute(c, s, schedule).writer.pc == Closed
    decreases |schedule|
  {
    hide Produces, Matches;
    if schedule != [] {
      CloseStays(c, Step(c, s, schedule[0]), schedule[1..]);
    }
  }

  lemma StepAddsNoWork(c: Setup, s: System, move: Move)
    requires Inv(c, s)
    ensures var t := Step(c, s, move); t.aborted || Work(c, t) <= Work(c, s)
  {
    hide Step, Work, Inv, Spins;
    StepWorks(c, s, move);
    if Spins(s, Step(c, s, move), move.who) {
      SpinsKeepWork(c, s, Step(c, s, move), move.who);
    }
  }

  lemma {:induction false} ExecuteAddsNoWork(c: Setup, s: System, schedule: seq<Move>)
    requires Inv(c, s)
    ensures var t := Execute(c, s, schedule); t.aborted || Work(c, t) <= Work(c, s)
    decreases |schedule|
  {
    hide Step, Work, Inv;
    if schedule != [] {
      var t := Step(c, s, schedule[0]);
      StepKeeps(c, s, schedule[0]);
      StepAddsNoWork(c, s, schedule[0]);
      if t.aborted {
        AbortStays(c, t, schedule[1..]);
      } else {
        ExecuteAddsNoWork(c, t, schedule[1..]);
      }
    }
  }

  /** A schedule in which a due process gets its turns does some work. */
  lemma {:induction false} DueProcessWorks(c: Setup, s: System, who: Thread, schedule: seq<Move>)
    requires Inv(c, s) && !s.aborted && s.writer.pc != Closed
    requires 1 <= Due(c, s, who) <= Turns(schedule, who)
    ensures var t := Execute(c, s, schedule); t.aborted || Work(c, t) < Work(c, s)
    decreases |schedule|
  {
    hide Step, Work, Inv, Due;
    var t := Step(c, s, schedule[0]);
    StepKeeps(c, s, schedule[0]);
    StepAddsNoWork(c, s, schedule[0]);
    DueStep(c, s, who, schedule[0]);
    if t.aborted {
      AbortStays(c, t, schedule[1..]);
    } else if Work(c, t) < Work(c, s) {
      ExecuteAddsNoWork(c, t, schedule[1..]);
    } else {
      DueProcessWorks(c, t, who, schedule[1..]);
    }
  }

  /** A round in which every process gets at least three turns, in any order. */
  ghost predicate Fair(round: seq<Move>) {
    forall who: Thread :: Turns(round, who) >= 3
  }

  function Flatten(rounds: seq<seq<Move>>): seq<Move> {
    if rounds == [] then [] else rounds[0] + Flatten(rounds[1..])
  }

  lemma {:induction false} ExecuteConcat(c: Setup, s: System, a: seq<Move>, b: seq<Move>)
    ensures Execute(c, s, a + b) == Execute(c, Execute(c, s, a), b)
    decreases |a|
  {
    if a == [] {
      assert a + b == b;
    } else {
      ExecuteConcat(c, Step(c, s, a[0]), a[1..], b);
      assert (a + b)[1..] == a[1..] + b;
    }
  }

  lemma {:induction false} FairRoundsFinish(c: Setup, s: System, rounds: seq<seq<Move>>)
    requires Inv(c, s) && |rounds| >= Work(c, s)
    requires forall i :: 0 <= i < |rounds| ==> Fair(rounds[i])
    ensures var t := Execute(c, s, Flatten(rounds)); t.aborted || t.writer.pc == Closed
    decreases |rounds|
  {
    hide Inv, Work, Due, Step;
    WorkNatural(c, s);
    if s.aborted {
      AbortStays(c, s, Flatten(rounds));
    } else if s.writer.pc == Closed {
      CloseStays(c, s, Flatten(rounds));
    } else {
      var round, rest := rounds[0], rounds[1..];
      var who := SomebodyDue(c, s);
      DueProcessWorks(c, s, who, round);
      ExecuteKeeps(c, s, round);
      ExecuteConcat(c, s, round, Flatten(rest));
      if Execute(c, s, round).aborted {
        AbortStays(c, Execute(c, s, round), Flatten(rest));
      } else {
        FairRoundsFinish(c, Execute(c, s, round), rest);
      }
    }
  }

  /**
   The pipeline never wedges: any schedule made of enough fair rounds ends. If some row is malformed it ends with
   the process aborted; otherwise with the writer stopped, having written exactly the reports of the sequential
   run over exactly the messages of the file.
   */
  lemma FairRunsFinish(c: Setup, rounds: seq<seq<Move>>)
    requires |rounds| >= Work(c, Initial(c))
    requires forall i :: 0 <= i < |rounds| ==> Fair(rounds[i])
    ensures var s := Execute(c, Initial(c), Flatten(rounds));
            if WellFormed(c.lines, true)
            then s.writer.pc == Closed && Tokens(s.matcher.handled) + [End] == Whole(c)
                 && s.writer.written == Run(s.matcher.handled).out
                 && s.writer.file == HEADER + RowsText(Run(s.matcher.handled).out)
            else s.aborted
  {
    hide Run, Work, Step, Execute, Tokens, WellFormed, Stream, HEADER, RowsText, Flatten, Unsent, ReportsConserved,
         ProducerTruthful, MatcherTruthful, WriterTruthful, TextConserved, Fair;
    InitialInv(c);
    FairRoundsFinish(c, Initial(c), rounds);
    ExecuteKeeps(c, Initial(c), Flatten(rounds));
    StreamEnds(c.lines, true, 1);
    var s := Execute(c, Initial(c), Flatten(rounds));
    if s.writer.pc == Closed {
      WriterStopsComplete(c, Flatten(rounds));
    }
  }
}
