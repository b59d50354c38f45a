/** A whole file run, from the lines of the input file to the rows of the report file. */
module FileRun {
  import opened PriceText
  import opened NumberText
  import opened CsvReader
  import opened CsvWriter
  import opened CleanRows
  import opened CsvProducer
  import opened Exchange
  import Accounting
  import opened RowMeaning
  import opened MemPool
  import opened OrderBooks
  import opened Engine
  import opened Processor
  import opened Pipeline

  ghost predicate SingleLines(lines: seq<string>) {
    forall i :: 0 <= i < |lines| ==> '\n' !in lines[i]
  }

  ghost predicate CleanClocks(schedule: seq<Move>) {
    forall i :: 0 <= i < |schedule| ==> CleanStamp(schedule[i].clock)
  }

  ghost predicate CleanEvents(events: seq<Event>) {
    forall i :: 0 <= i < |events| ==> CleanStamp(events[i].timestamp)
  }

  /** Every message of a file is clean. */
  lemma {:induction false} StreamClean(lines: seq<string>, first: bool, sequence: nat, i: nat, ts: string)
    requires SingleLines(lines) && CleanStamp(ts) && i < |Stream(lines, first, sequence)| - 1
    ensures CleanInput(Event(Stream(lines, first, sequence)[i].msg, ts))
    decreases |lines|
  {
    hide FieldsOf, MessageOf, CleanInput;
    if first || |FieldsOf(lines[0])| < 5 {
      StreamClean(lines[1..], false, sequence, i, ts);
    } else {
      MessageClean(lines[0], sequence, ts);
      if i > 0 {
        StreamClean(lines[1..], false, sequence + 1, i - 1, ts);
      }
    }
  }

  lemma {:induction false} StreamLength(lines: seq<string>, first: bool, sequence: nat)
    ensures |Stream(lines, first, sequence)| <= |lines| + 1
    decreases |lines|
  {
    hide FieldsOf, MessageOf;
    if lines != [] {
      StreamLength(lines[1..], false, if first || |FieldsOf(lines[0])| < 5 then sequence else sequence + 1);
    }
  }

  lemma StepStamps(c: Setup, s: System, move: Move)
    requires CleanEvents(s.matcher.handled) && CleanStamp(move.clock)
    ensures CleanEvents(Step(c, s, move).matcher.handled)
  {
    hide Handle, Produces, Writes;
  }

  /** The timestamps of handled messages are clock texts of the schedule. */
  lemma {:induction false} ExecuteStamps(c: Setup, s: System, schedule: seq<Move>)
    requires CleanEvents(s.matcher.handled) && CleanClocks(schedule)
    ensures CleanEvents(Execute(c, s, schedule).matcher.handled)
    decreases |schedule|
  {
    hide Step, CleanStamp;
    if schedule != [] {
      StepStamps(c, s, schedule[0]);
      ExecuteStamps(c, Step(c, s, schedule[0]), schedule[1..]);
    }
  }

  /** Whatever the input file says and however the threads interleave, a stopped writer wrote clean rows only. */
  lemma WrittenClean(c: Setup, schedule: seq<Move>, s: System)
    requires SingleLines(c.lines) && CleanClocks(schedule) && |c.lines| <= MAX_TICK
    requires s == Execute(c, Initial(c), schedule) && s.writer.pc == Closed
    ensures forall i :: 0 <= i < |s.writer.written| ==> CleanMessage(s.writer.written[i])
    ensures CleanInputs(s.matcher.handled)
  {
    hide Run, Step, Execute, Stream, Tokens, CleanInput, CleanMessage, CleanStamp, HEADER, RowsText;
    WriterStopsComplete(c, schedule);
    ExecuteStamps(c, Initial(c), schedule);
    var events := s.matcher.handled;
    StreamLength(c.lines, true, 1);
    forall k | 0 <= k < |events|
      ensures CleanInput(events[k])
    {
      assert Whole(c)[k] == Token.Row(events[k].msg);
      StreamClean(c.lines, true, 1, k, events[k].timestamp);
      assert events[k] == Event(events[k].msg, events[k].timestamp);
    }
    assert CleanInputs(events);
    RunClean(events);
  }

  /** From a file that carries the messages `ms`, a stopped pipeline has handled exactly those, in that order. */
  lemma OrdersAreHandled(c: Setup, schedule: seq<Move>, s: System, ms: seq<Message>, ticks: seq<nat>)
    requires |c.lines| == |ms| + 1 && |ticks| == |ms|
    requires forall i :: 0 <= i < |ms| ==> Sendable(ms[i], ticks[i]) && Carries(c.lines[i + 1], ms[i], ticks[i])
    requires forall i :: 0 <= i < |ms| ==> ms[i].sequence == i + 1
    requires s == Execute(c, Initial(c), schedule) && s.writer.pc == Closed
    ensures |s.matcher.handled| == |ms| && forall i :: 0 <= i < |ms| ==> s.matcher.handled[i].msg == ms[i]
  {
    hide Execute, Run, Stream, Sendable, Carries, HEADER, RowsText;
    WriterStopsComplete(c, schedule);
    FileIsSent(c.lines, ms, ticks);
    forall i | 0 <= i < |ms|
      ensures s.matcher.handled[i].msg == ms[i]
    {
      assert Tokens(s.matcher.handled)[i] == Whole(c)[i];
    }
  }

  /**
   Once the writer stops, each row it wrote reads back from its line as nine fields. They are the id "ord" `k`, the
   client id, instrument and side of the `k`-th message of the input file, and what happened to that message.
   */
  lemma RowsReadBack(c: Setup, schedule: seq<Move>, s: System, i: nat)
    returns (k: nat, j: nat, limit: nat, ticks: nat)
    requires SingleLines(c.lines) && CleanClocks(schedule) && |c.lines| <= MAX_TICK
    requires s == Execute(c, Initial(c), schedule) && s.writer.pc == Closed && i < |s.writer.written|
    ensures var text := RowText(s.writer.written[i]);
            |text| <= ROW_BUFFER && text != "" && text[|text| - 1] == '\n' && '\n' !in text[..|text| - 1]
    ensures 1 <= k <= j <= |s.matcher.handled| && k < |Stream(c.lines, true, 1)|
    ensures Stream(c.lines, true, 1)[k - 1] == Token.Row(s.matcher.handled[k - 1].msg)
    ensures var row, event := s.writer.written[i], s.matcher.handled[k - 1];
            var m := event.msg;
            && Split(StripCr(RowText(row)[..|RowText(row)| - 1])) ==
               [OrderId(k), m.coid, m.instrument, IntText(m.side), row.status, IntText(row.quantity), row.priceText,
                row.reason, s.matcher.handled[j - 1].timestamp]
            && (if Refusal(m).Some? then Accounting.RefusesRow(row, event, k)
                else RowSays(row, m, limit, ticks, TradedIn(s.writer.written[..i + 1], OrderId(k))))
  {
    hide Execute, CleanMessage, RowText, Split, StripCr, Run, Stream, Tokens, OrderId, Refusal, IntText, IsNearestTick,
         TickText, TradedIn, SignedPriceText, HEADER, RowsText;
    WrittenClean(c, schedule, s);
    WriterStopsComplete(c, schedule);
    RowSurvives(s.writer.written[i]);
    k, j, limit, ticks := EveryRowSays(s.matcher.handled, i);
    assert Whole(c)[k - 1] == Token.Row(s.matcher.handled[k - 1].msg);
  }

  /**
   A file processed on one thread, by a processor that earlier files have used: reset it, let it consume the
   messages, and write its rows through the row buffer and the batches. That is the very file which every
   interleaving of the three threads writes, and only what rested before the reset is left stranded.
   */
  method ProcessFile(processor: OrderProcessor, c: Setup, ghost schedule: seq<Move>, s: System)
    returns (file: string)
    requires SingleLines(c.lines) && CleanClocks(schedule) && |c.lines| <= MAX_TICK
    requires s == Execute(c, Initial(c), schedule) && s.writer.pc == Closed
    requires processor.Valid()
    modifies processor, processor.orderPool, processor.orderPool.Slots()
    modifies processor.reportPool, processor.reportPool.Slots()
    ensures file == s.writer.file == HEADER + RowsText(Run(s.matcher.handled).out)
    ensures processor.Valid() && processor.Abstract() == s.matcher.exchange
    ensures processor.Stranded() == old(processor.Stranded()) + old(processor.matcher.Members())
  {
    hide Execute, Run, Tokens, Stream, CleanMessage, HEADER, RowsText, UsesBooks, MemPool.Valid, MatchingEngine.Kept,
         MatchingEngine.CurrentMarket, MatchingEngine.Members, MatchingEngine.Objects, OrderBook.Objects;
    WrittenClean(c, schedule, s);
    WriterStopsComplete(c, schedule);
    var reports, rows := processor.ConsumeFile(s.matcher.handled);
    BooksOnly(processor.matcher);
    forall i | 0 <= i < |rows|
      ensures FitsMessage(rows[i])
    {
      CleanFits(rows[i]);
    }
    file := WriteAll(rows);
  }

  lemma CleanFits(m: Outbound)
    requires CleanMessage(m)
    ensures FitsMessage(m)
  {
  }
}
