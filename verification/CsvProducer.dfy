/** The input side: which messages the rows of a file become (src/io/csv_order_producer.cpp). */
module CsvProducer {
  import opened Types
  import opened Decimals
  import opened PriceText
  import opened NumberText
  import opened CsvReader
  import opened CsvWriter
  import Matching
  import opened Exchange
  import opened CleanRows

  /** What a fixed-size text buffer holds as a C string: cut to its size, then at the first NUL. */
  function BufferText(text: string, size: nat): string
    requires size > 0
  {
    UntilNul(if |text| < size then text else text[..size - 1])
  }

  function UntilNul(text: string): string {
    if text == [] || text[0] == NUL then [] else [text[0]] + UntilNul(text[1..])
  }

  lemma {:induction false} UntilNulAt(text: string, n: nat)
    requires n <= |text| && NUL !in text[..n] && (n < |text| ==> text[n] == NUL)
    ensures UntilNul(text) == text[..n]
  {
    if n > 0 {
      assert text[..n][0] == text[0] && text[1..][..n - 1] == text[..n][1..];
      UntilNulAt(text[1..], n - 1);
    }
  }

  /** A copy stops at the buffer's end or at the first NUL, whichever comes first. */
  lemma BufferTextAt(text: string, size: nat, n: nat)
    requires 0 < size && n <= |text| && n < size && NUL !in text[..n]
    requires n == size - 1 || n == |text| || text[n] == NUL
    ensures BufferText(text, size) == text[..n]
  {
    var clipped := if |text| < size then text else text[..size - 1];
    assert clipped[..n] == text[..n];
    UntilNulAt(clipped, n);
  }

  /** copy_text: at most what fits in front of the terminator, up to the first NUL; nothing without a buffer. */
  method CopyText(buffer: array?<char>, source: Option<string>) returns (len: nat)
    modifies if buffer == null then {} else {buffer}
    ensures buffer == null || buffer.Length == 0 ==> len == 0
    ensures buffer != null && buffer.Length > 0 ==>
              && len == |CopiedText(source, buffer.Length)| < buffer.Length
              && buffer[..len] == CopiedText(source, buffer.Length) && buffer[len] == NUL
  {
    hide UntilNul, BufferText;
    if buffer == null || buffer.Length == 0 {
      return 0;
    }
    buffer[0] := NUL;
    if source.None? {
      return 0;
    }
    var text := source.value;
    len := 0;
    while len < buffer.Length - 1 && len < |text| && text[len] != NUL
      invariant len <= buffer.Length - 1 && len <= |text|
      invariant buffer[..len] == text[..len] && NUL !in text[..len]
    {
      buffer[len] := text[len];
      len := len + 1;
      assert text[..len] == text[..len - 1] + [text[len - 1]];
    }
    buffer[len] := NUL;
    assert buffer[..len] == text[..len];
    BufferTextAt(text, buffer.Length, len);
  }

  /** A missing text is copied as an empty one. */
  function CopiedText(source: Option<string>, size: nat): string
    requires size > 0
  {
    if source.Some? then BufferText(source.value, size) else ""
  }

  /** Copying again into a buffer of the same size or larger changes nothing. */
  lemma BufferTextIdempotent(text: string, size: nat, larger: nat)
    requires 0 < size <= larger
    ensures BufferText(BufferText(text, size), larger) == BufferText(text, size)
  {
    var once := BufferText(text, size);
    UntilNulPart(if |text| < size then text else text[..size - 1]);
    BufferTextAt(once, larger, |once|);
  }

  /** The message of a data row, or the parse failure that ends the process. */
  function MessageOf(row: seq<string>, sequence: nat): Result<Message, string>
    requires |row| >= 5
  {
    var side, quantity, price := ReadInt(row[2]), ReadInt(row[3]), ReadPrice(row[4]);
    if side.Err? then Err(side.error)
    else if quantity.Err? then Err(quantity.error)
    else if price.Err? then Err(price.error)
    else
      Ok(Message(BufferText(row[0], 64), BufferText(row[1], 32), side.value, quantity.value, price.value, sequence))
  }

  /** What the producer sends: orders, then an end of stream, unless a malformed row kills the process. */
  datatype Token = Row(msg: Message) | End | Crash

  /** The fields of one line of the file. */
  function FieldsOf(line: string): seq<string> {
    Split(StripCr(line))
  }

  function Stream(lines: seq<string>, first: bool, sequence: nat): (tokens: seq<Token>)
    ensures tokens != []
    ensures forall i :: 0 <= i < |tokens| - 1 ==> tokens[i].Row?
    ensures !tokens[|tokens| - 1].Row?
    decreases |lines|
  {
    if lines == [] then [End]
    else if first || |FieldsOf(lines[0])| < 5 then Stream(lines[1..], false, sequence)
    else
      var m := MessageOf(FieldsOf(lines[0]), sequence);
      if m.Err? then [Crash] else [Token.Row(m.value)] + Stream(lines[1..], false, sequence + 1)
  }

  /** Every row below the header either is short, and skipped, or parses. */
  ghost predicate WellFormed(lines: seq<string>, first: bool) {
    forall i :: (if first then 1 else 0) <= i < |lines| && |FieldsOf(lines[i])| >= 5 ==>
      MessageOf(FieldsOf(lines[i]), 0).Ok?
  }

  /** A file is read to its end exactly when no row is malformed. */
  lemma {:induction false} StreamEnds(lines: seq<string>, first: bool, sequence: nat)
    ensures var tokens := Stream(lines, first, sequence);
            tokens[|tokens| - 1] == End <==> WellFormed(lines, first)
    decreases |lines|
  {
    hide MessageOf, FieldsOf;
    if lines != [] {
      var rest := lines[1..];
      var skipped := first || |FieldsOf(lines[0])| < 5;
      if !skipped {
        SequenceIrrelevant(lines[0], sequence);
      }
      StreamEnds(rest, false, if skipped then sequence else sequence + 1);
      assert forall i :: 1 <= i < |lines| ==> lines[i] == rest[i - 1];
      assert forall i :: 0 <= i < |rest| ==> rest[i] == lines[i + 1];
    }
  }

  lemma SequenceIrrelevant(line: string, sequence: nat)
    requires |FieldsOf(line)| >= 5
    ensures MessageOf(FieldsOf(line), sequence).Ok? <==> MessageOf(FieldsOf(line), 0).Ok?
  {
  }

  /** Messages are numbered consecutively from `sequence`. */
  lemma {:induction false} StreamNumbers(lines: seq<string>, first: bool, sequence: nat, i: nat)
    requires i < |Stream(lines, first, sequence)| - 1
    ensures Stream(lines, first, sequence)[i].msg.sequence == sequence + i
    decreases |lines|
  {
    hide ReadInt, ReadPrice, FieldsOf, BufferText;
    if first || |FieldsOf(lines[0])| < 5 {
      StreamNumbers(lines[1..], false, sequence, i);
    } else if i > 0 {
      StreamNumbers(lines[1..], false, sequence + 1, i - 1);
    }
  }

  lemma {:induction false} UntilNulPart(text: string)
    ensures UntilNul(text) <= text && NUL !in UntilNul(text)
  {
    if text != [] {
      UntilNulPart(text[1..]);
    }
  }

  lemma BufferTextClean(text: string, size: nat)
    requires size > 0 && Clean(text)
    ensures CleanText(BufferText(text, size), size)
  {
    UntilNulPart(if |text| < size then text else text[..size - 1]);
  }

  lemma {:induction false} FieldsClean(line: string, i: nat)
    requires '\n' !in line && i < |FieldsOf(line)|
    ensures Clean(FieldsOf(line)[i])
  {
    JoinSplit(StripCr(line));
    JoinHolds(FieldsOf(line), i);
  }

  lemma {:induction false} JoinHolds(fields: seq<string>, i: nat)
    requires i < |fields|
    ensures forall c :: c in fields[i] ==> c in Join(fields)
  {
    if i < |fields| - 1 {
      JoinHolds(fields[..|fields| - 1], i);
    }
  }

  /** Every message built from the fields of a line is clean, whatever the client wrote. */
  lemma MessageClean(line: string, sequence: nat, ts: string)
    requires '\n' !in line && CleanStamp(ts) && |FieldsOf(line)| >= 5 && MessageOf(FieldsOf(line), sequence).Ok?
    ensures CleanInput(Event(MessageOf(FieldsOf(line), sequence).value, ts))
  {
    hide BufferText, ReadInt, ReadPrice, FieldsOf, CleanText;
    FieldsClean(line, 0);
    FieldsClean(line, 1);
    BufferTextClean(FieldsOf(line)[0], 64);
    BufferTextClean(FieldsOf(line)[1], 32);
    ReadIntRange(FieldsOf(line)[2]);
    ReadIntRange(FieldsOf(line)[3]);
  }

  lemma ReadIntRange(s: string)
    ensures ReadInt(s).Ok? ==> -INT_MAX <= ReadInt(s).value <= INT_MAX
  {
  }

  /** One data row, through the row reader and the number parsers. */
  method BuildMessage(row: CSVRow, sequence: nat) returns (m: Result<Message, string>)
    requires row.Valid() && row.Size() >= 5
    ensures |Split(row.line)| >= 5 && m == MessageOf(Split(row.line), sequence)
  {
    hide Split, ReadInt, ReadPrice, BufferText, CSVRow.Valid;
    var coid, instrument := row.At(0), row.At(1);
    var side := StringViewToInt(row.At(2).value);
    if side.Err? {
      return Err(side.error);
    }
    var quantity := StringViewToInt(row.At(3).value);
    if quantity.Err? {
      return Err(quantity.error);
    }
    var price := StringViewToDouble(row.At(4).value);
    if price.Err? {
      return Err(price.error);
    }
    return Ok(Message(BufferText(coid.value, 64), BufferText(instrument.value, 32),
                      side.value, quantity.value, price.value, sequence));
  }

  // ----- which column becomes which field -----

  /** A message that an input file can carry: plain texts that fit, ints, and a price of whole hundredths. */
  predicate Sendable(m: Message, ticks: nat) {
    && ',' !in m.coid && NUL !in m.coid && |m.coid| < 64
    && ',' !in m.instrument && NUL !in m.instrument && |m.instrument| < 32
    && -0x8000_0000 < m.side < 0x8000_0000 && -0x8000_0000 < m.quantity < 0x8000_0000
    && m.price == ticks as real / 100.0
  }

  /** The line that carries `m`: client id, instrument, side, quantity and price, ending in LF or in CR LF. */
  predicate Carries(line: string, m: Message, ticks: nat) {
    var text := m.coid + "," + m.instrument + "," + IntText(m.side) + "," + IntText(m.quantity) + "," + TickText(ticks);
    line == text || line == text + "\r"
  }

  lemma CarriedFields(line: string, m: Message, ticks: nat)
    requires Sendable(m, ticks) && Carries(line, m, ticks)
    ensures FieldsOf(line) == [m.coid, m.instrument, IntText(m.side), IntText(m.quantity), TickText(ticks)]
  {
    hide Split, Join, IntText, TickText;
    var fields := [m.coid, m.instrument] + [IntText(m.side)] + [IntText(m.quantity)] + [TickText(ticks)];
    var text := Join(fields);
    JoinPair(m.coid, m.instrument);
    JoinSnoc([m.coid, m.instrument], IntText(m.side));
    JoinSnoc([m.coid, m.instrument] + [IntText(m.side)], IntText(m.quantity));
    JoinSnoc([m.coid, m.instrument] + [IntText(m.side)] + [IntText(m.quantity)], TickText(ticks));
    IntTextClean(m.side);
    IntTextClean(m.quantity);
    TickTextClean(ticks);
    TickTextForm(ticks);
    SplitJoin(fields);
    NoCarriageReturn(text, TickText(ticks));
    assert (text + "\r")[..|text|] == text;
  }

  lemma JoinPair(a: string, b: string)
    ensures Join([a, b]) == a + "," + b
  {
    JoinSnoc([a], b);
    assert [a] + [b] == [a, b];
  }

  lemma NoCarriageReturn(text: string, price: string)
    requires |price| >= 2 && |price| <= |text| && text[|text| - |price|..] == price && AllDigits(price[|price| - 2..])
    ensures StripCr(text) == text
  {
    var n := |price|;
    assert price[n - 1] == price[n - 2..][1] && text[|text| - 1] == price[n - 1];
  }

  /** The line that carries a message becomes exactly that message. */
  lemma CarriedMessage(line: string, m: Message, ticks: nat)
    requires Sendable(m, ticks) && Carries(line, m, ticks)
    ensures |FieldsOf(line)| >= 5 && MessageOf(FieldsOf(line), m.sequence) == Ok(m)
  {
    hide FieldsOf, BufferText, ReadInt, ReadPrice, IntText, TickText, Carries;
    CarriedFields(line, m, ticks);
    WholeText(m.coid, 64);
    WholeText(m.instrument, 32);
    IntRoundTrip(m.side);
    IntRoundTrip(m.quantity);
    TickTextIsRead("", ticks);
    assert "" + TickText(ticks) == TickText(ticks);
  }

  lemma WholeText(text: string, size: nat)
    requires NUL !in text && |text| < size
    ensures BufferText(text, size) == text
  {
    assert text[..|text|] == text;
    BufferTextAt(text, size, |text|);
  }

  /**
   The round trip of the input format: a file with a header and one line for each message is sent as those
   messages, field by field and in order, and then the end of stream.
   */
  lemma FileIsSent(lines: seq<string>, ms: seq<Message>, ticks: seq<nat>)
    requires |lines| == |ms| + 1 && |ticks| == |ms|
    requires forall i :: 0 <= i < |ms| ==> Sendable(ms[i], ticks[i]) && Carries(lines[i + 1], ms[i], ticks[i])
    requires forall i :: 0 <= i < |ms| ==> ms[i].sequence == i + 1
    ensures var tokens := Stream(lines, true, 1);
            && |tokens| == |ms| + 1 && tokens[|ms|] == End
            && forall i :: 0 <= i < |ms| ==> tokens[i] == Token.Row(ms[i])
  {
    hide Sendable, Carries, FieldsOf, MessageOf;
    LinesAreSent(lines[1..], ms, ticks, 1);
  }

  lemma {:induction false} LinesAreSent(lines: seq<string>, ms: seq<Message>, ticks: seq<nat>, sequence: nat)
    requires |lines| == |ms| == |ticks|
    requires forall i :: 0 <= i < |ms| ==> Sendable(ms[i], ticks[i]) && Carries(lines[i], ms[i], ticks[i])
    requires forall i :: 0 <= i < |ms| ==> ms[i].sequence == sequence + i
    ensures var tokens := Stream(lines, false, sequence);
            && |tokens| == |ms| + 1 && tokens[|ms|] == End
            && forall i :: 0 <= i < |ms| ==> tokens[i] == Token.Row(ms[i])
    decreases |lines|
  {
    hide Sendable, Carries, FieldsOf, MessageOf;
    if lines != [] {
      CarriedMessage(lines[0], ms[0], ticks[0]);
      LinesAreSent(lines[1..], ms[1..], ticks[1..], sequence + 1);
    }
  }

  lemma StreamSkips(lines: seq<string>, i: nat, first: bool, sequence: nat)
    requires i < |lines| && (first || |FieldsOf(lines[i])| < 5)
    ensures Stream(lines[i..], first, sequence) == Stream(lines[i + 1..], false, sequence)
  {
    assert lines[i..][1..] == lines[i + 1..];
  }

  lemma StreamSends(lines: seq<string>, i: nat, sequence: nat)
    requires i < |lines| && |FieldsOf(lines[i])| >= 5
    ensures var m := MessageOf(FieldsOf(lines[i]), sequence);
            Stream(lines[i..], false, sequence) ==
            if m.Err? then [Crash] else [Token.Row(m.value)] + Stream(lines[i + 1..], false, sequence + 1)
  {
    assert lines[i..][1..] == lines[i + 1..];
  }

  /** produce, as what it pushes. */
  method Produce(lines: seq<string>) returns (sent: seq<Token>)
    ensures sent == Stream(lines, true, 1)
  {
    hide Stream, MessageOf, Split, StripCr, CSVRow.Valid;
    sent := [];
    var row := new CSVRow();
    var firstRow, sequence := true, 1;
    var i := 0;
    assert lines[0..] == lines;
    while i < |lines|
      invariant 0 <= i <= |lines|
      invariant Stream(lines, true, 1) == sent + Stream(lines[i..], firstRow, sequence)
    {
      row.ReadNextRow(lines[i]);
      i := i + 1;
      if firstRow {
        StreamSkips(lines, i - 1, firstRow, sequence);
        firstRow := false;
        continue;
      }
      if row.Size() < 5 {
        StreamSkips(lines, i - 1, firstRow, sequence);
        continue;
      }
      StreamSends(lines, i - 1, sequence);
      var m := BuildMessage(row, sequence);
      if m.Err? {
        return sent + [Crash];
      }
      Matching.Associate(sent, [Token.Row(m.value)], Stream(lines[i..], false, sequence + 1));
      sent := sent + [Token.Row(m.value)];
      sequence := sequence + 1;
    }
    assert lines[i..] == [];
    EndOfFile(firstRow, sequence);
    sent := sent + [End];
  }

  lemma EndOfFile(first: bool, sequence: nat)
    ensures Stream([], first, sequence) == [End]
  {
  }
}
