/** Report rows: src/io/csv_report_writer.cpp's row buffer and batch, and their round trip through the reader. */
module CsvWriter {
  import opened Types
  import opened Decimals
  import opened NumberText
  import opened CsvReader
  import opened Exchange

  const ROW_BUFFER: nat := 320
  const BATCH_LIMIT: nat := 4 * 1024 * 1024
  const HEADER: string :=
    "Order ID,Client Order Id,Instrument" + ",Side,Exec Status,Quantity" + ",Price,Reason,Timestamp" + "\n"

  /** The sizes of an outbound message's character arrays, terminator included. */
  predicate FitsMessage(m: Outbound) {
    && |m.oid| < 32 && |m.coid| < 64 && |m.instrument| < 32 && |m.status| < 16 && |m.priceText| < 24
    && |m.reason| < 64 && |m.timestamp| < 20
    && INT_MIN <= m.side <= INT_MAX && INT_MIN <= m.quantity <= INT_MAX
  }

  /** The nine fields of a report row. */
  function Fields(m: Outbound): seq<string> {
    [m.oid, m.coid, m.instrument, IntText(m.side), m.status, IntText(m.quantity), m.priceText, m.reason, m.timestamp]
  }

  function RowText(m: Outbound): string {
    Join(Fields(m)) + "\n"
  }

  function RowsText(ms: seq<Outbound>): string {
    if ms == [] then "" else RowsText(ms[..|ms| - 1]) + RowText(ms[|ms| - 1])
  }

  lemma {:induction false} IntTextLength(n: int)
    requires INT_MIN <= n <= INT_MAX
    ensures 1 <= |IntText(n)| <= 11
  {
    assert Pow10(10) == 10_000_000_000 by { assert Pow10(5) == 100_000; }
    DecimalLength(if n < 0 then -n else n, 10);
  }

  /** append_span, and the single characters between the fields. */
  method AppendSpan(row: array<char>, out: nat, text: string) returns (next: nat)
    requires out + |text| <= row.Length
    modifies row
    ensures next == out + |text| <= row.Length && row[..next] == old(row[..out]) + text
  {
    ghost var was := row[..];
    next := Put(row, out, text);
    assert row[..next] == Overwrite(was, out, text)[..next];
    assert was[..out] == old(row[..out]);
  }

  /** write_side_to_buffer: one character for the two real sides, else the number. */
  method WriteSide(row: array<char>, out: nat, side: int) returns (next: nat)
    requires INT_MIN <= side <= INT_MAX && out + 16 <= row.Length
    modifies row
    ensures next == out + |IntText(side)| <= row.Length && row[..next] == old(row[..out]) + IntText(side)
  {
    IntTextLength(side);
    if side == BUY_CODE {
      next := AppendSpan(row, out, "1");
    } else if side == SELL_CODE {
      next := AppendSpan(row, out, "2");
    } else {
      next := AppendSpan(row, out, IntText(side));
    }
  }

  /** write_quantity_to_buffer: a table for the legal quantities, else the number. */
  method WriteQuantity(row: array<char>, out: nat, quantity: int) returns (next: nat)
    requires INT_MIN <= quantity <= INT_MAX && out + 16 <= row.Length
    modifies row
    ensures next == out + |IntText(quantity)| <= row.Length && row[..next] == old(row[..out]) + IntText(quantity)
  {
    IntTextLength(quantity);
    if 0 <= quantity <= MAX_QUANTITY {
      next := AppendSpan(row, out, Decimal(quantity));
    } else {
      next := AppendSpan(row, out, IntText(quantity));
    }
  }

  lemma JoinSnoc(fields: seq<string>, text: string)
    requires fields != []
    ensures Join(fields + [text]) == Join(fields) + "," + text
  {
    assert (fields + [text])[..|fields|] == fields;
  }

  lemma Comma(line: string, fields: seq<string>, text: string)
    requires fields != [] && line == Join(fields) + "," + text
    ensures line == Join(fields + [text])
  {
    JoinSnoc(fields, text);
  }

  /** A separator and the next field, behind the fields already written. */
  method AppendField(row: array<char>, out: nat, text: string, ghost done: seq<string>) returns (next: nat)
    requires out + 1 + |text| <= row.Length && done != [] && row[..out] == Join(done)
    modifies row
    ensures next == out + 1 + |text| <= row.Length && row[..next] == Join(done + [text])
  {
    hide Join;
    next := AppendSpan(row, out, ",");
    next := AppendSpan(row, next, text);
    Comma(row[..next], done, text);
  }

  method AppendSide(row: array<char>, out: nat, side: int, ghost done: seq<string>) returns (next: nat)
    requires INT_MIN <= side <= INT_MAX && out + 17 <= row.Length && done != [] && row[..out] == Join(done)
    modifies row
    ensures next == out + 1 + |IntText(side)| <= row.Length && row[..next] == Join(done + [IntText(side)])
  {
    hide Join, IntText;
    next := AppendSpan(row, out, ",");
    next := WriteSide(row, next, side);
    Comma(row[..next], done, IntText(side));
  }

  method AppendQuantity(row: array<char>, out: nat, quantity: int, ghost done: seq<string>) returns (next: nat)
    requires INT_MIN <= quantity <= INT_MAX && out + 17 <= row.Length && done != [] && row[..out] == Join(done)
    modifies row
    ensures next == out + 1 + |IntText(quantity)| <= row.Length && row[..next] == Join(done + [IntText(quantity)])
  {
    hide Join, IntText;
    next := AppendSpan(row, out, ",");
    next := WriteQuantity(row, next, quantity);
    Comma(row[..next], done, IntText(quantity));
  }

  /** append_csv_row: the row never outgrows its buffer, and joins the nine fields of the message. */
  method AppendCsvRow(destination: string, m: Outbound) returns (extended: string)
    requires FitsMessage(m)
    ensures extended == destination + RowText(m) && |RowText(m)| <= ROW_BUFFER
  {
    hide Join, IntText;
    IntTextLength(m.side);
    IntTextLength(m.quantity);
    var row := new char[ROW_BUFFER];
    var out := AppendSpan(row, 0, m.oid);
    JoinOne(row[..out], m.oid);
    out := AppendField(row, out, m.coid, [m.oid]);
    out := AppendField(row, out, m.instrument, [m.oid] + [m.coid]);
    ghost var three := [m.oid] + [m.coid] + [m.instrument];
    out := AppendSide(row, out, m.side, three);
    out := AppendField(row, out, m.status, three + [IntText(m.side)]);
    ghost var five := three + [IntText(m.side)] + [m.status];
    out := AppendQuantity(row, out, m.quantity, five);
    out := AppendField(row, out, m.priceText, five + [IntText(m.quantity)]);
    ghost var seven := five + [IntText(m.quantity)] + [m.priceText];
    out := AppendField(row, out, m.reason, seven);
    out := AppendField(row, out, m.timestamp, seven + [m.reason]);
    assert Fields(m) == seven + [m.reason] + [m.timestamp];
    out := AppendSpan(row, out, "\n");
    extended := destination + row[..out];
  }

  lemma JoinOne(line: string, text: string)
    requires line == [] + text
    ensures line == Join([text])
  {
  }

  // ----- the batch -----

  lemma RowsSnoc(ms: seq<Outbound>, i: nat)
    requires i < |ms|
    ensures RowsText(ms[..i + 1]) == RowsText(ms[..i]) + RowText(ms[i])
  {
    assert ms[..i + 1][..i] == ms[..i];
  }

  /** drain's batching, given the messages it will pop: the flushes lose and repeat nothing. */
  method WriteAll(ms: seq<Outbound>) returns (file: string)
    requires forall i :: 0 <= i < |ms| ==> FitsMessage(ms[i])
    ensures file == HEADER + RowsText(ms)
  {
    hide RowText, RowsText, FitsMessage;
    file := "";
    var batch := HEADER;
    var i := 0;
    RowsNone();
    while i < |ms|
      invariant 0 <= i <= |ms|
      invariant file + batch == HEADER + RowsText(ms[..i])
    {
      RowsSnoc(ms, i);
      Flushed(file, batch, HEADER + RowsText(ms[..i]), RowText(ms[i]));
      batch := AppendCsvRow(batch, ms[i]);
      if |batch| >= BATCH_LIMIT {
        file := file + batch;
        batch := "";
      }
      i := i + 1;
      assert HEADER + RowsText(ms[..i - 1]) + RowText(ms[i - 1]) == HEADER + RowsText(ms[..i]);
    }
    assert ms[..i] == ms;
    if batch != "" {
      file := file + batch;
    }
  }

  lemma RowsNone()
    ensures RowsText([]) == ""
  {
  }

  lemma Flushed(file: string, batch: string, written: string, row: string)
    requires file + batch == written
    ensures file + (batch + row) == written + row && file + (batch + row) + "" == written + row
  {
  }
}
