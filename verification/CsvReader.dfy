/** Comma-separated rows without quoting: the delimiter index of src/io/csv_reader.cpp and the field views over it. */
module CsvReader {
  import opened Types

  predicate NoComma(s: string) {
    ',' !in s
  }

  ghost predicate AllNoComma(fields: seq<string>) {
    forall i :: 0 <= i < |fields| ==> NoComma(fields[i])
  }

  /** The line without one trailing carriage return. */
  function StripCr(line: string): string {
    if line != [] && line[|line| - 1] == '\r' then line[..|line| - 1] else line
  }

  function Join(fields: seq<string>): string
    requires fields != []
  {
    var n := |fields| - 1;
    if n == 0 then fields[0] else Join(fields[..n]) + "," + fields[n]
  }

  /** The texts between the commas; a line without commas is one field. */
  function Split(line: string): (fields: seq<string>)
    ensures fields != []
  {
    if line == [] then [[]]
    else
      var c, before := line[|line| - 1], Split(line[..|line| - 1]);
      if c == ',' then before + [[]] else Extend(before, [c])
  }

  /** The last field continued by `text`. */
  function Extend(fields: seq<string>, text: string): seq<string>
    requires fields != []
  {
    fields[..|fields| - 1] + [fields[|fields| - 1] + text]
  }

  lemma JoinExtend(fields: seq<string>, text: string)
    requires fields != []
    ensures Join(Extend(fields, text)) == Join(fields) + text
  {
    var n := |fields| - 1;
    assert Extend(fields, text)[..n] == fields[..n];
    if n > 0 {
      assert Join(fields[..n]) + "," + (fields[n] + text) == Join(fields[..n]) + "," + fields[n] + text;
    }
  }

  lemma SplitChar(line: string, c: char)
    ensures Split(line + [c]) == if c == ',' then Split(line) + [[]] else Extend(Split(line), [c])
  {
    assert (line + [c])[..|line|] == line;
  }

  lemma JoinEmptyLast(fields: seq<string>)
    requires fields != []
    ensures Join(fields + [[]]) == Join(fields) + ","
  {
    assert (fields + [[]])[..|fields|] == fields;
  }

  /** Joining the fields of a line gives the line back. */
  lemma {:induction false} JoinSplit(line: string)
    ensures Join(Split(line)) == line && AllNoComma(Split(line))
  {
    hide Split, Join;
    if line == [] {
      ExtendSingle([]);
    } else {
      var n := |line| - 1;
      JoinSplit(line[..n]);
      SplitChar(line[..n], line[n]);
      JoinEmptyLast(Split(line[..n]));
      JoinExtend(Split(line[..n]), [line[n]]);
      assert line == line[..n] + [line[n]];
    }
  }

  /** A comma-free text stays inside the last field. */
  lemma {:induction false} SplitSuffix(line: string, text: string)
    requires NoComma(text)
    ensures Split(line + text) == Extend(Split(line), text)
  {
    hide Split, Extend;
    if text == [] {
      assert line + text == line;
      ExtendNone(Split(line));
    } else {
      var n := |text| - 1;
      SplitSuffix(line, text[..n]);
      SplitChar(line + text[..n], text[n]);
      assert line + text[..n] + [text[n]] == line + text;
      assert text[..n] + [text[n]] == text;
      ExtendTwice(Split(line), text[..n], [text[n]]);
    }
  }

  lemma ExtendTwice(fields: seq<string>, a: string, b: string)
    requires fields != []
    ensures Extend(Extend(fields, a), b) == Extend(fields, a + b)
  {
    var n := |fields| - 1;
    assert fields[n] + a + b == fields[n] + (a + b);
  }

  /** Splitting the joined text of comma-free fields gives the fields back. */
  lemma {:induction false} SplitJoin(fields: seq<string>)
    requires fields != [] && AllNoComma(fields)
    ensures Split(Join(fields)) == fields
  {
    hide Extend;
    var n := |fields| - 1;
    if n == 0 {
      SplitSuffix([], fields[0]);
      ExtendSingle(fields[0]);
      assert [] + fields[0] == fields[0];
    } else {
      SplitJoin(fields[..n]);
      SplitJoinLast(fields);
    }
  }

  lemma ExtendNone(fields: seq<string>)
    requires fields != []
    ensures Extend(fields, []) == fields
  {
    var n := |fields| - 1;
    assert fields[n] + [] == fields[n];
  }

  lemma ExtendSingle(text: string)
    ensures Split([]) == [[]] && Join([[]]) == [] && Extend([[]], text) == [text]
  {
    assert [] + text == text;
  }

  lemma SplitJoinLast(fields: seq<string>)
    requires |fields| > 1 && AllNoComma(fields)
    requires Split(Join(fields[..|fields| - 1])) == fields[..|fields| - 1]
    ensures Split(Join(fields)) == fields
  {
    hide Join, Split;
    var n := |fields| - 1;
    SplitChar(Join(fields[..n]), ',');
    SplitSuffix(Join(fields[..n]) + ",", fields[n]);
    JoinLast(fields);
    assert [] + fields[n] == fields[n];
    assert (fields[..n] + [[]])[..n] == fields[..n];
  }

  lemma JoinLast(fields: seq<string>)
    requires |fields| > 1
    ensures Join(fields) == Join(fields[..|fields| - 1]) + "," + fields[|fields| - 1]
  {
  }

  /** A line has one field more than it has commas. */
  lemma {:induction false} SplitCount(line: string)
    ensures |Split(line)| == multiset(line)[','] + 1
  {
    hide Split;
    if line == [] {
      ExtendSingle([]);
    } else {
      var n := |line| - 1;
      SplitCount(line[..n]);
      SplitChar(line[..n], line[n]);
      assert line == line[..n] + [line[n]];
    }
  }

  // ----- the delimiter index -----

  /** `field` is what lies strictly between positions `p` and `q`. */
  ghost predicate Piece(line: string, p: int, q: int, field: string) {
    -1 <= p < q <= |line| && field == line[p + 1..q]
  }

  /** The first `k` fields lie between consecutive delimiter positions. */
  ghost predicate Delimits(line: string, positions: seq<int>, fields: seq<string>, k: nat)
    requires k < |positions| && k <= |fields|
  {
    forall i {:trigger fields[i]} :: 0 <= i < k ==> Piece(line, positions[i], positions[i + 1], fields[i])
  }

  /** The complete index: -1, every comma, the length. */
  ghost predicate Indexes(line: string, positions: seq<int>) {
    && |positions| == |Split(line)| + 1
    && Delimits(line, positions, Split(line), |Split(line)|)
  }

  /** The index while the first `pos` characters are scanned: the last field is still open. */
  ghost predicate Indexing(line: string, positions: seq<int>, pos: nat)
    requires pos <= |line|
  {
    var fields := Split(line[..pos]);
    var n := |fields| - 1;
    && |positions| == n + 1
    && Delimits(line, positions, fields, n) && Piece(line, positions[n], pos, fields[n])
  }

  lemma PieceGrows(line: string, p: int, q: int, field: string)
    requires Piece(line, p, q, field) && q < |line|
    ensures Piece(line, p, q + 1, field + [line[q]])
  {
    assert line[p + 1..q + 1] == line[p + 1..q] + [line[q]];
  }

  lemma IndexStep(line: string, positions: seq<int>, pos: nat)
    requires pos < |line| && Indexing(line, positions, pos)
    ensures Indexing(line, if line[pos] == ',' then positions + [pos] else positions, pos + 1)
  {
    hide Piece, Split;
    var fields := Split(line[..pos]);
    var n := |fields| - 1;
    assert line[..pos + 1] == line[..pos] + [line[pos]];
    SplitChar(line[..pos], line[pos]);
    PieceGrows(line, positions[n], pos, fields[n]);
    EmptyPiece(line, pos);
  }

  lemma Stripped(text: string, line: string)
    requires line == if text != [] && text[|text| - 1] == '\r' then text[..|text| - 1] else text
    ensures line == StripCr(text)
  {
  }

  lemma IndexStart(line: string)
    ensures Indexing(line, [-1], 0)
  {
    assert line[..0] == [];
  }

  lemma EmptyPiece(line: string, pos: nat)
    requires pos < |line|
    ensures Piece(line, pos, pos + 1, [])
  {
  }

  lemma IndexEnd(line: string, positions: seq<int>)
    requires Indexing(line, positions, |line|)
    ensures Indexes(line, positions + [|line|])
  {
    hide Piece, Split;
    assert line[..|line|] == line;
  }

  lemma PieceAt(line: string, positions: seq<int>, index: nat)
    requires Indexes(line, positions) && index + 1 < |positions|
    ensures |Split(line)| == |positions| - 1
    ensures Piece(line, positions[index], positions[index + 1], Split(line)[index])
  {
    hide Split;
  }

  class CSVRow {
    var line: string
    var fieldPositions: seq<int>

    ghost predicate Valid()
      reads this
    {
      fieldPositions == [] || Indexes(line, fieldPositions)
    }

    constructor ()
      ensures Valid() && Size() == 0
    {
      line, fieldPositions := "", [];
    }

    /** Number of fields of the current row. */
    function Size(): nat
      reads this
    {
      if fieldPositions == [] then 0 else |fieldPositions| - 1
    }

    /** operator[]: a view of the line between two delimiters, or out of range. */
    function At(index: nat): (r: Result<string, string>)
      requires Valid()
      reads this
      ensures r.Ok? <==> index < Size()
      ensures r.Ok? ==> Size() == |Split(line)| && r.value == Split(line)[index]
    {
      hide Split, Indexes, Delimits;
      if index >= Size() then Err("CSVRow column index out of range")
      else
        PieceAt(line, fieldPositions, index);
        Ok(line[fieldPositions[index] + 1..fieldPositions[index + 1]])
    }

    /** readNextRow, given the line just read: the row is that line split at its commas. */
    method ReadNextRow(text: string)
      modifies this
      ensures Valid() && line == StripCr(text)
      ensures Size() == |Split(line)| && forall i :: 0 <= i < Size() ==> At(i) == Ok(Split(line)[i])
    {
      hide Split, Piece, Delimits, Indexing, StripCr;
      line := text;
      if line != [] && line[|line| - 1] == '\r' {
        line := line[..|line| - 1];
      }
      Stripped(text, line);
      fieldPositions := [-1];
      var pos := 0;
      IndexStart(line);
      while pos < |line|
        invariant 0 <= pos <= |line| && line == StripCr(text)
        invariant Indexing(line, fieldPositions, pos)
      {
        IndexStep(line, fieldPositions, pos);
        if line[pos] == ',' {
          fieldPositions := fieldPositions + [pos];
        }
        pos := pos + 1;
      }
      IndexEnd(line, fieldPositions);
      fieldPositions := fieldPositions + [|line|];
    }
  }
}
