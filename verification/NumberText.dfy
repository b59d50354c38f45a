/** The numeric fields of an input row and the price text of a report: src/common/types.cpp in exact arithmetic. */
module NumberText {
  import opened Types
  import opened Decimals
  import opened PriceText

  const INT_MAX: int := 0x7FFF_FFFF
  const INT_MIN: int := -0x8000_0000

  /** A C++ int: assigning to it is a proof that nothing overflows. */
  type int32 = x: int | -0x8000_0000 <= x <= 0x7FFF_FFFF

  predicate IsBlank(c: char) {
    c == ' ' || c == '\t'
  }

  predicate IsSign(c: char) {
    c == '+' || c == '-'
  }

  ghost predicate AllBlank(s: string) {
    forall i :: 0 <= i < |s| ==> s[i] == ' ' || s[i] == '\t'
  }

  /** Where the blanks that start at `i` end. */
  function BlanksEnd(s: string, i: nat): (j: nat)
    requires i <= |s|
    ensures i <= j <= |s| && (forall k :: i <= k < j ==> IsBlank(s[k])) && (j < |s| ==> !IsBlank(s[j]))
    decreases |s| - i
  {
    if i < |s| && IsBlank(s[i]) then BlanksEnd(s, i + 1) else i
  }

  /** Where the digits that start at `i` end. */
  function DigitsEnd(s: string, i: nat): (j: nat)
    requires i <= |s|
    ensures i <= j <= |s| && (forall k :: i <= k < j ==> IsDigit(s[k])) && (j < |s| ==> !IsDigit(s[j]))
    ensures AllDigits(s[i..j])
    decreases |s| - i
  {
    if i < |s| && IsDigit(s[i]) then DigitsEnd(s, i + 1) else i
  }

  function Saturate(n: nat): int {
    Min(n, INT_MAX)
  }

  // ----- integers -----

  /** What the integer parser makes of a text. */
  function ReadInt(s: string): Result<int, string> {
    var i := BlanksEnd(s, 0);
    if i == |s| then Err("stoi")
    else
      var j := if IsSign(s[i]) then i + 1 else i;
      var k := DigitsEnd(s, j);
      if k == j || BlanksEnd(s, k) < |s| then Err("stoi")
      else
        var n := Saturate(Value(s[j..k]));
        Ok(if s[i] == '-' then -n else n)
  }

  lemma {:induction false} ValuePrefix(s: string, j: nat, i: nat, k: nat)
    requires j <= i <= k <= |s| && AllDigits(s[j..k])
    ensures AllDigits(s[j..i]) && Value(s[j..i]) <= Value(s[j..k])
    ensures i < k ==> AllDigits(s[j..i + 1]) && Value(s[j..i + 1]) == Value(s[j..i]) * 10 + DigitValue(s[i])
    decreases k - i
  {
    forall l | 0 <= l < i - j
      ensures IsDigit(s[j..i][l])
    {
      assert s[j..i][l] == s[j..k][l];
    }
    if i < k {
      ValuePrefix(s, j, i + 1, k);
      assert s[j..i + 1][..i - j] == s[j..i];
      assert s[j..i + 1][i - j] == s[i];
    }
  }

  lemma NoDigits(s: string, j: nat)
    requires j <= |s|
    ensures AllDigits(s[j..j]) && Value(s[j..j]) == 0
  {
  }

  /** Skip the blanks from `i` on. */
  method SkipBlanks(s: string, i: nat) returns (j: nat)
    requires i <= |s|
    ensures j == BlanksEnd(s, i)
  {
    j := i;
    while j < |s| && IsBlank(s[j])
      invariant i <= j <= |s| && BlanksEnd(s, j) == BlanksEnd(s, i)
    {
      j := j + 1;
    }
  }

  /** The digits from `j` on as an int, saturating, with no intermediate overflow. */
  method ParseDigits(s: string, j: nat) returns (result: int32, i: nat)
    requires j <= |s|
    ensures i == DigitsEnd(s, j) && result == Saturate(Value(s[j..i]))
  {
    hide Value;
    ghost var k := DigitsEnd(s, j);
    result, i := 0, j;
    NoDigits(s, j);
    while i < |s| && IsDigit(s[i])
      invariant j <= i <= k && DigitsEnd(s, i) == k
      invariant AllDigits(s[j..i]) && result == Value(s[j..i])
    {
      var digit := DigitValue(s[i]);
      ValuePrefix(s, j, i, k);
      if result > (INT_MAX - digit) / 10 {
        result := INT_MAX;
        ValuePrefix(s, j, i + 1, k);
        while i + 1 < |s| && IsDigit(s[i + 1])
          invariant j <= i < k && DigitsEnd(s, i + 1) == k
        {
          i := i + 1;
        }
        i := i + 1;
        break;
      }
      result := result * 10 + digit;
      i := i + 1;
    }
  }

  /** string_view_to_int. */
  method StringViewToInt(s: string) returns (r: Result<int32, string>)
    ensures r == ReadInt(s)
  {
    if s == [] {
      return Err("stoi");
    }
    var i := SkipBlanks(s, 0);
    if i >= |s| {
      return Err("stoi");
    }
    var negative := false;
    if s[i] == '-' {
      negative := true;
      i := i + 1;
    } else if s[i] == '+' {
      i := i + 1;
    }
    if i >= |s| || !IsDigit(s[i]) {
      return Err("stoi");
    }
    var result;
    result, i := ParseDigits(s, i);
    i := SkipBlanks(s, i);
    if i != |s| {
      return Err("stoi");
    }
    return Ok(if negative then -result else result);
  }

  /** The accepted texts: blanks, an optional sign, one or more digits, blanks. */
  ghost predicate IntForm(s: string, lead: string, sign: string, digits: string, trail: string) {
    && AllBlank(lead) && AllBlank(trail) && sign in ["", "+", "-"] && digits != [] && AllDigits(digits)
    && s == lead + sign + digits + trail
  }

  /** Every accepted text is read as its sign times its decimal value, capped at INT_MAX. */
  lemma IntFormIsRead(s: string, lead: string, sign: string, digits: string, trail: string)
    requires IntForm(s, lead, sign, digits, trail)
    ensures var size: int := Min(Value(digits), 0x7FFF_FFFF);
            ReadInt(s) == Ok(if sign == "-" then -size else size)
  {
    hide Value, BlanksEnd, DigitsEnd;
    var i, j := |lead|, |lead| + |sign|;
    var k := j + |digits|;
    Pieces(s, lead, sign, digits, trail);
    assert s[j] == digits[0];
    assert sign != [] ==> s[i] == sign[0];
    BlanksEndAt(s, 0, i);
    DigitsEndAt(s, j, k);
    BlanksEndAt(s, k, |s|);
    assert IsSign(s[i]) <==> sign != [];
  }

  lemma BlanksEndAt(s: string, i: nat, j: nat)
    requires i <= j <= |s| && (forall k :: i <= k < j ==> IsBlank(s[k])) && (j < |s| ==> !IsBlank(s[j]))
    ensures BlanksEnd(s, i) == j
  {
  }

  lemma DigitsEndAt(s: string, i: nat, j: nat)
    requires i <= j <= |s| && (forall k :: i <= k < j ==> IsDigit(s[k])) && (j < |s| ==> !IsDigit(s[j]))
    ensures DigitsEnd(s, i) == j
  {
  }

  lemma Pieces(s: string, lead: string, sign: string, digits: string, trail: string)
    requires s == lead + sign + digits + trail
    ensures forall l :: 0 <= l < |lead| ==> s[l] == lead[l]
    ensures forall l :: |lead| <= l < |lead| + |sign| ==> s[l] == sign[l - |lead|]
    ensures forall l :: |lead| + |sign| <= l < |lead| + |sign| + |digits| ==> s[l] == digits[l - |lead| - |sign|]
    ensures forall l :: |lead| + |sign| + |digits| <= l < |s| ==> s[l] == trail[l - |lead| - |sign| - |digits|]
    ensures s[|lead| + |sign|..|lead| + |sign| + |digits|] == digits
  {
  }

  /** Nothing else is accepted. */
  lemma ReadIntForm(s: string) returns (lead: string, sign: string, digits: string, trail: string)
    requires ReadInt(s).Ok?
    ensures IntForm(s, lead, sign, digits, trail)
  {
    hide Value, Saturate, BlanksEnd, DigitsEnd;
    var i := BlanksEnd(s, 0);
    var j := if IsSign(s[i]) then i + 1 else i;
    var k := DigitsEnd(s, j);
    lead, sign, digits, trail := s[..i], s[i..j], s[j..k], s[k..];
    Rejoin(s, i, j, k);
    assert sign == if IsSign(s[i]) then [s[i]] else [];
  }

  lemma Rejoin(s: string, i: nat, j: nat, k: nat)
    requires i <= j <= k <= |s|
    ensures s == s[..i] + s[i..j] + s[j..k] + s[k..]
  {
  }

  function IntText(n: int): string {
    if n < 0 then "-" + Decimal(-n) else Decimal(n)
  }

  /** Parsing undoes printing for every int but INT_MIN, which comes back as -INT_MAX. */
  lemma IntRoundTrip(n: int)
    requires INT_MIN <= n <= INT_MAX
    ensures ReadInt(IntText(n)) == Ok(if n < -INT_MAX then -INT_MAX else n)
  {
    SignedDigits(n);
  }

  lemma SignedDigits(n: int)
    ensures ReadInt(IntText(n)) == Ok(if n < 0 then -Saturate(-n) else Saturate(n))
  {
    hide Decimal, Value, ReadInt;
    var digits := Decimal(if n < 0 then -n else n);
    var sign := if n < 0 then "-" else "";
    DecimalRoundTrip(if n < 0 then -n else n);
    assert IntText(n) == "" + sign + digits + "";
    IntFormIsRead(IntText(n), "", sign, digits, "");
  }

  // ----- prices -----

  /** Ten to the power `e`. */
  function TenTo(e: int): (r: real)
    ensures r > 0.0
    decreases if e < 0 then -e else e
  {
    if e == 0 then 1.0 else if e > 0 then 10.0 * TenTo(e - 1) else TenTo(e + 1) / 10.0
  }

  function Scaled(x: real, e: int): real {
    x * TenTo(e)
  }

  /** A string of digits behind a decimal point. */
  function Fraction(digits: string): real
    requires AllDigits(digits)
  {
    Value(digits) as real * TenTo(-|digits|)
  }

  /** Where the fraction behind position `k` ends: nothing but a point opens one. */
  function FractionEnd(s: string, k: nat): (f: nat)
    requires k <= |s|
    ensures k <= f <= |s|
  {
    if k < |s| && s[k] == '.' then DigitsEnd(s, k + 1) else k
  }

  /** The exponent at position `f`, if one is announced there, and where it ends. */
  function ReadExponent(s: string, f: nat): Result<(int, nat), string>
    requires f <= |s|
  {
    if f == |s| || (s[f] != 'e' && s[f] != 'E') then Ok((0, f))
    else
      var signed := f + 1 < |s| && IsSign(s[f + 1]);
      var g := if signed then f + 2 else f + 1;
      var h := DigitsEnd(s, g);
      var n := Saturate(Value(s[g..h]));
      if h == g then Err("stod") else Ok((if signed && s[f + 1] == '-' then -n else n, h))
  }

  /** What the price parser makes of a text. */
  function ReadPrice(s: string): Result<real, string> {
    var i := BlanksEnd(s, 0);
    if i == |s| then Err("stod")
    else
      var j := if IsSign(s[i]) then i + 1 else i;
      var k := DigitsEnd(s, j);
      var f := FractionEnd(s, k);
      if k == j && f <= k + 1 then Err("stod")
      else
        var e := ReadExponent(s, f);
        if e.Err? || BlanksEnd(s, e.value.1) < |s| then Err("stod")
        else
          var mantissa := Value(s[j..k]) as real + if f > k then Fraction(s[k + 1..f]) else 0.0;
          var value := Scaled(mantissa, e.value.0);
          Ok(if s[i] == '-' then -value else value)
  }

  lemma ReadExponentEnd(s: string, f: nat)
    requires f <= |s| && ReadExponent(s, f).Ok?
    ensures f <= ReadExponent(s, f).value.1 <= |s|
  {
  }

  /** One more fraction digit adds that digit at the next decimal place. */
  lemma FractionStep(s: string, j: nat, i: nat, k: nat)
    requires j <= i < k <= |s| && AllDigits(s[j..k])
    ensures AllDigits(s[j..i]) && AllDigits(s[j..i + 1])
    ensures Fraction(s[j..i + 1]) == Fraction(s[j..i]) + DigitValue(s[i]) as real * TenTo(-(i - j) - 1)
    ensures TenTo(-(i - j) - 1) * 0.1 == TenTo(-(i - j) - 2)
  {
    hide Value, TenTo;
    ValuePrefix(s, j, i, k);
    NextPlace(i - j);
    NextPlace(i - j + 1);
    ShiftPlace(Value(s[j..i]), DigitValue(s[i]), TenTo(-(i - j)), TenTo(-(i - j) - 1));
  }

  lemma NoFraction(s: string, j: nat)
    requires j <= |s|
    ensures AllDigits(s[j..j]) && Fraction(s[j..j]) == 0.0 && TenTo(-1) == 0.1
  {
  }

  lemma NextPlace(n: int)
    requires n >= 0
    ensures TenTo(-n) == 10.0 * TenTo(-n - 1) && TenTo(-n) * 0.1 == TenTo(-n - 1)
  {
  }

  lemma ShiftPlace(v: nat, d: nat, place: real, next: real)
    requires place == 10.0 * next
    ensures (v * 10 + d) as real * next == v as real * place + d as real * next
  {
  }

  /** The digits from `j` on as a real number. */
  method ParseWhole(s: string, j: nat) returns (value: real, i: nat)
    requires j <= |s|
    ensures i == DigitsEnd(s, j) && value == Value(s[j..i]) as real
  {
    hide Value;
    ghost var k := DigitsEnd(s, j);
    value, i := 0.0, j;
    NoDigits(s, j);
    while i < |s| && IsDigit(s[i])
      invariant j <= i <= k && DigitsEnd(s, i) == k
      invariant AllDigits(s[j..i]) && value == Value(s[j..i]) as real
    {
      ValuePrefix(s, j, i, k);
      value := value * 10.0 + DigitValue(s[i]) as real;
      i := i + 1;
    }
  }

  /** Add the fraction digits from `j` on to `whole`, each at its place. */
  method ParseFraction(s: string, j: nat, whole: real) returns (value: real, i: nat)
    requires j <= |s|
    ensures i == DigitsEnd(s, j) && value == whole + Fraction(s[j..i])
  {
    hide Value, Fraction, TenTo;
    ghost var k := DigitsEnd(s, j);
    var place := 0.1;
    value, i := whole, j;
    NoFraction(s, j);
    while i < |s| && IsDigit(s[i])
      invariant j <= i <= k && DigitsEnd(s, i) == k
      invariant place == TenTo(-(i - j) - 1)
      invariant AllDigits(s[j..i]) && value == whole + Fraction(s[j..i])
    {
      FractionStep(s, j, i, k);
      value := value + DigitValue(s[i]) as real * place;
      place := place * 0.1;
      i := i + 1;
    }
  }

  /** The exponent part, saturating like the integer parser. */
  method ParseExponent(s: string, f: nat) returns (r: Result<(int32, nat), string>)
    requires f <= |s|
    ensures r == ReadExponent(s, f)
  {
    var i := f;
    if !(i < |s| && (s[i] == 'e' || s[i] == 'E')) {
      return Ok((0, i));
    }
    i := i + 1;
    var expNegative := false;
    if i < |s| && IsSign(s[i]) {
      expNegative := s[i] == '-';
      i := i + 1;
    }
    if i >= |s| || !IsDigit(s[i]) {
      return Err("stod");
    }
    var exponent, j := ParseExponentDigits(s, i);
    return Ok((if expNegative then -exponent else exponent, j));
  }

  method ParseExponentDigits(s: string, g: nat) returns (exponent: int32, i: nat)
    requires g <= |s|
    ensures i == DigitsEnd(s, g) && exponent == Saturate(Value(s[g..i]))
  {
    hide Value;
    ghost var h := DigitsEnd(s, g);
    exponent, i := 0, g;
    NoDigits(s, g);
    while i < |s| && IsDigit(s[i])
      invariant g <= i <= h && DigitsEnd(s, i) == h
      invariant AllDigits(s[g..i]) && exponent == Saturate(Value(s[g..i]))
    {
      ValuePrefix(s, g, i, h);
      var digit := DigitValue(s[i]);
      if exponent <= (INT_MAX - digit) / 10 {
        exponent := exponent * 10 + digit;
      } else {
        exponent := INT_MAX;
      }
      i := i + 1;
    }
  }

  /** The digits on both sides of the point, and whether there were any. */
  method ParseMantissa(s: string, j: nat) returns (value: real, f: nat, hasDigit: bool)
    requires j <= |s|
    ensures var k := DigitsEnd(s, j);
            && f == FractionEnd(s, k) && (hasDigit <==> !(k == j && f <= k + 1))
            && value == Value(s[j..k]) as real + (if f > k then Fraction(s[k + 1..f]) else 0.0)
  {
    hide Value, Fraction;
    value, f := ParseWhole(s, j);
    hasDigit := f > j;
    if f < |s| && s[f] == '.' {
      f := f + 1;
      var k := f;
      value, f := ParseFraction(s, f, value);
      hasDigit := hasDigit || f > k;
    }
  }

  /** string_view_to_double, with real numbers for doubles. */
  method StringViewToDouble(s: string) returns (r: Result<real, string>)
    ensures r == ReadPrice(s)
  {
    hide Value, Fraction, FractionEnd, Scaled, ReadExponent;
    if s == [] {
      return Err("stod");
    }
    var i := SkipBlanks(s, 0);
    if i >= |s| {
      return Err("stod");
    }
    var negative := false;
    if IsSign(s[i]) {
      negative := s[i] == '-';
      i := i + 1;
    }
    var value, f, hasDigit := ParseMantissa(s, i);
    if !hasDigit {
      return Err("stod");
    }
    var e := ParseExponent(s, f);
    if e.Err? {
      return Err("stod");
    }
    ReadExponentEnd(s, f);
    value := Scaled(value, e.value.0);
    f := SkipBlanks(s, e.value.1);
    if f != |s| {
      return Err("stod");
    }
    return Ok(if negative then -value else value);
  }

  // ----- what a price text is -----

  /** The pieces of a price text. */
  datatype PriceParts = PriceParts(
    lead: string, sign: string, whole: string, point: string, frac: string,
    mark: string, exponentSign: string, exponent: string, trail: string)
  {
    /** The pieces in the order in which they stand. */
    function Piece(n: nat): string {
      if n == 0 then lead else if n == 1 then sign else if n == 2 then whole else if n == 3 then point
      else if n == 4 then frac else if n == 5 then mark else if n == 6 then exponentSign
      else if n == 7 then exponent else if n == 8 then trail else ""
    }

    /** The text of the pieces from the `n`-th on. */
    function TextFrom(n: nat): string
      decreases 9 - n
    {
      if n >= 9 then "" else Piece(n) + TextFrom(n + 1)
    }

    /** Where the `n`-th piece begins. */
    function Start(n: nat): nat {
      if n == 0 then 0 else Start(n - 1) + |Piece(n - 1)|
    }

    lemma StartNext(n: nat)
      ensures Start(n + 1) == Start(n) + |Piece(n)|
    {
    }
  }

  /** An optional sign, digits with an optional point and at least one digit, an optional exponent with digits. */
  ghost predicate PriceForm(x: PriceParts) {
    && AllBlank(x.lead) && AllBlank(x.trail)
    && x.sign in ["", "+", "-"] && AllDigits(x.whole) && x.point in ["", "."] && AllDigits(x.frac)
    && (x.point == "" ==> x.frac == "") && (x.whole != "" || x.frac != "")
    && x.mark in ["", "e", "E"] && x.exponentSign in ["", "+", "-"] && AllDigits(x.exponent)
    && (if x.mark == "" then x.exponentSign == "" && x.exponent == "" else x.exponent != "")
  }

  /** The digits as one number, shifted by the length of the fraction and by the saturated exponent. */
  function PartsValue(x: PriceParts): real
    requires AllDigits(x.whole + x.frac) && AllDigits(x.exponent)
  {
    var mantissa := Scaled(Value(x.whole + x.frac) as real, -|x.frac|);
    var e: int := Min(Value(x.exponent), 0x7FFF_FFFF);
    var size := Scaled(mantissa, if x.exponentSign == "-" then -e else e);
    if x.sign == "-" then -size else size
  }

  /** `t` stands in `s` from `p` on. */
  ghost predicate Stands(s: string, p: nat, t: string) {
    && p + |t| <= |s| && s[p..p + |t|] == t
    && forall i :: p <= i < p + |t| ==> s[i] == t[i - p]
  }

  lemma StandsNext(s: string, p: nat, t: string, rest: string)
    requires p <= |s| && s[p..] == t + rest
    ensures Stands(s, p, t) && s[p + |t|..] == rest
  {
    assert forall i :: 0 <= i < |s| - p ==> s[p..][i] == s[p + i];
    assert s[p..p + |t|] == (t + rest)[..|t|];
    assert s[p + |t|..] == (t + rest)[|t|..];
  }

  /** Each piece of a text stands where it begins. */
  lemma {:induction false} PieceStands(s: string, x: PriceParts, n: nat)
    requires s == x.TextFrom(0) && n <= 9
    ensures x.Start(n) <= |s| && s[x.Start(n)..] == x.TextFrom(n)
    ensures n < 9 ==> Stands(s, x.Start(n), x.Piece(n))
  {
    hide PriceParts.Piece, Stands;
    if n > 0 {
      PieceStands(s, x, n - 1);
      StandsNext(s, x.Start(n - 1), x.Piece(n - 1), x.TextFrom(n));
      x.StartNext(n - 1);
    } else {
      assert s[0..] == s;
    }
    if n < 9 {
      StandsNext(s, x.Start(n), x.Piece(n), x.TextFrom(n + 1));
    }
  }

  lemma HeadStands(s: string, p: nat, t: string)
    requires Stands(s, p, t) && t != ""
    ensures p < |s| && s[p] == t[0]
  {
  }

  lemma BlanksStand(s: string, p: nat, t: string)
    requires Stands(s, p, t) && AllBlank(t) && (p + |t| < |s| ==> !IsBlank(s[p + |t|]))
    ensures p <= |s| && BlanksEnd(s, p) == p + |t|
  {
  }

  lemma DigitsStand(s: string, p: nat, t: string)
    requires Stands(s, p, t) && AllDigits(t) && (p + |t| < |s| ==> !IsDigit(s[p + |t|]))
    ensures p + |t| <= |s| && DigitsEnd(s, p) == p + |t| && s[p..p + |t|] == t
  {
  }

  /** A text laid out in its pieces, each with its mark. */
  ghost predicate Laid(s: string, x: PriceParts, i: nat, j: nat, k: nat, l: nat, f: nat, m: nat, g: nat, h: nat) {
    && i == |x.lead| && j == i + |x.sign| && k == j + |x.whole| && l == k + |x.point| && f == l + |x.frac|
    && m == f + |x.mark| && g == m + |x.exponentSign| && h == g + |x.exponent| && |s| == h + |x.trail|
    && Stands(s, 0, x.lead) && Stands(s, i, x.sign) && Stands(s, j, x.whole) && Stands(s, k, x.point)
    && Stands(s, l, x.frac) && Stands(s, f, x.mark) && Stands(s, m, x.exponentSign) && Stands(s, g, x.exponent)
    && Stands(s, h, x.trail)
  }

  lemma PartsLaid(s: string, x: PriceParts)
    requires s == x.TextFrom(0)
    ensures Laid(s, x, x.Start(1), x.Start(2), x.Start(3), x.Start(4), x.Start(5), x.Start(6), x.Start(7), x.Start(8))
  {
    hide PriceParts.TextFrom, PriceParts.Start, Stands;
    PieceAt(s, x, 0);
    PieceAt(s, x, 1);
    PieceAt(s, x, 2);
    PieceAt(s, x, 3);
    PieceAt(s, x, 4);
    PieceAt(s, x, 5);
    PieceAt(s, x, 6);
    PieceAt(s, x, 7);
    PieceAt(s, x, 8);
    PieceStands(s, x, 9);
    Ends(x);
    assert |s[x.Start(9)..]| == 0;
  }

  lemma PieceAt(s: string, x: PriceParts, n: nat)
    requires s == x.TextFrom(0) && n < 9
    ensures Stands(s, x.Start(n), x.Piece(n)) && x.Start(n + 1) == x.Start(n) + |x.Piece(n)|
  {
    hide PriceParts.TextFrom, PriceParts.Start, PriceParts.Piece, Stands;
    PieceStands(s, x, n);
    x.StartNext(n);
  }

  lemma Ends(x: PriceParts)
    ensures x.Start(0) == 0 && x.TextFrom(9) == ""
  {
  }

  /** What the scanner meets behind each piece of a text of the form. */
  lemma ScanMarks(s: string, x: PriceParts, i: nat, j: nat, k: nat, l: nat, f: nat, m: nat, g: nat, h: nat)
    requires PriceForm(x) && Laid(s, x, i, j, k, l, f, m, g, h)
    ensures i < |s| && BlanksEnd(s, 0) == i
    ensures (IsSign(s[i]) <==> x.sign != "") && (s[i] == '-' <==> x.sign == "-")
    ensures DigitsEnd(s, j) == k && s[j..k] == x.whole && FractionEnd(s, k) == f
    ensures x.point != "" ==> k + 1 == l && s[l..f] == x.frac
    ensures h <= |s| && BlanksEnd(s, h) == |s|
  {
    hide Stands, BlanksEnd, DigitsEnd;
    ScanSign(s, x, i, j, k, l, f, m, g, h);
    ScanMantissa(s, x, i, j, k, l, f, m, g, h);
    BlanksStand(s, 0, x.lead);
    BlanksStand(s, h, x.trail);
  }

  lemma ScanSign(s: string, x: PriceParts, i: nat, j: nat, k: nat, l: nat, f: nat, m: nat, g: nat, h: nat)
    requires PriceForm(x) && Laid(s, x, i, j, k, l, f, m, g, h)
    ensures i < |s| && !IsBlank(s[i])
    ensures (IsSign(s[i]) <==> x.sign != "") && (s[i] == '-' <==> x.sign == "-")
  {
    hide Stands;
    if x.sign != "" {
      HeadStands(s, i, x.sign);
    } else if x.whole != "" {
      HeadStands(s, i, x.whole);
    } else {
      HeadStands(s, i, x.point);
    }
  }

  lemma ScanMantissa(s: string, x: PriceParts, i: nat, j: nat, k: nat, l: nat, f: nat, m: nat, g: nat, h: nat)
    requires PriceForm(x) && Laid(s, x, i, j, k, l, f, m, g, h)
    ensures DigitsEnd(s, j) == k && s[j..k] == x.whole && FractionEnd(s, k) == f
    ensures x.point != "" ==> k + 1 == l && s[l..f] == x.frac
  {
    hide Stands, BlanksEnd, DigitsEnd;
    BehindMantissa(s, x, i, j, k, l, f, m, g, h);
    if x.point != "" {
      HeadStands(s, k, x.point);
      DigitsStand(s, l, x.frac);
    }
    DigitsStand(s, j, x.whole);
  }

  /** What follows the mantissa is neither a digit nor a point, and an exponent mark exactly if there is an exponent. */
  lemma BehindMantissa(s: string, x: PriceParts, i: nat, j: nat, k: nat, l: nat, f: nat, m: nat, g: nat, h: nat)
    requires PriceForm(x) && Laid(s, x, i, j, k, l, f, m, g, h)
    ensures f < |s| ==> !IsDigit(s[f]) && s[f] != '.' && ((s[f] == 'e' || s[f] == 'E') <==> x.mark != "")
    ensures x.mark != "" ==> f < |s|
  {
    hide Stands;
    if x.mark != "" {
      HeadStands(s, f, x.mark);
    } else if f < |s| {
      HeadStands(s, f, x.trail);
    }
  }

  lemma ScanExponent(s: string, x: PriceParts, i: nat, j: nat, k: nat, l: nat, f: nat, m: nat, g: nat, h: nat)
    requires PriceForm(x) && Laid(s, x, i, j, k, l, f, m, g, h)
    ensures var e: int := Min(Value(x.exponent), 0x7FFF_FFFF);
            f <= |s| && ReadExponent(s, f) == Ok((if x.exponentSign == "-" then -e else e, h))
  {
    hide Stands, Value, DigitsEnd;
    BehindMantissa(s, x, i, j, k, l, f, m, g, h);
    if x.mark == "" {
      NoDigits("", 0);
      assert ""[0..0] == x.exponent;
    } else {
      HeadStands(s, g, x.exponent);
      if x.exponentSign != "" {
        HeadStands(s, m, x.exponentSign);
      }
      if h < |s| {
        HeadStands(s, h, x.trail);
      }
      DigitsStand(s, g, x.exponent);
    }
  }

  /** The digits on both sides of the point are the digits of one number. */
  lemma MantissaValue(whole: string, frac: string)
    requires AllDigits(whole) && AllDigits(frac)
    ensures AllDigits(whole + frac)
    ensures Value(whole) as real + Fraction(frac) == Scaled(Value(whole + frac) as real, -|frac|)
    ensures frac == "" ==> Fraction(frac) == 0.0
  {
    hide Value, TenTo, Pow10;
    ValueAppend(whole, frac);
    PowerPair(|frac|);
    Distribute(Value(whole), Pow10(|frac|), Value(frac), TenTo(-|frac|));
    if frac == "" {
      NoFraction("", 0);
      assert ""[0..0] == frac;
    }
  }

  /** Upwards the powers of ten are the whole ones, downwards their inverses. */
  lemma {:induction false} PowerPair(n: int)
    requires n >= 0
    ensures TenTo(n) == Pow10(n) as real && Pow10(n) as real * TenTo(-n) == 1.0
    decreases n
  {
    if n > 0 {
      PowerPair(n - 1);
      NextPlace(n - 1);
      ScaleBoth(Pow10(n - 1), TenTo(-(n - 1)), TenTo(-n));
    }
  }

  lemma ScaleBoth(p: nat, x: real, y: real)
    requires p as real * x == 1.0 && x == 10.0 * y
    ensures (10 * p) as real * y == 1.0
  {
  }

  lemma Distribute(w: nat, p: nat, v: nat, t: real)
    requires p as real * t == 1.0
    ensures w as real + v as real * t == (w * p + v) as real * t
  {
    assert (w * p) as real == w as real * p as real;
    assert (w * p) as real * t == w as real * (p as real * t);
  }

  /** Every text of the form is read as its parts say. */
  lemma PriceFormIsRead(s: string, x: PriceParts)
    requires PriceForm(x) && s == x.TextFrom(0)
    ensures AllDigits(x.whole + x.frac) && ReadPrice(s) == Ok(PartsValue(x))
  {
    hide PriceParts.Start, PriceParts.TextFrom, Stands, BlanksEnd, DigitsEnd, FractionEnd, ReadExponent,
         Value, Fraction, Scaled, Saturate;
    PartsLaid(s, x);
    LaidIsRead(s, x, x.Start(1), x.Start(2), x.Start(3), x.Start(4), x.Start(5), x.Start(6), x.Start(7), x.Start(8));
  }

  lemma LaidIsRead(s: string, x: PriceParts, i: nat, j: nat, k: nat, l: nat, f: nat, m: nat, g: nat, h: nat)
    requires PriceForm(x) && Laid(s, x, i, j, k, l, f, m, g, h)
    ensures AllDigits(x.whole + x.frac) && ReadPrice(s) == Ok(PartsValue(x))
  {
    hide Stands, BlanksEnd, DigitsEnd, FractionEnd, ReadExponent, Value, Fraction, Scaled, Saturate;
    ScanMarks(s, x, i, j, k, l, f, m, g, h);
    ScanExponent(s, x, i, j, k, l, f, m, g, h);
    MantissaValue(x.whole, x.frac);
  }

  /** An exponent shifts the point: 1e2 is a hundred, 5E-1 is a half. */
  lemma ExponentsShift()
    ensures ReadPrice("1e2") == Ok(100.0) && ReadPrice("5E-1") == Ok(0.5)
  {
    hide ReadPrice, Value, TenTo, PriceParts.TextFrom;
    OneDigit("1", "e", "", "2");
    assert "1" + "e" + "" + "2" == "1e2";
    OneDigit("5", "E", "-", "1");
    assert "5" + "E" + "-" + "1" == "5E-1";
    SmallPowers();
  }

  lemma OneDigit(a: string, mark: string, sign: string, b: string)
    requires |a| == |b| == 1 && AllDigits(a) && AllDigits(b) && mark in ["e", "E"] && sign in ["", "-"]
    ensures var e: int := DigitValue(b[0]);
            ReadPrice(a + mark + sign + b)
            == Ok(Scaled(Scaled(DigitValue(a[0]) as real, 0), if sign == "-" then -e else e))
  {
    hide ReadPrice, TenTo, PriceParts.TextFrom, Scaled;
    var s := a + mark + sign + b;
    var x := PriceParts("", "", a, "", "", mark, sign, b, "");
    var g := 2 + |sign|;
    assert s[..0] == "" && s[0..0] == "" && s[0..1] == a && s[1..1] == "" && s[1..2] == mark && s[2..g] == sign;
    assert s[g..g + 1] == b && s[g + 1..] == "";
    SlicesJoin(s, x, 0, 0, 1, 1, 1, 2, g, g + 1);
    PriceFormIsRead(s, x);
    assert a + "" == a;
    OneDigitValue(a);
    OneDigitValue(b);
    var e: int := Value(b);
    assert PartsValue(x) == Scaled(Scaled(Value(a) as real, -0), if sign == "-" then -e else e);
  }

  lemma OneDigitValue(s: string)
    requires |s| == 1 && AllDigits(s)
    ensures Value(s) == DigitValue(s[0])
  {
    assert s[..|s| - 1] == [];
  }

  lemma SmallPowers()
    ensures TenTo(-1) == 0.1 && TenTo(0) == 1.0 && TenTo(2) == 100.0
  {
    assert TenTo(1) == 10.0;
  }

  /** No other text is accepted. */
  lemma ReadPriceForm(s: string) returns (x: PriceParts)
    requires ReadPrice(s).Ok?
    ensures PriceForm(x) && s == x.TextFrom(0)
  {
    hide PriceParts.TextFrom, ReadPrice, ReadExponent;
    var i, j, k, l, f := MantissaMarks(s);
    var m, g, h := ExponentMarks(s, f);
    x := PriceParts(s[..i], s[i..j], s[j..k], s[k..l], s[l..f], s[f..m], s[m..g], s[g..h], s[h..]);
    SlicesJoin(s, x, i, j, k, l, f, m, g, h);
    TrailBlank(s, f);
  }

  /** Where the pieces up to the end of the mantissa begin. */
  lemma MantissaMarks(s: string) returns (i: nat, j: nat, k: nat, l: nat, f: nat)
    requires ReadPrice(s).Ok?
    ensures i <= j <= k <= l <= f <= |s| && AllBlank(s[..i]) && s[i..j] in ["", "+", "-"] && AllDigits(s[j..k])
    ensures s[k..l] in ["", "."] && AllDigits(s[l..f]) && (s[k..l] == "" ==> s[l..f] == "")
    ensures s[j..k] != "" || s[l..f] != ""
    ensures ReadExponent(s, f).Ok? && BlanksEnd(s, ReadExponent(s, f).value.1) == |s|
  {
    hide Value, Fraction, Scaled, Saturate, BlanksEnd, DigitsEnd, ReadExponent;
    i := BlanksEnd(s, 0);
    j := if IsSign(s[i]) then i + 1 else i;
    k := DigitsEnd(s, j);
    f := FractionEnd(s, k);
    l := if f > k then k + 1 else k;
    SignSlice(s, i, j);
    PointSlice(s, k, l);
    ReadExponentEnd(s, f);
  }

  lemma SignSlice(s: string, p: nat, q: nat)
    requires p <= q <= p + 1 && q <= |s| && (q == p + 1 ==> IsSign(s[p]))
    ensures s[p..q] in ["", "+", "-"] && (s[p..q] == "" <==> q == p)
  {
    assert s[p..q] == if q == p then "" else if s[p] == '+' then "+" else "-";
  }

  lemma PointSlice(s: string, p: nat, q: nat)
    requires p <= q <= p + 1 && q <= |s| && (q == p + 1 ==> s[p] == '.')
    ensures s[p..q] in ["", "."] && (s[p..q] == "" <==> q == p)
  {
    assert s[p..q] == if q == p then "" else ".";
  }

  lemma MarkSlice(s: string, p: nat)
    requires p < |s| && (s[p] == 'e' || s[p] == 'E')
    ensures s[p..p + 1] in ["e", "E"]
  {
    assert s[p..p + 1] == if s[p] == 'e' then "e" else "E";
  }

  lemma TrailBlank(s: string, f: nat)
    requires f <= |s| && ReadExponent(s, f).Ok?
    requires f <= ReadExponent(s, f).value.1 <= |s| && BlanksEnd(s, ReadExponent(s, f).value.1) == |s|
    ensures AllBlank(s[ReadExponent(s, f).value.1..])
  {
    hide ReadExponent;
  }

  /** Where the pieces of an exponent begin. */
  lemma ExponentMarks(s: string, f: nat) returns (m: nat, g: nat, h: nat)
    requires f <= |s| && ReadExponent(s, f).Ok?
    ensures f <= m <= g <= h <= |s| && h == ReadExponent(s, f).value.1
    ensures s[f..m] in ["", "e", "E"] && s[m..g] in ["", "+", "-"] && AllDigits(s[g..h])
    ensures if s[f..m] == "" then s[m..g] == "" && s[g..h] == "" else s[g..h] != ""
  {
    hide Value, Saturate, DigitsEnd;
    if f == |s| || (s[f] != 'e' && s[f] != 'E') {
      m, g, h := f, f, f;
      assert s[f..f] == "";
    } else {
      m := f + 1;
      g := if m < |s| && IsSign(s[m]) then m + 1 else m;
      h := DigitsEnd(s, g);
      MarkSlice(s, f);
      SignSlice(s, m, g);
    }
  }

  lemma SlicesJoin(s: string, x: PriceParts, i: nat, j: nat, k: nat, l: nat, f: nat, m: nat, g: nat, h: nat)
    requires i <= j <= k <= l <= f <= m <= g <= h <= |s|
    requires x == PriceParts(s[..i], s[i..j], s[j..k], s[k..l], s[l..f], s[f..m], s[m..g], s[g..h], s[h..])
    ensures s == x.TextFrom(0)
  {
    hide PriceParts.TextFrom;
    TextStep(s, x, 9, |s|, |s|);
    TextStep(s, x, 8, h, |s|);
    TextStep(s, x, 7, g, h);
    TextStep(s, x, 6, m, g);
    TextStep(s, x, 5, f, m);
    TextStep(s, x, 4, l, f);
    TextStep(s, x, 3, k, l);
    TextStep(s, x, 2, j, k);
    TextStep(s, x, 1, i, j);
    TextStep(s, x, 0, 0, i);
    assert s[0..] == s;
  }

  lemma TextStep(s: string, x: PriceParts, n: nat, p: nat, q: nat)
    requires n <= 9 && p <= q <= |s| && x.Piece(n) == s[p..q]
    requires if n == 9 then p == |s| else s[q..] == x.TextFrom(n + 1)
    ensures s[p..] == x.TextFrom(n)
  {
    hide PriceParts.Piece;
    assert s[p..] == s[p..q] + s[q..];
  }

  // ----- the price text of a report -----

  /** A tick text, signed or not, read back as a price is that many hundredths. */
  lemma TickTextIsRead(sign: string, ticks: nat)
    requires sign in ["", "-"]
    ensures ReadPrice(sign + TickText(ticks)) == Ok(if sign == "-" then -ToPrice(ticks) else ToPrice(ticks))
  {
    hide Value, Decimal, Scaled, PriceParts.TextFrom, ReadPrice;
    var whole, cents := Decimal(ticks / 100), [Digit(ticks % 100 / 10), Digit(ticks % 10)];
    var x := PriceParts("", sign, whole, ".", cents, "", "", "", "");
    DecimalRoundTrip(ticks / 100);
    PlainText(sign, whole, cents);
    PriceFormIsRead(sign + TickText(ticks), x);
    CentsValue(ticks % 100 / 10, ticks % 10);
    ValueAppend(whole, cents);
    HundredthsAdd(ticks);
    NoDigits("", 0);
    assert ""[0..0] == "";
    TwoPlaces(ticks);
  }

  lemma PlainText(sign: string, whole: string, cents: string)
    ensures PriceParts("", sign, whole, ".", cents, "", "", "", "").TextFrom(0) == sign + (whole + "." + cents)
  {
    hide PriceParts.TextFrom;
    var s := sign + (whole + "." + cents);
    var j, k := |sign|, |sign| + |whole|;
    var x := PriceParts("", sign, whole, ".", cents, "", "", "", "");
    assert s[..0] == "" && s[0..j] == sign && s[j..k] == whole && s[k..k + 1] == "." && s[k + 1..|s|] == cents;
    assert s[|s|..|s|] == "" && s[|s|..] == "";
    SlicesJoin(s, x, 0, j, k, k + 1, |s|, |s|, |s|, |s|);
  }

  lemma CentsValue(a: nat, b: nat)
    requires a < 10 && b < 10
    ensures Value([Digit(a), Digit(b)]) == a * 10 + b && Pow10(2) == 100
  {
    var d := [Digit(a), Digit(b)];
    assert d[..1] == [Digit(a)] && d[..1][..0] == [];
    assert Value(d[..1]) == a;
    assert Value(d) == Value(d[..1]) * 10 + b;
  }

  lemma HundredthsAdd(ticks: nat)
    ensures ticks / 100 * 100 + (ticks % 100 / 10 * 10 + ticks % 10) == ticks
  {
    LastDigit(ticks / 100, ticks % 100);
  }

  lemma LastDigit(q: nat, c: nat)
    requires c < 100
    ensures (q * 100 + c) % 10 == c % 10 && c / 10 * 10 + c % 10 == c
  {
    assert q * 100 + c == (q * 10 + c / 10) * 10 + c % 10;
  }

  lemma TwoPlaces(ticks: nat)
    ensures Scaled(Scaled(ticks as real, -2), 0) == ToPrice(ticks)
  {
    assert TenTo(0) == 1.0 && TenTo(-1) == 0.1;
    assert TenTo(-2) == 0.01;
  }

  /** Printing then parsing then rounding returns the tick count: for every 64-bit count nothing is lost. */
  lemma TickTextRoundTrip(ticks: nat)
    requires ticks <= MAX_TICK
    ensures ReadPrice(TickText(ticks)).Ok? && ToTicks(ReadPrice(TickText(ticks)).value) == ticks
  {
    assert "" + TickText(ticks) == TickText(ticks);
    TickTextIsRead("", ticks);
    TickRoundTrip(ticks);
  }

  lemma TickTextInjective(a: nat, b: nat)
    requires TickText(a) == TickText(b)
    ensures a == b
  {
    hide TickText, ReadPrice;
    assert "" + TickText(a) == "" + TickText(b);
    TickTextIsRead("", a);
    TickTextIsRead("", b);
  }

  /** A tick text is its whole units without leading zeros, a point, and two digits of hundredths. */
  lemma TickTextForm(ticks: nat)
    ensures var text := TickText(ticks);
            && |text| >= 4 && text[|text| - 3] == '.'
            && var whole, cents := text[..|text| - 3], text[|text| - 2..];
               && AllDigits(whole) && AllDigits(cents) && 100 * Value(whole) + Value(cents) == ticks
               && (whole[0] == '0' ==> |whole| == 1)
  {
    hide Decimal, Value;
    var text, whole, cents := TickText(ticks), Decimal(ticks / 100), [Digit(ticks % 100 / 10), Digit(ticks % 10)];
    DecimalRoundTrip(ticks / 100);
    DecimalShortest(ticks / 100);
    DecimalZero();
    assert text[..|text| - 3] == whole && text[|text| - 2..] == cents;
    CentsValue(ticks % 100 / 10, ticks % 10);
    HundredthsAdd(ticks);
  }

  lemma DecimalZero()
    ensures Decimal(0) == "0"
  {
  }

  /**
   The price of a reject prints, and reads back, as the nearest whole number of hundredths, halves away from zero,
   with a minus sign exactly in front of a negative one. Above 64 bits it saturates, below them it is empty.
   */
  lemma SignedTextIsRead(price: real) returns (cents: int)
    ensures 100.0 * price > MAX_TICK as real ==> cents == MAX_TICK
    ensures 0.0 <= 100.0 * price <= MAX_TICK as real ==> -0.5 <= 100.0 * price - cents as real < 0.5
    ensures price < 0.0 ==> -0.5 < 100.0 * price - cents as real <= 0.5
    ensures if 100.0 * price < -0x8000_0000_0000_0000 as real then SignedPriceText(price) == ""
            else
              var size := if cents < 0 then -cents else cents;
              && SignedPriceText(price) == (if cents < 0 then "-" else "") + TickText(size)
              && ReadPrice(SignedPriceText(price)) == Ok(cents as real / 100.0)
  {
    hide TickText, ReadPrice;
    cents := if price >= 0.0 then ToTicks(price) else Round(price * TICKS_PER_UNIT);
    TickTextIsRead(if cents < 0 then "-" else "", if cents < 0 then -cents else cents);
  }

  // ----- printing into a buffer -----

  /** `text` placed at `at` in `whole`, everything else as it was. */
  function Overwrite(whole: string, at: nat, text: string): string
    requires at + |text| <= |whole|
  {
    whole[..at] + text + whole[at + |text|..]
  }

  lemma OverwriteTwice(whole: string, at: nat, a: string, b: string)
    requires at + |a| + |b| <= |whole|
    ensures Overwrite(Overwrite(whole, at, a), at + |a|, b) == Overwrite(whole, at, a + b)
  {
    var one, both := Overwrite(whole, at, a), Overwrite(whole, at, a + b);
    var two := Overwrite(one, at + |a|, b);
    assert |two| == |both|;
    forall i | 0 <= i < |both|
      ensures two[i] == both[i]
    {
    }
  }

  /** *out++ = ..., once per character. */
  method Put(buffer: array<char>, at: nat, text: string) returns (next: nat)
    requires at + |text| <= buffer.Length
    modifies buffer
    ensures next == at + |text| && buffer[..] == Overwrite(old(buffer[..]), at, text)
  {
    next := at;
    ghost var was := buffer[..];
    while next < at + |text|
      invariant at <= next <= at + |text|
      invariant forall i :: 0 <= i < buffer.Length ==>
                  buffer[i] == if at <= i < next then text[i - at] else was[i]
    {
      buffer[next] := text[next - at];
      next := next + 1;
    }
    assert buffer[..] == Overwrite(was, at, text);
  }

  /** std::to_chars: the decimal text if it fits before `last`. */
  method ToChars(buffer: array<char>, first: nat, last: nat, value: nat) returns (end: Option<nat>)
    requires first <= last <= buffer.Length
    modifies buffer
    ensures end == if first + |Decimal(value)| <= last then Some(first + |Decimal(value)|) else None
    ensures buffer[..] == if end.Some? then Overwrite(old(buffer[..]), first, Decimal(value)) else old(buffer[..])
  {
    var digits := Decimal(value);
    if first + |digits| > last {
      return None;
    }
    var next := Put(buffer, first, digits);
    return Some(next);
  }

  const NUL: char := '\0'

  /** format_ticks_to_buffer: succeeds exactly when the text and its terminator fit. */
  method FormatTicks(ticks: nat, buffer: array?<char>) returns (len: nat)
    modifies if buffer == null then {} else {buffer}
    ensures buffer == null ==> len == 0
    ensures buffer != null ==>
              len == if |TickText(ticks)| + 1 <= buffer.Length then |TickText(ticks)| else 0
    ensures buffer != null && len > 0 ==> buffer[..] == Overwrite(old(buffer[..]), 0, TickText(ticks) + [NUL])
    ensures buffer != null && len == 0 && buffer.Length >= 5 ==> buffer[0] == NUL
  {
    hide Decimal;
    DecimalRoundTrip(ticks / 100);
    if buffer == null || buffer.Length < 5 {
      return 0;
    }
    var digits := ToChars(buffer, 0, buffer.Length, ticks / 100);
    if digits.None? {
      buffer[0] := NUL;
      return 0;
    }
    var out := digits.value;
    if out + 4 > buffer.Length {
      buffer[0] := NUL;
      return 0;
    }
    OverwriteTwice(old(buffer[..]), 0, Decimal(ticks / 100), Cents(ticks) + [NUL]);
    var next := Put(buffer, out, Cents(ticks) + [NUL]);
    TextParts(ticks);
    return next - 1;
  }

  function Cents(ticks: nat): string {
    ['.', Digit(ticks % 100 / 10), Digit(ticks % 100 % 10)]
  }

  lemma TextParts(ticks: nat)
    ensures TickText(ticks) + [NUL] == Decimal(ticks / 100) + (Cents(ticks) + [NUL])
    ensures |TickText(ticks)| == |Decimal(ticks / 100)| + 3
  {
    assert ticks % 100 % 10 == ticks % 10;
    assert TickText(ticks) == Decimal(ticks / 100) + Cents(ticks);
  }

  /** Twenty-four bytes hold the text of every 64-bit tick count. */
  lemma TickTextFits(ticks: nat)
    requires ticks <= MAX_TICK
    ensures 4 <= |TickText(ticks)| < 24
  {
    assert Pow10(6) == 1000_000 by { assert Pow10(3) == 1000; }
    assert Pow10(12) == 1000_000_000_000 by { assert Pow10(9) == 1000_000_000; }
    assert Pow10(18) == 1000_000_000_000_000_000 by { assert Pow10(15) == 1000_000_000_000_000; }
    DecimalLength(ticks / 100, 18);
    TextParts(ticks);
  }
}
