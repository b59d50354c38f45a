/** Bits of 64-bit words, and of a mask made of such words. */
module Bits {

  /** 1 << i, as i doublings. */
  function Pow(i: nat): bv64
    requires i < 64
  {
    if i == 0 then 1 else Double(Pow(i - 1))
  }

  // The word operators, named so that proofs about bits can treat them as black boxes.

  function Double(p: bv64): bv64 {
    p + p
  }

  function And(a: bv64, b: bv64): bv64 {
    a & b
  }

  function Or(a: bv64, b: bv64): bv64 {
    a | b
  }

  function AndNot(a: bv64, b: bv64): bv64 {
    a & !b
  }

  /** All bits below the single bit `p`. */
  function LowMask(p: bv64): bv64 {
    p - 1
  }

  predicate Bit(w: bv64, i: nat)
    requires i < 64
  {
    And(w, Pow(i)) != 0
  }

  /** Exactly one bit is set. */
  predicate OneBit(p: bv64) {
    p != 0 && p & (p - 1) == 0
  }

  lemma {:induction false} FourDoublings(i: nat)
    requires i + 4 < 64
    ensures Pow(i + 4) == Double(Double(Double(Double(Pow(i)))))
  {
    assert Pow(i + 2) == Double(Double(Pow(i)));
  }

  lemma {:induction false} FourDoublingsShift(p: bv64)
    ensures Double(Double(Double(Double(p)))) == p << 4
  {
  }

  /** The 63 doublings of the highest bit do not run off the word. */
  lemma {:induction false} TopPow()
    ensures Pow(63) == 0x8000_0000_0000_0000
  {
    assert Pow(3) == 8;
    PowShift4(3, 8);
    PowShift4(7, 0x80);
    PowShift4(11, 0x800);
    PowShift4(15, 0x8000);
    PowShift4(19, 0x8_0000);
    PowShift4(23, 0x80_0000);
    PowShift4(27, 0x800_0000);
    PowShift4(31, 0x8000_0000);
    PowShift4(35, 0x8_0000_0000);
    PowShift4(39, 0x80_0000_0000);
    PowShift4(43, 0x800_0000_0000);
    PowShift4(47, 0x8000_0000_0000);
    PowShift4(51, 0x8_0000_0000_0000);
    PowShift4(55, 0x80_0000_0000_0000);
    PowShift4(59, 0x800_0000_0000_0000);
  }

  lemma {:induction false} PowShift4(i: nat, p: bv64)
    requires i + 4 < 64 && Pow(i) == p
    ensures Pow(i + 4) == p << 4
  {
    FourDoublings(i);
    FourDoublingsShift(p);
  }

  lemma {:induction false} ZeroStays(i: nat, j: nat)
    requires i <= j < 64 && Pow(i) == 0
    ensures Pow(j) == 0
  {
    if i < j {
      ZeroStays(i, j - 1);
      DoubleZero();
    }
  }

  lemma {:induction false} DoubleZero()
    ensures Double(0) == 0 && Double(0x8000_0000_0000_0000) == 0
  {
  }

  lemma {:induction false} DoubleOneBit(p: bv64)
    requires OneBit(p) && Double(p) != 0
    ensures OneBit(Double(p)) && p < 0x8000_0000_0000_0000
  {
  }

  lemma {:induction false} PowNonZero(i: nat)
    requires i < 64
    ensures Pow(i) != 0
  {
    TopPow();
    if Pow(i) == 0 {
      ZeroStays(i, 63);
    }
  }

  lemma {:induction false} PowIsOneBit(i: nat)
    requires i < 64
    ensures OneBit(Pow(i))
  {
    PowNonZero(i);
    if i > 0 {
      PowIsOneBit(i - 1);
      DoubleOneBit(Pow(i - 1));
    }
  }

  lemma {:induction false} PowBelowTop(i: nat)
    requires i < 63
    ensures Pow(i + 1) == Double(Pow(i)) && OneBit(Pow(i)) && Pow(i) < 0x8000_0000_0000_0000
  {
    PowNonZero(i + 1);
    PowIsOneBit(i);
    DoubleOneBit(Pow(i));
  }

  lemma {:induction false} Doubled(p: bv64)
    requires p < 0x8000_0000_0000_0000 && p != 0
    ensures p < Double(p)
  {
  }

  lemma {:induction false} PowIncreases(i: nat, j: nat)
    requires i < j < 64
    ensures Pow(i) < Pow(j)
  {
    PowBelowTop(j - 1);
    Doubled(Pow(j - 1));
    if i < j - 1 {
      PowIncreases(i, j - 1);
    }
  }

  lemma {:induction false} PowOrder(i: nat, j: nat)
    requires i < 64 && j < 64
    ensures OneBit(Pow(i)) && OneBit(Pow(j))
    ensures (i < j <==> Pow(i) < Pow(j)) && (i == j <==> Pow(i) == Pow(j))
  {
    PowIsOneBit(i);
    PowIsOneBit(j);
    if i < j {
      PowIncreases(i, j);
    } else if j < i {
      PowIncreases(j, i);
    }
  }

  // ----- word identities, with no indices -----

  lemma {:induction false} OneBitsDisjoint(p: bv64, q: bv64)
    requires OneBit(p) && OneBit(q) && p != q
    ensures And(p, q) == 0
  {
  }

  lemma {:induction false} LowMaskKeeps(p: bv64, q: bv64)
    requires OneBit(p) && OneBit(q)
    ensures And(LowMask(p), q) == if q < p then q else 0
  {
    if q < p {
    } else {
    }
  }

  lemma {:induction false} OrDisjoint(a: bv64, b: bv64, q: bv64)
    requires And(b, q) == 0
    ensures And(Or(a, b), q) == And(a, q)
  {
  }

  lemma {:induction false} OrSame(a: bv64, b: bv64)
    ensures And(Or(a, b), b) == b
  {
  }

  lemma {:induction false} AndAssociates(a: bv64, b: bv64, q: bv64)
    ensures And(And(a, b), q) == And(a, And(b, q))
  {
  }

  lemma {:induction false} AndNotOver(a: bv64, b: bv64, q: bv64)
    ensures And(b, q) == 0 ==> And(AndNot(a, b), q) == And(a, q)
    ensures And(b, q) == q ==> And(AndNot(a, b), q) == 0
  {
  }

  lemma {:induction false} AndUnits(p: bv64)
    ensures And(p, p) == p && And(0, p) == 0 && And(p, 0) == 0
  {
  }

  lemma {:induction false} MaskedAbove(w: bv64, p: bv64, q: bv64)
    requires OneBit(p) && OneBit(q)
    ensures And(AndNot(w, LowMask(p)), q) == if q < p then 0 else And(w, q)
  {
    LowMaskKeeps(p, q);
    AndNotOver(w, LowMask(p), q);
  }

  lemma {:induction false} MaskedBelow(w: bv64, p: bv64, q: bv64)
    requires OneBit(p) && OneBit(q)
    ensures And(And(w, LowMask(p)), q) == if q < p then And(w, q) else 0
  {
    LowMaskKeeps(p, q);
    AndAssociates(w, LowMask(p), q);
    AndUnits(w);
  }

  lemma {:induction false} ClearUpTo(w: bv64, p: bv64)
    requires OneBit(p) && And(w, LowMask(p)) == 0 && And(w, p) == 0
    ensures And(w, LowMask(Double(p))) == 0
  {
  }

  // ----- setting, clearing and masking bits -----

  lemma {:induction false} SetBit(w: bv64, i: nat, j: nat)
    requires i < 64 && j < 64
    ensures Bit(Or(w, Pow(i)), j) <==> Bit(w, j) || i == j
  {
    PowOrder(i, j);
    if i == j {
      OrSame(w, Pow(j));
    } else {
      OneBitsDisjoint(Pow(i), Pow(j));
      OrDisjoint(w, Pow(i), Pow(j));
    }
  }

  lemma {:induction false} ClearBit(w: bv64, i: nat, j: nat)
    requires i < 64 && j < 64
    ensures Bit(AndNot(w, Pow(i)), j) <==> Bit(w, j) && i != j
  {
    PowOrder(i, j);
    AndNotOver(w, Pow(i), Pow(j));
    AndUnits(Pow(j));
    if i != j {
      OneBitsDisjoint(Pow(i), Pow(j));
    }
  }

  lemma {:induction false} ZeroHasNoBit(j: nat)
    requires j < 64
    ensures !Bit(0, j)
  {
    AndUnits(Pow(j));
  }

  /** `w` without the bits at or below `b`. */
  function Above(w: bv64, b: nat): bv64
    requires b < 64
  {
    if b < 63 then AndNot(w, LowMask(Pow(b + 1))) else 0
  }

  /** `w` without the bits at or above `b`. */
  function Below(w: bv64, b: nat): bv64
    requires b < 64
  {
    if b > 0 then And(w, LowMask(Pow(b))) else 0
  }

  lemma {:induction false} AboveKeeps(w: bv64, b: nat, j: nat)
    requires b < 64 && j < 64
    ensures Bit(Above(w, b), j) <==> Bit(w, j) && j > b
  {
    if b < 63 {
      PowOrder(j, b + 1);
      MaskedAbove(w, Pow(b + 1), Pow(j));
    } else {
      ZeroHasNoBit(j);
    }
  }

  lemma {:induction false} BelowKeeps(w: bv64, b: nat, j: nat)
    requires b < 64 && j < 64
    ensures Bit(Below(w, b), j) <==> Bit(w, j) && j < b
  {
    PowOrder(j, b);
    if b > 0 {
      MaskedBelow(w, Pow(b), Pow(j));
    } else {
      ZeroHasNoBit(j);
    }
  }

  /** A word without any of its 64 bits is zero. */
  lemma {:induction false} TopBitLeft(w: bv64)
    requires And(w, LowMask(Pow(63))) == 0 && !Bit(w, 63)
    ensures w == 0
  {
    TopPow();
    NothingLeft(w, Pow(63));
  }

  lemma {:induction false} NothingLeft(w: bv64, p: bv64)
    requires p == 0x8000_0000_0000_0000 && And(w, LowMask(p)) == 0 && And(w, p) == 0
    ensures w == 0
  {
  }

  /** A nonzero word whose bits below `i` are clear has a set bit at or above `i`. */
  lemma {:induction false} SomeBit(w: bv64, i: nat) returns (j: nat)
    requires w != 0 && i < 64 && And(w, LowMask(Pow(i))) == 0
    ensures i <= j < 64 && Bit(w, j)
    decreases 64 - i
  {
    if Bit(w, i) {
      j := i;
    } else if i < 63 {
      PowBelowTop(i);
      ClearUpTo(w, Pow(i));
      j := SomeBit(w, i + 1);
    } else {
      TopBitLeft(w);
      assert false;
    }
  }

  lemma {:induction false} NonZeroHasBit(w: bv64) returns (j: nat)
    requires w != 0
    ensures j < 64 && Bit(w, j)
  {
    AndUnits(w);
    assert LowMask(Pow(0)) == 0;
    j := SomeBit(w, 0);
  }

  /** __builtin_ctzll: the number of zero bits below the lowest set bit. */
  method CountTrailingZeros(w: bv64) returns (n: nat)
    requires w != 0
    ensures n < 64 && Bit(w, n) && forall k :: 0 <= k < n ==> !Bit(w, k)
  {
    ghost var j := NonZeroHasBit(w);
    n := 0;
    while !Bit(w, n)
      invariant n <= j
      invariant forall k :: 0 <= k < n ==> !Bit(w, k)
      decreases j - n
    {
      n := n + 1;
    }
  }

  /** __builtin_clzll: the number of zero bits above the highest set bit. */
  method CountLeadingZeros(w: bv64) returns (n: nat)
    requires w != 0
    ensures n < 64 && Bit(w, 63 - n) && forall k :: 63 - n < k < 64 ==> !Bit(w, k)
  {
    ghost var j := NonZeroHasBit(w);
    n := 0;
    while !Bit(w, 63 - n)
      invariant n <= 63 - j
      invariant forall k :: 63 - n < k < 64 ==> !Bit(w, k)
      decreases 63 - j - n
    {
      n := n + 1;
    }
  }

  // ----- masks -----

  /** Tick `t` is marked in the mask; ticks beyond the last word are not. */
  predicate Marked(mask: seq<bv64>, t: nat) {
    t / 64 < |mask| && Bit(mask[t / 64], t % 64)
  }

  /** `r` is the least marked tick strictly above `t`, or -1 if there is none. */
  ghost predicate IsNextMarked(mask: seq<bv64>, t: nat, r: int) {
    && (r == -1 || (r > t && Marked(mask, r)))
    && (forall k: nat :: t < k && (r == -1 || k < r) ==> !Marked(mask, k))
  }

  /** `r` is the greatest marked tick strictly below `t`, or -1 if there is none. */
  ghost predicate IsPrevMarked(mask: seq<bv64>, t: nat, r: int) {
    && (r == -1 || (0 <= r < t && Marked(mask, r)))
    && (forall k: nat :: r < k < t ==> !Marked(mask, k))
  }

  /** BitmaskOrderBook::find_next_from. */
  method FindNextFrom(mask: array<bv64>, tick: nat) returns (r: int)
    ensures IsNextMarked(mask[..], tick, r)
  {
    var word, bitInWord := tick / 64, tick % 64;
    if word >= mask.Length {
      return -1;
    }
    var bits := Above(mask[word], bitInWord);
    AllAboveKeeps(mask[word], bitInWord);
    if bits != 0 {
      var zeros := CountTrailingZeros(bits);
      r := word * 64 + zeros;
      assert r / 64 == word && r % 64 == zeros;
      forall k: nat | tick < k < r
        ensures !Marked(mask[..], k)
      {
        assert k / 64 == word && k % 64 < zeros && k % 64 > bitInWord;
      }
      return;
    }
    var i := word + 1;
    assert forall k: nat :: tick < k < i * 64 ==> k / 64 == word && k % 64 > bitInWord;
    while i < mask.Length && mask[i] == 0
      invariant word < i <= mask.Length
      invariant forall k: nat :: tick < k < i * 64 ==> !Marked(mask[..], k)
    {
      NoneMarkedInWord(mask[..], i);
      i := i + 1;
    }
    if i < mask.Length {
      var zeros := CountTrailingZeros(mask[i]);
      r := i * 64 + zeros;
      assert r / 64 == i && r % 64 == zeros;
      assert forall k: nat :: i * 64 <= k < r ==> k / 64 == i && k % 64 < zeros;
      return;
    }
    return -1;
  }

  lemma {:induction false} AllAboveKeeps(w: bv64, b: nat)
    requires b < 64
    ensures forall j :: 0 <= j < 64 ==> (Bit(Above(w, b), j) <==> Bit(w, j) && j > b)
  {
    forall j | 0 <= j < 64
      ensures Bit(Above(w, b), j) <==> Bit(w, j) && j > b
    {
      AboveKeeps(w, b, j);
    }
  }

  lemma {:induction false} AllBelowKeeps(w: bv64, b: nat)
    requires b < 64
    ensures forall j :: 0 <= j < 64 ==> (Bit(Below(w, b), j) <==> Bit(w, j) && j < b)
  {
    forall j | 0 <= j < 64
      ensures Bit(Below(w, b), j) <==> Bit(w, j) && j < b
    {
      BelowKeeps(w, b, j);
    }
  }

  lemma {:induction false} NoneMarkedInWord(mask: seq<bv64>, i: nat)
    requires i < |mask| && mask[i] == 0
    ensures forall k: nat :: k / 64 == i ==> !Marked(mask, k)
  {
    forall k: nat | k / 64 == i
      ensures !Marked(mask, k)
    {
      ZeroHasNoBit(k % 64);
    }
  }

  /** The tick a search downwards really starts from: one past the mask falls back into the last word. */
  function SearchStart(words: nat, tick: nat): nat
    requires words > 0
  {
    if tick / 64 < words then tick else (words - 1) * 64 + tick % 64
  }

  /** BitmaskOrderBook::find_prev_from. */
  method FindPrevFrom(mask: array<bv64>, tick: nat) returns (r: int)
    ensures mask.Length == 0 ==> r == -1
    ensures mask.Length > 0 ==> IsPrevMarked(mask[..], SearchStart(mask.Length, tick), r)
  {
    if mask.Length == 0 {
      return -1;
    }
    var word, bitInWord := tick / 64, tick % 64;
    if word >= mask.Length {
      word := mask.Length - 1;
    }
    ghost var start := SearchStart(mask.Length, tick);
    assert start / 64 == word && start % 64 == bitInWord;
    var bits := Below(mask[word], bitInWord);
    AllBelowKeeps(mask[word], bitInWord);
    if bits != 0 {
      var zeros := CountLeadingZeros(bits);
      r := word * 64 + (63 - zeros);
      assert r / 64 == word && r % 64 == 63 - zeros;
      forall k: nat | r < k < start
        ensures !Marked(mask[..], k)
      {
        assert k / 64 == word && 63 - zeros < k % 64 < bitInWord;
      }
      return;
    }
    var i := word;
    assert forall k: nat :: i * 64 <= k < start ==> k / 64 == word && k % 64 < bitInWord;
    while i > 0
      invariant 0 <= i <= word
      invariant forall k: nat :: i * 64 <= k < start ==> !Marked(mask[..], k)
    {
      i := i - 1;
      if mask[i] != 0 {
        var zeros := CountLeadingZeros(mask[i]);
        r := i * 64 + (63 - zeros);
        assert r / 64 == i && r % 64 == 63 - zeros;
        assert forall k: nat :: r < k < (i + 1) * 64 ==> k / 64 == i && 63 - zeros < k % 64;
        return;
      }
      NoneMarkedInWord(mask[..], i);
    }
    return -1;
  }

  /**
   Beyond the mask the downward search is right exactly when the last word has no mark at or above the
   tick's own bit position, because the search keeps that position when it falls back.
   */
  lemma {:induction false} PrevBeyondMask(mask: seq<bv64>, tick: nat, r: int)
    requires |mask| > 0 && tick / 64 >= |mask|
    requires IsPrevMarked(mask, SearchStart(|mask|, tick), r)
    ensures IsPrevMarked(mask, tick, r) <==>
            forall k: nat :: SearchStart(|mask|, tick) <= k ==> !Marked(mask, k)
  {
    assert SearchStart(|mask|, tick) < tick;
  }

  /** One mark at tick 5 of a one-word mask: searching down from tick 64 misses it. */
  lemma {:induction false} PrevBeyondMaskMisses()
    ensures var mask := [Pow(5)];
            Marked(mask, 5) && IsPrevMarked(mask, SearchStart(1, 64), -1) && !IsPrevMarked(mask, 64, -1)
  {
    var mask := [Pow(5)];
    PowIsOneBit(5);
    AndUnits(Pow(5));
    assert Marked(mask, 5);
  }

  /** mask_[tick / 64] |= 1 << (tick % 64) */
  method Mark(mask: array<bv64>, tick: nat)
    requires tick / 64 < mask.Length
    modifies mask
    ensures forall t: nat :: Marked(mask[..], t) <==> Marked(old(mask[..]), t) || t == tick
  {
    var word, bit := tick / 64, tick % 64;
    ghost var before := mask[..];
    mask[word] := Or(mask[word], Pow(bit));
    forall t: nat
      ensures Marked(mask[..], t) <==> Marked(before, t) || t == tick
    {
      SetBit(before[word], bit, t % 64);
      SameTick(t, tick);
    }
  }

  /** mask_[tick / 64] &= ~(1 << (tick % 64)) */
  method Unmark(mask: array<bv64>, tick: nat)
    requires tick / 64 < mask.Length
    modifies mask
    ensures forall t: nat :: Marked(mask[..], t) <==> Marked(old(mask[..]), t) && t != tick
  {
    var word, bit := tick / 64, tick % 64;
    ghost var before := mask[..];
    mask[word] := AndNot(mask[word], Pow(bit));
    forall t: nat
      ensures Marked(mask[..], t) <==> Marked(before, t) && t != tick
    {
      ClearBit(before[word], bit, t % 64);
      SameTick(t, tick);
    }
  }

  lemma {:induction false} SameTick(a: nat, b: nat)
    ensures a == b <==> a / 64 == b / 64 && a % 64 == b % 64
  {
  }
}
