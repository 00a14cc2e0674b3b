/** The 64-bit words of the price bitmaps: reading, setting and clearing one bit, and
    the leading/trailing zero counts with which the engine finds the best price.

    The facts about words are proved on bv64 alone, with a bv64 bit position. Pos turns a
    bit number into such a position digit by digit, which keeps the solver out of its
    integer-to-bit-vector conversion. */
module Words {

  // ----- bit numbers as shift amounts

  function Pos(i: nat): bv64 {
    var h1 := i / 2; var h2 := h1 / 2; var h3 := h2 / 2; var h4 := h3 / 2; var h5 := h4 / 2;
    (if i % 2 == 1 then 1 else 0) | (if h1 % 2 == 1 then 2 else 0)
    | (if h2 % 2 == 1 then 4 else 0) | (if h3 % 2 == 1 then 8 else 0)
    | (if h4 % 2 == 1 then 16 else 0) | (if h5 % 2 == 1 then 32 else 0)
  }

  function Index(p: bv64): (i: nat)
    ensures i < 64
  {
    var h4 := Digit(p & 16 != 0) + 2 * Digit(p & 32 != 0);
    var h2 := Digit(p & 4 != 0) + 2 * (Digit(p & 8 != 0) + 2 * h4);
    Digit(p & 1 != 0) + 2 * (Digit(p & 2 != 0) + 2 * h2)
  }

  function Digit(b: bool): nat {
    if b then 1 else 0
  }

  lemma PosBound(i: nat)
    ensures Pos(i) < 64
  {
  }

  predicate Digits(p: bv64, i: nat) {
    var h1 := i / 2; var h2 := h1 / 2; var h3 := h2 / 2; var h4 := h3 / 2; var h5 := h4 / 2;
    && i % 2 == Digit(p & 1 != 0)
    && h1 % 2 == Digit(p & 2 != 0)
    && h2 % 2 == Digit(p & 4 != 0)
    && h3 % 2 == Digit(p & 8 != 0)
    && h4 % 2 == Digit(p & 16 != 0)
    && h5 % 2 == Digit(p & 32 != 0)
  }

  lemma PosDigits(i: nat)
    ensures Digits(Pos(i), i)
  {
  }

  lemma DigitsPos(p: bv64, i: nat)
    requires p < 64 && Digits(p, i)
    ensures Pos(i) == p
  {
  }

  lemma DigitsDetermine(p: bv64, i: nat, j: nat)
    requires i < 64 && j < 64 && Digits(p, i) && Digits(p, j)
    ensures i == j
  {
  }

  lemma PosInjective(i: nat, j: nat)
    requires i < 64 && j < 64 && Pos(i) == Pos(j)
    ensures i == j
  {
    PosDigits(i);
    PosDigits(j);
    hide Pos;
    DigitsDetermine(Pos(i), i, j);
  }

  lemma Halve(b: bool, h: nat)
    ensures (Digit(b) + 2 * h) % 2 == Digit(b) && (Digit(b) + 2 * h) / 2 == h
  {
  }

  lemma PosIndex(p: bv64)
    requires p < 64
    ensures Pos(Index(p)) == p
  {
    var h5 := Digit(p & 32 != 0);
    var h4 := Digit(p & 16 != 0) + 2 * h5;
    var h3 := Digit(p & 8 != 0) + 2 * h4;
    var h2 := Digit(p & 4 != 0) + 2 * h3;
    var h1 := Digit(p & 2 != 0) + 2 * h2;
    Halve(p & 16 != 0, h5);
    Halve(p & 8 != 0, h4);
    Halve(p & 4 != 0, h3);
    Halve(p & 2 != 0, h2);
    Halve(p & 1 != 0, h1);
    assert Index(p) == Digit(p & 1 != 0) + 2 * h1;
    DigitsPos(p, Index(p));
  }

  // ----- one bit of a word

  predicate BitAt(x: bv64, p: bv64)
    requires p < 64
  {
    (x >> p) & 1 == 1
  }

  predicate Bit(x: bv64, i: nat) {
    PosBound(i);
    BitAt(x, Pos(i))
  }

  /** x | (1ULL << i) */
  function WithBit(x: bv64, i: nat): bv64 {
    PosBound(i);
    x | (1 << Pos(i))
  }

  /** x & ~(1ULL << i) */
  function WithoutBit(x: bv64, i: nat): bv64 {
    PosBound(i);
    x & !(1 << Pos(i))
  }

  lemma SetAt(x: bv64, b: bv64, p: bv64)
    requires b < 64 && p < 64
    ensures BitAt(x | (1 << b), p) <==> p == b || BitAt(x, p)
  {
  }

  lemma ClearAt(x: bv64, b: bv64, p: bv64)
    requires b < 64 && p < 64
    ensures BitAt(x & !(1 << b), p) <==> p != b && BitAt(x, p)
  {
  }

  function Bits(x: bv64): (s: seq<bool>)
    ensures |s| == 64
  {
    seq(64, i requires 0 <= i < 64 => Bit(x, i))
  }

  lemma SetBitAt(x: bv64, b: nat, i: nat)
    requires b < 64 && i < 64
    ensures Bit(WithBit(x, b), i) == (i == b || Bit(x, i))
  {
    if i != b && Pos(i) == Pos(b) { PosInjective(i, b); }
    PosBound(b);
    PosBound(i);
    hide Pos;
    SetAt(x, Pos(b), Pos(i));
    hide BitAt;
  }

  lemma ClearBitAt(x: bv64, b: nat, i: nat)
    requires b < 64 && i < 64
    ensures Bit(WithoutBit(x, b), i) == (i != b && Bit(x, i))
  {
    if i != b && Pos(i) == Pos(b) { PosInjective(i, b); }
    PosBound(b);
    PosBound(i);
    var p, q, y := Pos(b), Pos(i), WithoutBit(x, b);
    assert y == x & !(1 << p);
    ClearAt(x, p, q);
    assert Bit(y, i) == BitAt(y, q) && Bit(x, i) == BitAt(x, q);
    hide *;
  }

  lemma SetBit(x: bv64, b: nat)
    requires b < 64
    ensures Bits(WithBit(x, b)) == Bits(x)[b := true]
  {
    forall i: nat | i < 64 ensures Bits(WithBit(x, b))[i] == Bits(x)[b := true][i] {
      SetBitAt(x, b, i);
      hide Bit;
    }
  }

  lemma ClearBit(x: bv64, b: nat)
    requires b < 64
    ensures Bits(WithoutBit(x, b)) == Bits(x)[b := false]
  {
    forall i: nat | i < 64 ensures Bits(WithoutBit(x, b))[i] == Bits(x)[b := false][i] {
      ClearBitAt(x, b, i);
      hide Bit;
    }
  }

  /** The highest set bit of a nonzero word, by halving. */
  function HighAt(x: bv64): bv64 {
    var y5 := if x >> 32 != 0 then x >> 32 else x;
    var y4 := if y5 >> 16 != 0 then y5 >> 16 else y5;
    var y3 := if y4 >> 8 != 0 then y4 >> 8 else y4;
    var y2 := if y3 >> 4 != 0 then y3 >> 4 else y3;
    var y1 := if y2 >> 2 != 0 then y2 >> 2 else y2;
    (if x >> 32 != 0 then 32 else 0) | (if y5 >> 16 != 0 then 16 else 0) | (if y4 >> 8 != 0 then 8 else 0)
    | (if y3 >> 4 != 0 then 4 else 0) | (if y2 >> 2 != 0 then 2 else 0) | (if y1 >> 1 != 0 then 1 else 0)
  }

  lemma HighAtIsSet(x: bv64)
    requires x != 0
    ensures HighAt(x) < 64 && BitAt(x, HighAt(x))
  {
  }

  lemma ZeroHasNoBit(p: bv64)
    requires p < 64
    ensures !BitAt(0, p)
  {
  }

  /** A word is nonzero exactly when one of its bits is set. */
  lemma NonZeroIffBit(x: bv64)
    ensures x != 0 <==> true in Bits(x)
  {
    if x != 0 {
      HighAtIsSet(x);
      PosIndex(HighAt(x));
      assert Bits(x)[Index(HighAt(x))];
    } else {
      forall i: nat | i < 64 ensures !Bits(x)[i] { PosBound(i); ZeroHasNoBit(Pos(i)); }
    }
  }

  lemma XorBit(x: bv64, y: bv64, p: bv64)
    requires p < 64
    ensures BitAt(x ^ y, p) <==> BitAt(x, p) != BitAt(y, p)
  {
  }

  lemma XorZero(x: bv64, y: bv64)
    ensures x ^ y == 0 <==> x == y
  {
  }

  /** A word is determined by its 64 bits. */
  lemma WordExtensional(x: bv64, y: bv64)
    ensures Bits(x) == Bits(y) ==> x == y
  {
    XorZero(x, y);
    NonZeroIffBit(x ^ y);
    if x ^ y != 0 {
      var i: nat :| i < 64 && Bits(x ^ y)[i];
      PosBound(i);
      XorBit(x, y, Pos(i));
      assert Bits(x)[i] != Bits(y)[i];
    }
  }

  // ----- counting zeros

  /** __builtin_clzll: the number of zero bits above the highest set bit; undefined on zero. */
  function Clz(x: bv64): (r: nat)
    requires x != 0
    ensures r < 64 && Bits(x)[63 - r] && forall i: nat :: 63 - r < i < 64 ==> !Bits(x)[i]
  {
    NonZeroIffBit(x);
    assert Bits(x)[..64] == Bits(x);
    LeadingFalse(Bits(x), 0)
  }

  function LeadingFalse(s: seq<bool>, k: nat): (r: nat)
    requires k <= |s| && true in s[..|s| - k]
    requires forall i: nat :: |s| - k <= i < |s| ==> !s[i]
    ensures r < |s| && s[|s| - 1 - r] && forall i: nat :: |s| - 1 - r < i < |s| ==> !s[i]
    decreases |s| - k
  {
    if s[|s| - 1 - k] then k else LeadingFalse(s, k + 1)
  }

  /** __builtin_ctzll: the number of zero bits below the lowest set bit; undefined on zero. */
  function Ctz(x: bv64): (r: nat)
    requires x != 0
    ensures r < 64 && Bits(x)[r] && forall i: nat :: i < r ==> !Bits(x)[i]
  {
    NonZeroIffBit(x);
    assert Bits(x)[0..] == Bits(x);
    TrailingFalse(Bits(x), 0)
  }

  function TrailingFalse(s: seq<bool>, k: nat): (r: nat)
    requires k <= |s| && true in s[k..]
    requires forall i: nat :: i < k ==> !s[i]
    ensures r < |s| && s[r] && forall i: nat :: i < r ==> !s[i]
    decreases |s| - k
  {
    if s[k] then k else TrailingFalse(s, k + 1)
  }
}
