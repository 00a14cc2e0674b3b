/** The three-level, 64-ary bitmap that indexes the occupied prices of one side. */
module PriceBitmaps {
  import opened Orders
  import opened Words
  import opened Depths

  const BITMAP_L1_SIZE: nat := MAX_PRICE / 64 + 1
  const BITMAP_L2_SIZE: nat := BITMAP_L1_SIZE / 64 + 1

  // ----- the hierarchy on plain words

  /** One L1 bit per price, set exactly for the occupied ones. */
  ghost predicate Marks(l1: seq<bv64>, occupied: set<nat>) {
    forall w: nat, b: nat :: w < |l1| && b < 64 ==> Bits(l1[w])[b] == (64 * w + b in occupied)
  }

  /** One upper bit per lower word, set exactly for the nonzero ones. */
  ghost predicate Summarizes(upper: seq<bv64>, lower: seq<bv64>) {
    forall w: nat, b: nat :: w < |upper| && b < 64 ==>
      Bits(upper[w])[b] == (64 * w + b < |lower| && lower[64 * w + b] != 0)
  }

  ghost predicate Indexes(l1: seq<bv64>, l2: seq<bv64>, l3: bv64, occupied: set<nat>) {
    && |l1| == BITMAP_L1_SIZE && |l2| == BITMAP_L2_SIZE
    && (forall p :: p in occupied ==> p < MAX_PRICE)
    && Marks(l1, occupied) && Summarizes(l2, l1) && Summarizes([l3], l2)
  }

  lemma MarkSet(l1: seq<bv64>, occupied: set<nat>, p: nat)
    requires p / 64 < |l1| && Marks(l1, occupied)
    ensures Marks(l1[p / 64 := WithBit(l1[p / 64], p % 64)], occupied + {p})
    ensures WithBit(l1[p / 64], p % 64) != 0
  {
    hide Bits; hide WithBit;
    SetBit(l1[p / 64], p % 64);
    assert Bits(WithBit(l1[p / 64], p % 64))[p % 64];
    NonZeroIffBit(WithBit(l1[p / 64], p % 64));
  }

  lemma MarkCleared(l1: seq<bv64>, occupied: set<nat>, p: nat)
    requires p / 64 < |l1| && Marks(l1, occupied)
    ensures Marks(l1[p / 64 := WithoutBit(l1[p / 64], p % 64)], occupied - {p})
  {
    hide Bits; hide WithoutBit;
    ClearBit(l1[p / 64], p % 64);
  }

  lemma SummarySet(upper: seq<bv64>, lower: seq<bv64>, i: nat, x: bv64)
    requires i < |lower| && i / 64 < |upper| && Summarizes(upper, lower) && x != 0
    ensures Summarizes(upper[i / 64 := WithBit(upper[i / 64], i % 64)], lower[i := x])
    ensures WithBit(upper[i / 64], i % 64) != 0
  {
    hide Bits; hide WithBit;
    SetBit(upper[i / 64], i % 64);
    assert Bits(WithBit(upper[i / 64], i % 64))[i % 64];
    NonZeroIffBit(WithBit(upper[i / 64], i % 64));
  }

  lemma SummaryCleared(upper: seq<bv64>, lower: seq<bv64>, i: nat)
    requires i < |lower| && i / 64 < |upper| && Summarizes(upper, lower)
    ensures Summarizes(upper[i / 64 := WithoutBit(upper[i / 64], i % 64)], lower[i := 0])
  {
    hide Bits; hide WithoutBit;
    ClearBit(upper[i / 64], i % 64);
  }

  /** A lower word that stays nonzero leaves the summary right. */
  lemma SummaryKept(upper: seq<bv64>, lower: seq<bv64>, i: nat, x: bv64)
    requires i < |lower| && Summarizes(upper, lower) && x != 0 && lower[i] != 0
    ensures Summarizes(upper, lower[i := x])
  {
    hide Bits;
  }

  /** A bit of an upper word leads to a nonzero lower word, and the other way round. */
  lemma SummaryBit(upper: seq<bv64>, lower: seq<bv64>, i: nat)
    requires i / 64 < |upper| && Summarizes(upper, lower)
    ensures Bits(upper[i / 64])[i % 64] == (i < |lower| && lower[i] != 0)
    ensures i < |lower| && lower[i] != 0 ==> upper[i / 64] != 0
  {
    hide Bits;
    assert i == 64 * (i / 64) + i % 64;
    NonZeroIffBit(upper[i / 64]);
  }

  lemma MarkBit(l1: seq<bv64>, occupied: set<nat>, p: nat)
    requires p / 64 < |l1| && Marks(l1, occupied)
    ensures Bits(l1[p / 64])[p % 64] == (p in occupied)
    ensures p in occupied ==> l1[p / 64] != 0
  {
    hide Bits;
    assert p == 64 * (p / 64) + p % 64;
    NonZeroIffBit(l1[p / 64]);
  }

  /** An occupied price is reachable through all three levels. */
  lemma OccupiedPath(l1: seq<bv64>, l2: seq<bv64>, l3: bv64, occupied: set<nat>, p: nat)
    requires Indexes(l1, l2, l3, occupied) && p in occupied
    ensures Bits(l1[p / 64])[p % 64] && Bits(l2[p / 64 / 64])[p / 64 % 64] && Bits(l3)[p / 64 / 64]
    ensures l1[p / 64] != 0 && l2[p / 64 / 64] != 0 && l3 != 0
  {
    hide Bits; hide Marks; hide Summarizes;
    MarkBit(l1, occupied, p);
    SummaryBit(l2, l1, p / 64);
    SummaryBit([l3], l2, p / 64 / 64);
  }

  /** The bitmap is a function of the occupied prices: no other words index the same set. */
  lemma BitmapDetermined(
      l1: seq<bv64>, l2: seq<bv64>, l3: bv64, m1: seq<bv64>, m2: seq<bv64>, m3: bv64, occupied: set<nat>)
    requires Indexes(l1, l2, l3, occupied) && Indexes(m1, m2, m3, occupied)
    ensures l1 == m1 && l2 == m2 && l3 == m3
  {
    hide Bits;
    forall w | 0 <= w < BITMAP_L1_SIZE ensures l1[w] == m1[w] {
      assert Bits(l1[w]) == Bits(m1[w]);
      WordExtensional(l1[w], m1[w]);
    }
    SummaryDetermined(l2, m2, l1);
    SummaryDetermined([l3], [m3], l2);
    assert [l3][0] == [m3][0];
  }

  lemma SummaryDetermined(upper: seq<bv64>, upper': seq<bv64>, lower: seq<bv64>)
    requires |upper| == |upper'| && Summarizes(upper, lower) && Summarizes(upper', lower)
    ensures upper == upper'
  {
    hide Bits;
    forall w | 0 <= w < |upper| ensures upper[w] == upper'[w] {
      assert Bits(upper[w]) == Bits(upper'[w]);
      WordExtensional(upper[w], upper'[w]);
    }
  }

  // ----- scanning

  /** The next bit of a side's scan: bids from the top (clz), asks from the bottom (ctz). */
  function NextBit(side: bool, x: bv64): (r: nat)
    requires x != 0
    ensures r < 64 && Bits(x)[r]
    ensures forall b: nat :: b < 64 && Bits(x)[b] ==> if side then b <= r else r <= b
  {
    if side then 63 - Clz(x) else Ctz(x)
  }

  /** The best occupied price is at the end of the best bits, level by level. */
  lemma BestPath(l1: seq<bv64>, l2: seq<bv64>, l3: bv64, occupied: set<nat>, side: bool)
    requires Indexes(l1, l2, l3, occupied) && l3 != 0
    ensures var j := NextBit(side, l3);
            && j < |l2| && l2[j] != 0
            && var w := 64 * j + NextBit(side, l2[j]);
            && w < |l1| && l1[w] != 0 && 64 * w + NextBit(side, l1[w]) in occupied
  {
    hide Bits; hide Marks; hide Summarizes; hide NextBit;
    var j := NextBit(side, l3);
    SummaryBit([l3], l2, j);
    var w := 64 * j + NextBit(side, l2[j]);
    SummaryBit(l2, l1, w);
    MarkBit(l1, occupied, 64 * w + NextBit(side, l1[w]));
  }

  lemma NoneBetter(l1: seq<bv64>, l2: seq<bv64>, l3: bv64, occupied: set<nat>, side: bool, p: nat)
    requires Indexes(l1, l2, l3, occupied) && l3 != 0 && p in occupied
    requires var j := NextBit(side, l3);
             && j < |l2| && l2[j] != 0
             && var w := 64 * j + NextBit(side, l2[j]);
             && w < |l1| && l1[w] != 0
    ensures var j := NextBit(side, l3);
            var w := 64 * j + NextBit(side, l2[j]);
            var best := 64 * w + NextBit(side, l1[w]);
            if side then p <= best else best <= p
  {
    hide Bits; hide Indexes; hide NextBit;
    Sizes(l1, l2, l3, occupied);
    OccupiedPath(l1, l2, l3, occupied, p);
    var j := NextBit(side, l3);
    var w := 64 * j + NextBit(side, l2[j]);
    assert if side then p / 64 / 64 <= j else j <= p / 64 / 64;
    assert if side then p / 64 <= w else w <= p / 64;
  }

  lemma Sizes(l1: seq<bv64>, l2: seq<bv64>, l3: bv64, occupied: set<nat>)
    requires Indexes(l1, l2, l3, occupied)
    ensures |l1| == BITMAP_L1_SIZE && |l2| == BITMAP_L2_SIZE && forall p :: p in occupied ==> p < MAX_PRICE
  {
  }

  lemma NothingOccupied(l1: seq<bv64>, l2: seq<bv64>, l3: bv64, occupied: set<nat>)
    requires Indexes(l1, l2, l3, occupied)
    ensures l3 == 0 <==> occupied == {}
  {
    hide Bits; hide Marks; hide Summarizes;
    forall p | p in occupied ensures l3 != 0 { OccupiedPath(l1, l2, l3, occupied, p); }
    if l3 != 0 { BestPath(l1, l2, l3, occupied, true); }
  }

  /** copy holds the bits of word that a scan standing at h has not visited. */
  ghost predicate Unvisited(side: bool, word: bv64, copy: bv64, h: nat) {
    forall b: nat :: b < 64 ==> Bits(copy)[b] == (Bits(word)[b] && if side then b < h else h <= b)
  }

  lemma UnvisitedAll(side: bool, word: bv64)
    ensures Unvisited(side, word, word, if side then 64 else 0)
  {
  }

  ghost predicate Vacant(word: bv64, a: nat, b: nat) {
    forall i: nat :: i < 64 && (a <= i < b || b <= i < a) ==> !Bits(word)[i]
  }

  lemma VisitNext(side: bool, word: bv64, copy: bv64, h: nat)
    requires Unvisited(side, word, copy, h) && copy != 0
    ensures var r := NextBit(side, copy);
            && Bits(word)[r] && (if side then r < h else h <= r) && Vacant(word, h, Entry(side, r))
            && Unvisited(side, word, WithoutBit(copy, r), Exit(side, r))
  {
    hide Bits; hide WithoutBit; hide Clz; hide Ctz;
    ClearBit(copy, NextBit(side, copy));
  }

  lemma VisitDone(side: bool, word: bv64, copy: bv64, h: nat)
    requires Unvisited(side, word, copy, h) && copy == 0
    ensures Vacant(word, h, if side then 0 else 64)
  {
    hide Bits;
    NonZeroIffBit(copy);
    forall b: nat | b < 64 ensures !Bits(copy)[b] {}
  }

  /** Unset bits at any level of the hierarchy mean unoccupied prices. */
  lemma VacantPrices(l1: seq<bv64>, l2: seq<bv64>, l3: bv64, occupied: set<nat>, w: nat, a: nat, b: nat)
    requires Indexes(l1, l2, l3, occupied) && a <= 64 && b <= 64
    ensures w < |l1| && Vacant(l1[w], a, b) ==>
              forall p :: p in occupied ==> !(64 * w + a <= p < 64 * w + b) && !(64 * w + b <= p < 64 * w + a)
    ensures w < |l2| && Vacant(l2[w], a, b) ==>
              forall p :: p in occupied ==>
                !(64 * (64 * w + a) <= p < 64 * (64 * w + b)) && !(64 * (64 * w + b) <= p < 64 * (64 * w + a))
    ensures w == 0 && Vacant(l3, a, b) ==>
              forall p :: p in occupied ==> !(4096 * a <= p < 4096 * b) && !(4096 * b <= p < 4096 * a)
  {
    hide Bits; hide Marks; hide Summarizes;
    forall p | p in occupied
      ensures Bits(l1[p / 64])[p % 64] && Bits(l2[p / 64 / 64])[p / 64 % 64] && Bits(l3)[p / 64 / 64]
    {
      OccupiedPath(l1, l2, l3, occupied, p);
    }
  }

  // ----- the mutable index

  class PriceBitmap {
    const l1: array<bv64>
    const l2: array<bv64>
    var l3: bv64
    ghost var occupied: set<nat>

    ghost predicate Valid()
      reads this, l1, l2
    {
      l1 != l2 && Indexes(l1[..], l2[..], l3, occupied)
    }

    constructor ()
      ensures Valid() && occupied == {} && fresh(l1) && fresh(l2)
    {
      hide Bits;
      l1 := new bv64[BITMAP_L1_SIZE](_ => 0);
      l2 := new bv64[BITMAP_L2_SIZE](_ => 0);
      l3 := 0;
      occupied := {};
      NonZeroIffBit(0);
    }

    method SetBit(price: nat)
      requires Valid() && price < MAX_PRICE
      modifies this, l1, l2
      ensures Valid() && occupied == old(occupied) + {price}
    {
      hide Bits; hide WithBit; hide Marks; hide Summarizes;
      ghost var w1, w2, w3 := l1[..], l2[..], l3;
      var l1Idx := price / 64;
      var l1Bit := price % 64;
      var l2Idx := l1Idx / 64;
      var l2Bit := l1Idx % 64;
      var l3Bit := l2Idx;
      MarkSet(w1, occupied, price);
      SummarySet(w2, w1, l1Idx, WithBit(w1[l1Idx], l1Bit));
      SummarySet([w3], w2, l2Idx, WithBit(w2[l2Idx], l2Bit));
      l1[l1Idx] := WithBit(l1[l1Idx], l1Bit);
      l2[l2Idx] := WithBit(l2[l2Idx], l2Bit);
      l3 := WithBit(l3, l3Bit);
      occupied := occupied + {price};
      assert l1[..] == w1[l1Idx := WithBit(w1[l1Idx], l1Bit)];
      assert l2[..] == w2[l2Idx := WithBit(w2[l2Idx], l2Bit)];
      assert [l3] == [w3][0 := WithBit(w3, l3Bit)];
    }

    method ClearBit(price: nat)
      requires Valid() && price < MAX_PRICE && price in occupied
      modifies this, l1, l2
      ensures Valid() && occupied == old(occupied) - {price}
    {
      hide Bits; hide WithoutBit; hide Marks; hide Summarizes;
      ghost var w1, w2, w3 := l1[..], l2[..], l3;
      var l1Idx := price / 64;
      var l1Bit := price % 64;
      var l2Idx := l1Idx / 64;
      var l2Bit := l1Idx % 64;
      var l3Bit := l2Idx;
      OccupiedPath(w1, w2, w3, occupied, price);
      MarkCleared(w1, occupied, price);
      l1[l1Idx] := WithoutBit(l1[l1Idx], l1Bit);
      ghost var v1 := w1[l1Idx := WithoutBit(w1[l1Idx], l1Bit)];
      assert l1[..] == v1;
      occupied := occupied - {price};
      if l1[l1Idx] == 0 {
        SummaryCleared(w2, w1, l1Idx);
        l2[l2Idx] := WithoutBit(l2[l2Idx], l2Bit);
        ghost var v2 := w2[l2Idx := WithoutBit(w2[l2Idx], l2Bit)];
        assert l2[..] == v2;
        if l2[l2Idx] == 0 {
          SummaryCleared([w3], w2, l2Idx);
          l3 := WithoutBit(l3, l3Bit);
          assert [l3] == [w3][0 := WithoutBit(w3, l3Bit)];
        } else {
          SummaryKept([w3], w2, l2Idx, l2[l2Idx]);
        }
      } else {
        SummaryKept(w2, w1, l1Idx, l1[l1Idx]);
      }
    }

    /** The greatest occupied price, found from the top word down with clz. */
    method Highest() returns (price: uint32)
      requires Valid()
      ensures occupied == {} ==> price == NULL_IDX
      ensures occupied != {} ==> price in occupied && forall p :: p in occupied ==> p <= price
    {
      hide Bits; hide Indexes; hide Clz; hide Ctz;
      NothingOccupied(l1[..], l2[..], l3, occupied);
      if l3 == 0 {
        return NULL_IDX;
      }
      BestPath(l1[..], l2[..], l3, occupied, true);
      Sizes(l1[..], l2[..], l3, occupied);
      var l3Bit := 63 - Clz(l3);
      var l2Bit := 63 - Clz(l2[l3Bit]);
      var l1Idx := l3Bit * 64 + l2Bit;
      var l1Bit := 63 - Clz(l1[l1Idx]);
      price := l1Idx * 64 + l1Bit;
      forall p | p in occupied ensures p <= price {
        NoneBetter(l1[..], l2[..], l3, occupied, true, p);
      }
    }

    /** The least occupied price, found from the top word down with ctz. */
    method Lowest() returns (price: uint32)
      requires Valid()
      ensures occupied == {} ==> price == NULL_IDX
      ensures occupied != {} ==> price in occupied && forall p :: p in occupied ==> price <= p
    {
      hide Bits; hide Indexes; hide Clz; hide Ctz;
      NothingOccupied(l1[..], l2[..], l3, occupied);
      if l3 == 0 {
        return NULL_IDX;
      }
      BestPath(l1[..], l2[..], l3, occupied, false);
      Sizes(l1[..], l2[..], l3, occupied);
      var l3Bit := Ctz(l3);
      var l2Bit := Ctz(l2[l3Bit]);
      var l1Idx := l3Bit * 64 + l2Bit;
      var l1Bit := Ctz(l1[l1Idx]);
      price := l1Idx * 64 + l1Bit;
      forall p | p in occupied ensures price <= p {
        NoneBetter(l1[..], l2[..], l3, occupied, false, p);
      }
    }
  }
}
