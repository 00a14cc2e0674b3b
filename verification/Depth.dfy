/** Scanning the levels of one side best first: what a partial scan has produced, and how one
    level, or a stretch of empty ones, moves it on. */
module Depths {
  import opened Orders
  import opened PriceTime
  import opened Levels

  // ----- positions between levels

  /** Just before position i in scan order: bids are scanned downwards, asks upwards. */
  function Entry(side: bool, i: nat): nat {
    if side then i + 1 else i
  }

  function Exit(side: bool, i: nat): nat {
    if side then i else i + 1
  }

  function CutRank(side: bool, cut: nat): nat {
    var c := if cut < MAX_PRICE then cut else MAX_PRICE;
    if side then MAX_PRICE - c else c
  }

  /** The orders still to be scanned once the scan stands at this cut. */
  function Beyond(lv: seq<seq<Order>>, side: bool, cut: nat): seq<Order>
    requires |lv| == MAX_PRICE
  {
    Flat(lv, side, CutRank(side, cut))
  }

  lemma {:induction false} FlatSkip(lv: seq<seq<Order>>, side: bool, r: nat, r': nat)
    requires |lv| == MAX_PRICE && r <= r' <= MAX_PRICE
    requires forall i: nat :: r <= i < r' ==> lv[Rank(side, i)] == []
    ensures Flat(lv, side, r) == Flat(lv, side, r')
    decreases r' - r
  {
    if r < r' {
      FlatSkip(lv, side, r + 1, r');
    }
  }

  /** Empty levels between two cuts do not matter. */
  lemma Skip(lv: seq<seq<Order>>, side: bool, lo: nat, hi: nat)
    requires |lv| == MAX_PRICE && lo <= hi
    requires forall p: nat :: lo <= p < hi && p < MAX_PRICE ==> lv[p] == []
    ensures Beyond(lv, side, lo) == Beyond(lv, side, hi)
  {
    if side {
      FlatSkip(lv, side, CutRank(side, hi), CutRank(side, lo));
    } else {
      FlatSkip(lv, side, CutRank(side, lo), CutRank(side, hi));
    }
  }

  lemma Take(lv: seq<seq<Order>>, side: bool, p: nat)
    requires |lv| == MAX_PRICE && p < MAX_PRICE
    ensures Beyond(lv, side, Entry(side, p)) == lv[p] + Beyond(lv, side, Exit(side, p))
  {
  }

  // ----- depth

  /** Scanning from one cut to another turned depth into depth'. */
  ghost predicate Scanned(
      lv: seq<seq<Order>>, side: bool, cut: nat, cut': nat, limit: nat, depth: seq<DepthLevel>, depth': seq<DepthLevel>)
    requires |lv| == MAX_PRICE
  {
    && |depth| <= limit && |depth'| <= limit
    && depth + DepthOf(Beyond(lv, side, cut), limit - |depth|)
        == depth' + DepthOf(Beyond(lv, side, cut'), limit - |depth'|)
  }

  /** At the limit it no longer matters where the scan stands. */
  lemma ScannedFull(
      lv: seq<seq<Order>>, side: bool, cut: nat, cut': nat, cut'': nat, limit: nat, depth: seq<DepthLevel>,
          depth': seq<DepthLevel>)
    requires |lv| == MAX_PRICE && Scanned(lv, side, cut, cut', limit, depth, depth') && |depth'| == limit
    ensures Scanned(lv, side, cut, cut'', limit, depth, depth')
  {
    hide Beyond;
  }

  /** Reporting one occupied level. */
  lemma ScannedLevel(lv: seq<seq<Order>>, side: bool, p: uint32, limit: nat, depth: seq<DepthLevel>)
    requires Sited(lv, side) && p < MAX_PRICE && lv[p] != [] && |depth| < limit
    ensures Scanned(lv, side, Entry(side, p), Exit(side, p), limit, depth,
                    depth + [DepthLevel(p, SumQuantity(lv[p]) % TWO_32, |lv[p]| % TWO_32)])
  {
    hide Beyond; hide Entry; hide Exit; hide DepthOf;
    var rest := Beyond(lv, side, Exit(side, p));
    Take(lv, side, p);
    RestElsewhere(lv, side, p);
    DepthFront(lv[p], rest, p, limit - |depth|);
    var level := DepthLevel(p, SumQuantity(lv[p]) % TWO_32, |lv[p]| % TWO_32);
    Assoc(depth, [level], DepthOf(rest, limit - |depth| - 1));
  }

  lemma RestElsewhere(lv: seq<seq<Order>>, side: bool, p: nat)
    requires Sited(lv, side) && p < MAX_PRICE
    ensures var rest := Beyond(lv, side, Exit(side, p)); rest != [] ==> rest[0].price != p
  {
    var rest := Beyond(lv, side, Exit(side, p));
    FlatRanks(lv, side, CutRank(side, Exit(side, p)));
    if rest != [] { assert rest[0] in rest; }
  }

  lemma ScannedWhole(lv: seq<seq<Order>>, side: bool, limit: nat, depth: seq<DepthLevel>)
    requires |lv| == MAX_PRICE
    requires Scanned(lv, side, 4096 * (if side then 64 else 0), 4096 * (if side then 0 else 64), limit, [], depth)
    ensures depth == DepthOf(Queue(lv, side), limit)
  {
    hide DepthOf;
    assert Beyond(lv, side, 4096 * (if side then 64 else 0)) == Queue(lv, side);
    assert Beyond(lv, side, 4096 * (if side then 0 else 64)) == [];
    DepthBound([], limit - |depth|);
    assert depth + [] == depth && [] + DepthOf(Queue(lv, side), limit) == DepthOf(Queue(lv, side), limit);
  }

  // ----- order snapshots

  lemma OrdersEnd(queue: seq<Order>, limit: nat, left: nat)
    requires DepthOf(queue, limit) == [] && left <= limit
    ensures OrdersOf(queue, left) == []
  {
  }

  /** The first reported level is the first occupied one. */
  lemma DepthStep(lv: seq<seq<Order>>, side: bool, r: nat, limit: nat) returns (p: nat)
    requires Sited(lv, side) && r <= MAX_PRICE && DepthOf(Flat(lv, side, r), limit) != []
    ensures p < MAX_PRICE && lv[p] != [] && limit > 0 && Rank(side, p) < MAX_PRICE
    ensures Flat(lv, side, r) == lv[p] + Flat(lv, side, Rank(side, p) + 1)
    ensures var depth := DepthOf(Flat(lv, side, r), limit);
            depth[0].price == p && depth[1..] == DepthOf(Flat(lv, side, Rank(side, p) + 1), limit - 1)
  {
    p := FirstLevel(lv, side, r);
    var rest := Flat(lv, side, Rank(side, p) + 1);
    FlatRanks(lv, side, Rank(side, p) + 1);
    if rest != [] { assert rest[0] in rest; }
    DepthFront(lv[p], rest, p, limit);
  }

  /** The levels of a queue other than its first are those of the queue behind it. */
  lemma {:induction false} FirstLevel(lv: seq<seq<Order>>, side: bool, r: nat) returns (p: nat)
    requires Sited(lv, side) && r <= MAX_PRICE && Flat(lv, side, r) != []
    ensures p < MAX_PRICE && lv[p] != [] && r <= Rank(side, p)
    ensures Flat(lv, side, r) == lv[p] + Flat(lv, side, Rank(side, p) + 1)
    decreases |lv| - r
  {
    if lv[Rank(side, r)] == [] {
      p := FirstLevel(lv, side, r + 1);
    } else {
      p := Rank(side, r);
    }
  }
}
