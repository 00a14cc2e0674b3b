/** One FIFO list per price, and the price-time queue it flattens to. */
module Levels {
  import opened Orders
  import opened PriceTime

  /** The levels of rank r and worse, best first. Rank is its own inverse. */
  function Flat(lv: seq<seq<Order>>, side: bool, r: nat): seq<Order>
    requires |lv| == MAX_PRICE && r <= MAX_PRICE
    decreases |lv| - r
  {
    if r == MAX_PRICE then [] else lv[Rank(side, r)] + Flat(lv, side, r + 1)
  }

  /** The levels of rank better than r, best first. */
  function Better(lv: seq<seq<Order>>, side: bool, r: nat): seq<Order>
    requires |lv| == MAX_PRICE && r <= MAX_PRICE
  {
    if r == 0 then [] else Better(lv, side, r - 1) + lv[Rank(side, r - 1)]
  }

  function Queue(lv: seq<seq<Order>>, side: bool): seq<Order>
    requires |lv| == MAX_PRICE
  {
    Flat(lv, side, 0)
  }

  lemma {:induction false} SplitAt(lv: seq<seq<Order>>, side: bool, r: nat)
    requires |lv| == MAX_PRICE && r <= MAX_PRICE
    ensures Queue(lv, side) == Better(lv, side, r) + Flat(lv, side, r)
  {
    if r > 0 {
      SplitAt(lv, side, r - 1);
      var q := Rank(side, r - 1);
      assert Flat(lv, side, r - 1) == lv[q] + Flat(lv, side, r);
      Assoc(Better(lv, side, r - 1), lv[q], Flat(lv, side, r));
    }
  }

  lemma {:induction false} FlatUnchanged(lv: seq<seq<Order>>, side: bool, r: nat, p: nat, x: seq<Order>)
    requires |lv| == MAX_PRICE && p < MAX_PRICE && Rank(side, p) < r <= MAX_PRICE
    ensures Flat(lv[p := x], side, r) == Flat(lv, side, r)
    decreases |lv| - r
  {
    if r < MAX_PRICE {
      FlatUnchanged(lv, side, r + 1, p, x);
    }
  }

  lemma {:induction false} BetterUnchanged(lv: seq<seq<Order>>, side: bool, r: nat, p: nat, x: seq<Order>)
    requires |lv| == MAX_PRICE && p < MAX_PRICE && r <= Rank(side, p)
    ensures Better(lv[p := x], side, r) == Better(lv, side, r)
  {
    if r > 0 {
      BetterUnchanged(lv, side, r - 1, p, x);
    }
  }

  function Rest(lv: seq<seq<Order>>, side: bool, p: nat): seq<Order>
    requires |lv| == MAX_PRICE && p < MAX_PRICE
  {
    Flat(lv, side, Rank(side, p) + 1)
  }

  function Ahead(lv: seq<seq<Order>>, side: bool, p: nat): seq<Order>
    requires |lv| == MAX_PRICE && p < MAX_PRICE
  {
    Better(lv, side, Rank(side, p))
  }

  /** Changing one level changes just its own stretch of the queue. */
  lemma UpdateLevel(lv: seq<seq<Order>>, side: bool, p: nat, x: seq<Order>)
    requires |lv| == MAX_PRICE && p < MAX_PRICE
    ensures Queue(lv, side) == Ahead(lv, side, p) + lv[p] + Rest(lv, side, p)
    ensures Queue(lv[p := x], side) == Ahead(lv, side, p) + x + Rest(lv, side, p)
  {
    var r := Rank(side, p);
    SplitAt(lv, side, r);
    SplitAt(lv[p := x], side, r);
    FlatUnchanged(lv, side, r + 1, p, x);
    BetterUnchanged(lv, side, r, p, x);
    assert Rank(side, r) == p;
    assert Flat(lv, side, r) == lv[p] + Rest(lv, side, p);
    assert Flat(lv[p := x], side, r) == x + Rest(lv, side, p);
    Assoc(Ahead(lv, side, p), lv[p], Rest(lv, side, p));
    Assoc(Ahead(lv, side, p), x, Rest(lv, side, p));
  }

  lemma {:induction false} EmptyAhead(lv: seq<seq<Order>>, side: bool, r: nat)
    requires |lv| == MAX_PRICE && r <= MAX_PRICE
    requires forall p: nat :: p < MAX_PRICE && Rank(side, p) < r ==> lv[p] == []
    ensures Better(lv, side, r) == []
  {
    if r > 0 {
      EmptyAhead(lv, side, r - 1);
      assert Rank(side, Rank(side, r - 1)) == r - 1;
    }
  }

  /** Every order sits on the level of its own price and side. */
  ghost predicate Sited(lv: seq<seq<Order>>, side: bool) {
    && |lv| == MAX_PRICE
    && forall p: nat, k: nat :: p < MAX_PRICE && k < |lv[p]| ==> lv[p][k].price == p && lv[p][k].side == side
  }

  lemma {:induction false} FlatRanks(lv: seq<seq<Order>>, side: bool, r: nat)
    requires Sited(lv, side) && r <= MAX_PRICE
    ensures forall o :: o in Flat(lv, side, r) ==> o.side == side && o.price < MAX_PRICE && r <= Rank(side, o.price)
    decreases |lv| - r
  {
    if r < MAX_PRICE {
      FlatRanks(lv, side, r + 1);
    }
  }

  lemma {:induction false} BetterRanks(lv: seq<seq<Order>>, side: bool, r: nat)
    requires Sited(lv, side) && r <= MAX_PRICE
    ensures forall o :: o in Better(lv, side, r) ==> o.side == side && o.price < MAX_PRICE && Rank(side, o.price) < r
  {
    if r > 0 {
      BetterRanks(lv, side, r - 1);
    }
  }

  /** Appending to a level is insertion in price-time order. */
  lemma AppendIsInsert(lv: seq<seq<Order>>, o: Order)
    requires Sited(lv, o.side) && o.price < MAX_PRICE
    ensures Queue(lv[o.price := lv[o.price] + [o]], o.side) == Insert(o, Queue(lv, o.side))
  {
    var p, side := o.price, o.side;
    UpdateLevel(lv, side, p, lv[p] + [o]);
    BetterRanks(lv, side, Rank(side, p));
    FlatRanks(lv, side, Rank(side, p) + 1);
    var xs, ys := Ahead(lv, side, p) + lv[p], Rest(lv, side, p);
    hide Queue; hide Ahead; hide Rest;
    forall x | x in xs ensures Rank(side, x.price) <= Rank(side, p) {}
    InsertBetween(o, xs, ys);
    Assoc(Ahead(lv, side, p), lv[p], [o]);
  }

  /** The best occupied level: every better one is empty. */
  ghost predicate IsBest(lv: seq<seq<Order>>, side: bool, p: nat) {
    && |lv| == MAX_PRICE && p < MAX_PRICE
    && forall q: nat :: q < MAX_PRICE && Rank(side, q) < Rank(side, p) ==> lv[q] == []
  }

  lemma BestIsFront(lv: seq<seq<Order>>, side: bool, p: nat)
    requires IsBest(lv, side, p)
    ensures Queue(lv, side) == lv[p] + Rest(lv, side, p)
  {
    UpdateLevel(lv, side, p, lv[p]);
    EmptyAhead(lv, side, Rank(side, p));
    hide Queue; hide Rest;
    assert [] + lv[p] == lv[p];
  }

  /** One fill at the head of the best level is one step of Match. */
  lemma FillStep(lv: seq<seq<Order>>, side: bool, p: nat, incoming: Order)
    requires IsBest(lv, side, p) && lv[p] != [] && lv[p][0].price == p
    requires incoming.quantity > 0 && Crosses(incoming, p) && incoming.userId != lv[p][0].userId
    ensures var head := lv[p][0];
            var fill := Min(incoming.quantity, head.quantity);
            var incoming' := incoming.(quantity := incoming.quantity - fill);
            Match(incoming, Queue(lv, side))
            == Match(incoming', Queue(lv[p := Filled(lv[p], fill)], side))
               .After([MakeTrade(incoming, head, fill)], if head.quantity == fill then [head.id] else [])
  {
    hide Queue; hide Rest; hide Filled; hide Match; hide Rank;
    var fill := Min(incoming.quantity, lv[p][0].quantity);
    BestUpdated(lv, side, p, Filled(lv[p], fill));
    FilledFront(lv[p], Rest(lv, side, p), fill);
    MatchStep(incoming, lv[p] + Rest(lv, side, p));
  }

  lemma BestUpdated(lv: seq<seq<Order>>, side: bool, p: nat, x: seq<Order>)
    requires IsBest(lv, side, p)
    ensures Queue(lv, side) == lv[p] + Rest(lv, side, p)
    ensures IsBest(lv[p := x], side, p) && Queue(lv[p := x], side) == x + Rest(lv, side, p)
  {
    BestIsFront(lv, side, p);
    BestIsFront(lv[p := x], side, p);
    FlatUnchanged(lv, side, Rank(side, p) + 1, p, x);
  }

  /** At an own order Match stops and rejects the remainder. */
  lemma SelfTradeStops(lv: seq<seq<Order>>, side: bool, p: nat, incoming: Order)
    requires IsBest(lv, side, p) && lv[p] != [] && lv[p][0].price == p
    requires incoming.quantity > 0 && Crosses(incoming, p) && incoming.userId == lv[p][0].userId
    ensures Match(incoming, Queue(lv, side))
         == Matching([], incoming.(quantity := 0), incoming.quantity, Queue(lv, side), [])
  {
    BestIsFront(lv, side, p);
    hide Queue; hide Rest;
  }

  /** With nothing left to cross Match ends. */
  lemma NothingCrosses(lv: seq<seq<Order>>, side: bool, p: nat, incoming: Order)
    requires IsBest(lv, side, p) && lv[p] != [] && lv[p][0].price == p && !Crosses(incoming, p)
    ensures Match(incoming, Queue(lv, side)) == Matching([], incoming, 0, Queue(lv, side), [])
  {
    BestIsFront(lv, side, p);
    hide Queue; hide Rest;
  }

  lemma EmptyQueue(lv: seq<seq<Order>>, side: bool)
    requires |lv| == MAX_PRICE && forall p: nat :: p < MAX_PRICE ==> lv[p] == []
    ensures Queue(lv, side) == []
  {
    SplitAt(lv, side, MAX_PRICE);
    EmptyAhead(lv, side, MAX_PRICE);
  }

  // ----- finding an order

  lemma {:induction false} FlatMember(lv: seq<seq<Order>>, side: bool, r: nat, o: Order)
    requires Sited(lv, side) && r <= MAX_PRICE && o in Flat(lv, side, r)
    ensures o.price < MAX_PRICE && o in lv[o.price]
    decreases |lv| - r
  {
    if o !in lv[Rank(side, r)] {
      FlatMember(lv, side, r + 1, o);
    }
  }
}
