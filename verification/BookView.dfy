/** The whole in-memory book as one value: the pool, the free stack and a ladder of lists per
    side. Each operation of the engine is shown to keep the value well formed. */
module BookViews {
  import opened Orders
  import opened PriceTime
  import opened Levels
  import opened NodePools

  /** The lists of one side with the slots and orders they stand for, price by price. */
  datatype Ladder = Ladder(lists: seq<OrderList>, qs: seq<seq<nat>>, lv: seq<seq<Order>>) {
    function Put(price: nat, list: OrderList, q: seq<nat>, os: seq<Order>): Ladder
      requires price < |lists| == |qs| == |lv|
    {
      Ladder(lists[price := list], qs[price := q], lv[price := os])
    }
  }

  datatype View = View(pool: seq<OrderNode>, free: seq<uint32>, bids: Ladder, asks: Ladder) {
    function Side(side: bool): Ladder {
      if side then bids else asks
    }

    function With(pool': seq<OrderNode>, free': seq<uint32>, side: bool, ladder: Ladder): View {
      if side then View(pool', free', ladder, asks) else View(pool', free', bids, ladder)
    }
  }

  ghost predicate GoodLadder(pool: seq<OrderNode>, ladder: Ladder, side: bool) {
    && AllLinked(pool, ladder.qs, ladder.lv)
    && AllHeaders(ladder.lists, ladder.qs, ladder.lv)
    && AllOwned(ladder.qs, ladder.lv, side)
  }

  /** held is the slot taken by an order that is being matched, if any. */
  ghost predicate Good(v: View, held: set<nat>) {
    && GoodLadder(v.pool, v.bids, true)
    && GoodLadder(v.pool, v.asks, false)
    && Slots(v.pool, v.free, held, v.bids.qs, v.asks.qs)
  }

  lemma GoodLevel(v: View, held: set<nat>, side: bool, price: nat)
    requires Good(v, held) && price < MAX_PRICE
    ensures var l := v.Side(side);
            && |l.lists| == |l.qs| == |l.lv| == MAX_PRICE && |l.qs[price]| == |l.lv[price]|
            && Linked(v.pool, l.qs[price], l.lv[price])
            && Header(l.lists[price], l.qs[price], l.lv[price])
            && Owned(l.qs[price], l.lv[price], side, price)
  {
    hide Header; hide Slots;
  }

  /** A change confined to one level, after which that level and the slots are right. */
  lemma GoodAfter(
      v: View, held: set<nat>, side: bool, price: nat,
      pool': seq<OrderNode>, free': seq<uint32>, held': set<nat>, list: OrderList, q: seq<nat>, os: seq<Order>)
    requires Good(v, held) && price < MAX_PRICE && Touches(v.pool, pool', side, price)
    requires Linked(pool', q, os) && Header(list, q, os) && Owned(q, os, side, price)
    requires |v.Side(side).lists| == |v.Side(side).qs| == |v.Side(side).lv| == MAX_PRICE
    requires var v' := v.With(pool', free', side, v.Side(side).Put(price, list, q, os));
             Slots(pool', free', held', v'.bids.qs, v'.asks.qs)
    ensures Good(v.With(pool', free', side, v.Side(side).Put(price, list, q, os)), held')
  {
    var l, o := v.Side(side), v.Side(!side);
    hide Linked; hide Header; hide Owned; hide Slots; hide Touches;
    SideUpdated(v.pool, pool', l.lists, l.qs, l.lv, side, price, list, q, os);
    OtherSideKept(v.pool, pool', o.qs, o.lv, side, price);
    hide AllLinked; hide AllHeaders; hide AllOwned;
  }

  lemma GoodSited(v: View, held: set<nat>, side: bool)
    requires Good(v, held)
    ensures Sited(v.Side(side).lv, side)
  {
    var l := v.Side(side);
    assert AllOwned(l.qs, l.lv, side);
    forall p: nat, k: nat | p < MAX_PRICE && k < |l.lv[p]|
      ensures l.lv[p][k].price == p && l.lv[p][k].side == side
    {
      assert Owned(l.qs[p], l.lv[p], side, p);
    }
  }

  // ----- the three operations

  lemma HeldSlot(v: View, held: set<nat>, x: nat)
    requires Good(v, held) && x in held
    ensures x < MAX_ORDERS == |v.pool| && !v.pool[x].listed
  {
    hide GoodLadder;
  }

  /** The header of a level after an order joins its tail. */
  function HeaderWith(list: OrderList, x: uint32, quantity: uint32): OrderList {
    OrderList(if list.tailIdx == NULL_IDX then x else list.headIdx, x,
              Add32(list.totalQuantity, quantity), Add32(list.orderCount, 1))
  }

  lemma AppendHeader(list: OrderList, q: seq<nat>, os: seq<Order>, x: uint32, order: Order)
    requires Header(list, q, os) && |q| < MAX_ORDERS && forall k: nat :: k < |q| ==> q[k] < MAX_ORDERS
    ensures Header(HeaderWith(list, x, order.quantity), q + [x], os + [order])
  {
    SumAppend(os, [order]);
    assert SumQuantity([order]) == order.quantity;
    Mod32(SumQuantity(os), order.quantity);
  }

  lemma Mod32(a: nat, b: nat)
    ensures (a % TWO_32 + b) % TWO_32 == (a + b) % TWO_32
  {
  }

  lemma LevelSlots(pool: seq<OrderNode>, q: seq<nat>, os: seq<Order>, x: nat)
    requires Linked(pool, q, os) && |pool| == MAX_ORDERS && x < MAX_ORDERS && x !in q
    ensures |q| < MAX_ORDERS && forall k: nat :: k < |q| ==> q[k] < MAX_ORDERS
  {
    forall k: nat | k < |q| ensures q[k] < MAX_ORDERS && q[k] != x { assert NodeAt(pool, q, os, k); assert q[k] in q; }
    Pigeonhole(q + [x], MAX_ORDERS);
  }

  /** What add_buy_order and add_sell_order make of the book. */
  function AppendTo(v: View, x: nat, order: Order): View
    requires x < |v.pool| <= MAX_ORDERS && order.price < MAX_PRICE
    requires var l := v.Side(order.side); |l.lists| == |l.qs| == |l.lv| == MAX_PRICE
    requires var tail := v.Side(order.side).lists[order.price].tailIdx; tail == NULL_IDX || tail < |v.pool|
  {
    var l := v.Side(order.side);
    var list := l.lists[order.price];
    v.With(Appended(v.pool, x, order, list.tailIdx), v.free, order.side,
           l.Put(order.price, HeaderWith(list, x, order.quantity), l.qs[order.price] + [x],
               l.lv[order.price] + [order]))
  }

  lemma AppendDefined(v: View, held: set<nat>, x: nat, order: Order)
    requires Good(v, held) && x in held && order.price < MAX_PRICE
    ensures x < |v.pool| == MAX_ORDERS
    ensures var l := v.Side(order.side); |l.lists| == |l.qs| == |l.lv| == MAX_PRICE
    ensures var tail := v.Side(order.side).lists[order.price].tailIdx;
      (tail == NULL_IDX || tail < |v.pool|) && tail != x
    ensures var l := v.Side(order.side); l.lists[order.price].tailIdx == NULL_IDX <==> l.lv[order.price] == []
  {
    HeldSlot(v, held, x);
    GoodLevel(v, held, order.side, order.price);
    var l := v.Side(order.side);
    AppendTouches(v.pool, l.qs[order.price], l.lv[order.price], x, order, order.side, order.price);
  }

  lemma AppendKeepsGood(v: View, held: set<nat>, x: nat, order: Order)
    requires Good(v, held) && x in held && order.price < MAX_PRICE
    requires SlotOf(order.id) == x
    requires x < |v.pool| == MAX_ORDERS
    requires var l := v.Side(order.side); |l.lists| == |l.qs| == |l.lv| == MAX_PRICE
    requires var tail := v.Side(order.side).lists[order.price].tailIdx; tail == NULL_IDX || tail < |v.pool|
    ensures Good(AppendTo(v, x, order), held - {x})
  {
    var side, price := order.side, order.price;
    HeldSlot(v, held, x);
    GoodLevel(v, held, side, price);
    var l := v.Side(side);
    var q, os, list := l.qs[price], l.lv[price], l.lists[price];
    assert Slots(v.pool, v.free, held, v.bids.qs, v.asks.qs);
    hide Good;
    AppendTouches(v.pool, q, os, x, order, side, price);
    AppendLinked(v.pool, q, os, x, order);
    LevelSlots(v.pool, q, os, x);
    AppendHeader(list, q, os, x, order);
    assert list.tailIdx == if q == [] then NULL_IDX else q[|q| - 1];
    var v' := AppendTo(v, x, order);
    SlotsAfterAppend(v.pool, v.free, held, v.bids.qs, v.asks.qs, x, order, list.tailIdx, v'.bids.qs, v'.asks.qs);
    assert Owned(q + [x], os + [order], side, price);
    hide Linked; hide Header; hide Owned; hide Slots; hide Touches; hide Appended;
    GoodAfter(v, held, side, price, v'.pool, v'.free, held - {x}, HeaderWith(list, x, order.quantity), q + [x],
        os + [order]);
  }

  // ----- filling the head of a level

  /** The head of a level is left with less: its quantity and the level's total shrink by fill. */
  function ReduceHead(v: View, side: bool, price: nat, fill: uint32): View
    requires var l := v.Side(side); price < |l.lists| == |l.qs| == |l.lv|
    requires var l := v.Side(side); var q := l.qs[price];
             q != [] && l.lv[price] != [] && q[0] < |v.pool| && fill <= l.lv[price][0].quantity
  {
    var l := v.Side(side);
    var list, os, q := l.lists[price], l.lv[price], l.qs[price];
    var left := os[0].quantity - fill;
    v.With(Reduced(v.pool, q[0], left), v.free, side,
           l.Put(price, list.(totalQuantity := Sub32(list.totalQuantity, fill)), q,
               [os[0].(quantity := left)] + os[1..]))
  }

  lemma LevelNode(v: View, held: set<nat>, side: bool, price: nat, k: nat)
    requires Good(v, held) && price < MAX_PRICE
    requires var l := v.Side(side); |l.lists| == |l.qs| == |l.lv| == MAX_PRICE && k < |l.qs[price]|
    ensures var l := v.Side(side); var q := l.qs[price];
            && |l.lv[price]| == |q| && q[k] < |v.pool| == MAX_ORDERS && Distinct(q)
            && v.pool[q[k]].order == l.lv[price][k] && SaneNode(v.pool[q[k]])
            && v.pool[q[k]].prevIdx == PrevOf(q, k) && v.pool[q[k]].nextIdx == NextOf(q, k)
            && v.pool[q[k]].listed && SlotOf(v.pool[q[k]].order.id) == q[k]
            && v.pool[q[k]].order.side == side && v.pool[q[k]].order.price == price
  {
    GoodLevel(v, held, side, price);
    var l := v.Side(side);
    assert |v.pool| == MAX_ORDERS && forall i: nat :: i < MAX_ORDERS ==> SaneNode(v.pool[i]) by { hide GoodLadder; }
    hide Good; hide SaneNode;
    assert NodeAt(v.pool, l.qs[price], l.lv[price], k);
  }

  lemma ReduceHeader(list: OrderList, q: seq<nat>, os: seq<Order>, fill: uint32)
    requires Header(list, q, os) && os != [] && fill <= os[0].quantity
    ensures Header(list.(totalQuantity := Sub32(list.totalQuantity, fill)), q,
                   [os[0].(quantity := os[0].quantity - fill)] + os[1..])
  {
    var os' := [os[0].(quantity := os[0].quantity - fill)] + os[1..];
    assert os'[1..] == os[1..];
    assert SumQuantity(os') == SumQuantity(os) - fill;
    SubMod32(SumQuantity(os), fill);
  }

  lemma SubMod32(a: nat, b: uint32)
    requires b <= a
    ensures (a % TWO_32 + TWO_32 - b) % TWO_32 == (a - b) % TWO_32
  {
  }

  lemma ReduceKeepsGood(v: View, held: set<nat>, side: bool, price: nat, fill: uint32)
    requires Good(v, held) && price < MAX_PRICE
    requires var l := v.Side(side); |l.lists| == |l.qs| == |l.lv| == MAX_PRICE
    requires var l := v.Side(side); var q := l.qs[price];
             q != [] && l.lv[price] != [] && q[0] < |v.pool| && fill <= l.lv[price][0].quantity
    ensures Good(ReduceHead(v, side, price, fill), held)
  {
    GoodLevel(v, held, side, price);
    var l := v.Side(side);
    var q, os, list := l.qs[price], l.lv[price], l.lists[price];
    var left := os[0].quantity - fill;
    assert Slots(v.pool, v.free, held, v.bids.qs, v.asks.qs);
    hide Good;
    ReduceLinked(v.pool, q, os, left, side, price);
    ReduceHeader(list, q, os, fill);
    SlotsAfterReduce(v.pool, v.free, held, v.bids.qs, v.asks.qs, q[0], left);
    var v' := ReduceHead(v, side, price, fill);
    assert v'.bids.qs == v.bids.qs && v'.asks.qs == v.asks.qs;
    assert Owned(q, [os[0].(quantity := left)] + os[1..], side, price);
    hide Linked; hide Header; hide Owned; hide Slots; hide Touches; hide Reduced;
    GoodAfter(v, held, side, price, v'.pool, v'.free, held, list.(totalQuantity := Sub32(list.totalQuantity, fill)), q,
              [os[0].(quantity := left)] + os[1..]);
  }

  // ----- unlinking

  /** The header of a level after this node leaves it. */
  function HeaderWithout(list: OrderList, node: OrderNode): OrderList {
    OrderList(if node.prevIdx == NULL_IDX then node.nextIdx else list.headIdx,
              if node.nextIdx == NULL_IDX then node.prevIdx else list.tailIdx,
              Sub32(list.totalQuantity, node.order.quantity), Sub32(list.orderCount, 1))
  }

  function UnlinkAt(v: View, side: bool, price: nat, k: nat): View
    requires var l := v.Side(side); price < |l.lists| == |l.qs| == |l.lv|
    requires var l := v.Side(side); k < |l.qs[price]| == |l.lv[price]|
    requires var x := v.Side(side).qs[price][k]; x < |v.pool| == MAX_ORDERS && SaneNode(v.pool[x])
  {
    var l := v.Side(side);
    var list, os, q := l.lists[price], l.lv[price], l.qs[price];
    v.With(Unlinked(v.pool, q[k]), v.free + [q[k]], side,
           l.Put(price, HeaderWithout(list, v.pool[q[k]]), Without(q, k), Without(os, k)))
  }

  lemma UnlinkHeader(list: OrderList, q: seq<nat>, os: seq<Order>, k: nat, node: OrderNode)
    requires Header(list, q, os) && k < |q| == |os| && node.order == os[k]
    requires forall j: nat :: j < |q| ==> q[j] != NULL_IDX
    requires node.prevIdx == PrevOf(q, k) && node.nextIdx == NextOf(q, k)
    ensures Header(HeaderWithout(list, node), Without(q, k), Without(os, k))
  {
    SumWithout(os, k);
    SubMod32(SumQuantity(os), os[k].quantity);
  }

  lemma UnlinkKeepsGood(v: View, held: set<nat>, side: bool, price: nat, k: nat)
    requires Good(v, held) && price < MAX_PRICE
    requires var l := v.Side(side); |l.lists| == |l.qs| == |l.lv| == MAX_PRICE
    requires var l := v.Side(side); k < |l.qs[price]| == |l.lv[price]|
    requires var x := v.Side(side).qs[price][k]; x < |v.pool| == MAX_ORDERS && SaneNode(v.pool[x])
    ensures Good(UnlinkAt(v, side, price, k), held)
  {
    GoodLevel(v, held, side, price);
    LevelNode(v, held, side, price, k);
    var l := v.Side(side);
    var q, os, list := l.qs[price], l.lv[price], l.lists[price];
    var x := q[k];
    assert Slots(v.pool, v.free, held, v.bids.qs, v.asks.qs);
    hide Good; hide SaneNode;
    UnlinkLinked(v.pool, q, os, k);
    UnlinkTouches(v.pool, q, os, k, side, price);
    forall j: nat | j < |q| ensures q[j] != NULL_IDX { assert NodeAt(v.pool, q, os, j); }
    UnlinkHeader(list, q, os, k, v.pool[x]);
    var v' := UnlinkAt(v, side, price, k);
    SlotsAfterUnlink(v.pool, v.free, held, v.bids.qs, v.asks.qs, x, k, v'.bids.qs, v'.asks.qs);
    assert Owned(Without(q, k), Without(os, k), side, price);
    hide Linked; hide Header; hide Owned; hide Slots; hide Touches; hide Unlinked; hide HeaderWithout;
    GoodAfter(v, held, side, price, v'.pool, v'.free, held, HeaderWithout(list, v.pool[x]), Without(q, k),
        Without(os, k));
  }

  // ----- finding an order through its id

  /** An order on either queue is the one in the slot that its id names. */
  lemma QueuedInPool(v: View, held: set<nat>, side: bool, o: Order)
    requires Good(v, held)
    requires |v.Side(side).lv| == MAX_PRICE && o in Queue(v.Side(side).lv, side)
    ensures SlotOf(o.id) < |v.pool| == MAX_ORDERS && v.pool[SlotOf(o.id)].order == o && o.side == side
    ensures v.pool[SlotOf(o.id)].listed
  {
    GoodSited(v, held, side);
    FlatMember(v.Side(side).lv, side, 0, o);
    var l := v.Side(side);
    GoodLevel(v, held, side, o.price);
    hide Good;
    var k :| 0 <= k < |l.lv[o.price]| && l.lv[o.price][k] == o;
    LevelNode(v, held, side, o.price, k);
  }

  lemma NotInPool(v: View, held: set<nat>, side: bool, id: nat)
    requires Good(v, held) && |v.Side(side).lv| == MAX_PRICE && |v.pool| == MAX_ORDERS
    requires SlotOf(id) < MAX_ORDERS && v.pool[SlotOf(id)].order.id == id && v.pool[SlotOf(id)].listed
      ==> v.pool[SlotOf(id)].order.side != side
    ensures Find(Queue(v.Side(side).lv, side), id) == |Queue(v.Side(side).lv, side)|
  {
    var queue := Queue(v.Side(side).lv, side);
    forall o | o in queue ensures o.id != id {
      QueuedInPool(v, held, side, o);
    }
    FindNone(queue, id);
  }

  /** A live order is found on its queue, and unlinking it removes just that element. */
  lemma FoundInPool(v: View, held: set<nat>, id: nat, k: nat)
    requires Good(v, held) && |v.pool| == MAX_ORDERS && SlotOf(id) < MAX_ORDERS
    requires v.pool[SlotOf(id)].order.id == id && v.pool[SlotOf(id)].listed
    requires var o := v.pool[SlotOf(id)].order; var l := v.Side(o.side);
             o.price < MAX_PRICE == |l.lists| == |l.qs| == |l.lv| && k < |l.qs[o.price]|
                 && l.qs[o.price][k] == SlotOf(id)
    ensures var o := v.pool[SlotOf(id)].order; var l := v.Side(o.side);
            var queue := Queue(l.lv, o.side);
            var n := Find(queue, id);
            && k < |l.lv[o.price]| && n < |queue| && queue[n] == o
            && Queue(l.lv[o.price := Without(l.lv[o.price], k)], o.side) == Without(queue, n)
  {
    hide Good;
    var o := v.pool[SlotOf(id)].order;
    var l := v.Side(o.side);
    var p, os := o.price, l.lv[o.price];
    LevelNode(v, held, o.side, p, k);
    assert os[k] == o;
    forall j: nat | j < k ensures os[j].id != id {
      LevelNode(v, held, o.side, p, j);
    }
    GoodSited(v, held, o.side);
    UpdateLevel(l.lv, o.side, p, Without(os, k));
    BetterRanks(l.lv, o.side, Rank(o.side, p));
    var xs, ys := Ahead(l.lv, o.side, p), Rest(l.lv, o.side, p);
    forall x | x in xs ensures x.id != id {
      InQueue(xs, os, ys, x);
      QueuedInPool(v, held, o.side, x);
    }
    FindInside(xs, os, ys, k, id);
  }

  lemma InQueue(xs: seq<Order>, os: seq<Order>, ys: seq<Order>, x: Order)
    requires x in xs
    ensures x in xs + os + ys
  {
  }

  lemma SaneSlot(v: View, held: set<nat>, x: nat)
    requires Good(v, held) && x < MAX_ORDERS
    ensures |v.pool| == MAX_ORDERS && SaneNode(v.pool[x])
    ensures !v.pool[x].listed ==> v.pool[x].order.id == 0
    ensures held == {} ==> (x in v.free <==> !v.pool[x].listed)
  {
    hide GoodLadder;
  }

  /** A free stack that names a slot twice is not well formed. */
  lemma DoubleFree(v: View, held: set<nat>, x: uint32, k: nat)
    requires |v.free| > 0 && v.free[|v.free| - 1] == x && k < |v.free| - 1 && v.free[k] == x
    ensures !Good(v, held)
  {
    hide GoodLadder;
    assert v.free[k] == v.free[|v.free| - 1];
  }

  function BookOf(v: View): Book
    requires |v.bids.lv| == |v.asks.lv| == MAX_PRICE
  {
    Book(Queue(v.bids.lv, true), Queue(v.asks.lv, false))
  }

  lemma LiveSlot(v: View, held: set<nat>, x: nat) returns (k: nat)
    requires Good(v, held) && x < MAX_ORDERS == |v.pool| && v.pool[x].listed
    ensures var o := v.pool[x].order; var l := v.Side(o.side);
            && o.price < MAX_PRICE == |l.lists| == |l.qs| == |l.lv| && k < |l.qs[o.price]| && l.qs[o.price][k] == x
  {
    hide Distinct; hide Linked; hide Header; hide Owned;
    var o := v.pool[x].order;
    assert SaneNode(v.pool[x]);
    assert x in (if o.side then v.bids.qs else v.asks.qs)[o.price];
    k :| 0 <= k < |v.Side(o.side).qs[o.price]| && v.Side(o.side).qs[o.price][k] == x;
  }

  /** The checks of cancel_order fail: so does the cancellation of the exchange. */
  lemma CancelMisses(v: View, id: nat, userId: int)
    requires Good(v, {}) && |v.pool| == MAX_ORDERS && |v.bids.lv| == |v.asks.lv| == MAX_PRICE
    requires SlotOf(id) < MAX_ORDERS && v.pool[SlotOf(id)].listed ==>
               v.pool[SlotOf(id)].order.id != id || v.pool[SlotOf(id)].order.userId != userId
    ensures Cancel(BookOf(v), id, userId) == Cancelled(BookOf(v), None)
  {
    hide Good; hide Queue; hide Find;
    if SlotOf(id) < MAX_ORDERS && v.pool[SlotOf(id)].order.id == id && v.pool[SlotOf(id)].listed {
      var k := LiveSlot(v, {}, SlotOf(id));
      FoundInPool(v, {}, id, k);
      NotInPool(v, {}, !v.pool[SlotOf(id)].order.side, id);
    } else {
      NotInPool(v, {}, true, id);
      NotInPool(v, {}, false, id);
    }
  }

  /** The checks succeed on a live order: the exchange cancels the same one, and the queue it
      leaves is the flattening of the ladder without it. */
  lemma CancelHits(v: View, id: nat, k: nat)
    requires Good(v, {}) && |v.pool| == MAX_ORDERS && |v.bids.lv| == |v.asks.lv| == MAX_PRICE
    requires SlotOf(id) < MAX_ORDERS && v.pool[SlotOf(id)].order.id == id && v.pool[SlotOf(id)].listed
    requires var o := v.pool[SlotOf(id)].order; var l := v.Side(o.side);
             o.price < MAX_PRICE == |l.lists| == |l.qs| && k < |l.qs[o.price]| && l.qs[o.price][k] == SlotOf(id)
    ensures var o := v.pool[SlotOf(id)].order; var l := v.Side(o.side);
            && k < |l.lv[o.price]| && l.lv[o.price][k] == o
            && Cancel(BookOf(v), id, o.userId)
               == Cancelled(BookOf(v).WithSide(o.side, Queue(l.lv[o.price := Without(l.lv[o.price], k)], o.side)),
                   Some(o))
  {
    hide Good; hide Queue; hide Find;
    var o := v.pool[SlotOf(id)].order;
    FoundInPool(v, {}, id, k);
    LevelNode(v, {}, o.side, o.price, k);
    NotInPool(v, {}, !o.side, id);
  }

  lemma HeadLinks(v: View, held: set<nat>, side: bool, price: nat)
    requires Good(v, held) && price < MAX_PRICE && |v.Side(side).lv| == MAX_PRICE && v.Side(side).lv[price] != []
    ensures var l := v.Side(side);
            && |l.lists| == |l.qs| == MAX_PRICE && |l.qs[price]| == |l.lv[price]|
                && l.lists[price].headIdx == l.qs[price][0]
            && l.qs[price][0] < |v.pool| == MAX_ORDERS && SlotOf(l.lv[price][0].id) == l.qs[price][0]
            && var node := v.pool[l.qs[price][0]];
               && SaneNode(node) && node.listed && node.order == l.lv[price][0] && node.prevIdx == NULL_IDX
               && node.nextIdx != l.qs[price][0]
  {
    hide Good; hide Linked; hide Owned;
    GoodLevel(v, held, side, price);
    LevelNode(v, held, side, price, 0);
  }

  // ----- the slots are partitioned

  /** Where a slot can be: on the free stack, held by the order being processed, or on a list. */
  datatype Place = OnFree(k: nat) | InHand | OnList(side: bool, price: nat, k: nat)

  ghost predicate At(v: View, held: set<nat>, place: Place, x: nat) {
    match place
    case OnFree(k) => k < |v.free| && v.free[k] == x
    case InHand => x in held
    case OnList(side, price, k) =>
      price < |v.Side(side).qs| && k < |v.Side(side).qs[price]| && v.Side(side).qs[price][k] == x
  }

  lemma PlaceOfSlot(v: View, held: set<nat>, place: Place, x: nat)
    requires Good(v, held) && At(v, held, place, x)
    ensures x < MAX_ORDERS == |v.pool| && (place.OnList? <==> v.pool[x].listed)
    ensures place.OnFree? ==> x !in held && Distinct(v.free)
    ensures var o := v.pool[x].order;
            place.OnList? ==>
              place.side == o.side && place.price == o.price && Distinct(v.Side(place.side).qs[place.price])
  {
    hide Distinct; hide SaneNode; hide GoodLadder;
    if place.OnList? {
      assert |v.Side(place.side).qs| == MAX_PRICE;
      GoodLevel(v, held, place.side, place.price);
      LevelNode(v, held, place.side, place.price, place.k);
    }
  }

  /** Free stack, slots in hand and the nodes of all lists partition the pool: every slot is at
      exactly one place. */
  lemma PoolPartition(v: View, held: set<nat>, x: nat) returns (place: Place)
    requires Good(v, held) && x < MAX_ORDERS
    ensures At(v, held, place, x)
    ensures forall other: Place :: At(v, held, other, x) ==> other == place
  {
    place := SomePlace(v, held, x);
    PlaceOfSlot(v, held, place, x);
    hide Good;
    forall other: Place | At(v, held, other, x) ensures other == place {
      PlaceOfSlot(v, held, other, x);
    }
  }

  lemma SomePlace(v: View, held: set<nat>, x: nat) returns (place: Place)
    requires Good(v, held) && x < MAX_ORDERS
    ensures At(v, held, place, x)
  {
    hide GoodLadder; hide Distinct; hide SaneNode;
    if v.pool[x].listed {
      var k := LiveSlot(v, held, x);
      place := OnList(v.pool[x].order.side, v.pool[x].order.price, k);
    } else if x in v.free {
      var k :| 0 <= k < |v.free| && v.free[k] == x;
      place := OnFree(k);
    } else {
      place := InHand;
    }
  }
}
