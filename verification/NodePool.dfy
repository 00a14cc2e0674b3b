/** The pre-allocated node pool and the FIFO lists threaded through it by index, as values:
    what it means that they agree with abstract queues, and how the three list operations
    (append, fill the head, unlink) keep that agreement. */
module NodePools {
  import opened Orders
  import opened PriceTime

  /** listed records whether the node is on a list; the program has no such flag. */
  datatype OrderNode = OrderNode(order: Order, prevIdx: uint32, nextIdx: uint32, ghost listed: bool)

  datatype OrderList = OrderList(headIdx: uint32, tailIdx: uint32, totalQuantity: uint32, orderCount: uint32)

  const EMPTY_LIST := OrderList(NULL_IDX, NULL_IDX, 0, 0)
  const BLANK_NODE := OrderNode(Order(0, 0, 0, 0, 0, 0, false), 0, 0, false)

  function PrevOf(q: seq<nat>, k: nat): nat
    requires k < |q|
  {
    if k == 0 then NULL_IDX else q[k - 1]
  }

  function NextOf(q: seq<nat>, k: nat): nat
    requires k < |q|
  {
    if k + 1 == |q| then NULL_IDX else q[k + 1]
  }

  ghost predicate Distinct(q: seq<nat>) {
    forall j: nat, k: nat :: j < k < |q| ==> q[j] != q[k]
  }

  /** Node k of the list is pool slot q[k]; it holds os[k] and points at its two neighbours. */
  ghost predicate NodeAt(pool: seq<OrderNode>, q: seq<nat>, os: seq<Order>, k: nat)
    requires k < |q| == |os|
  {
    q[k] < |pool| && pool[q[k]].listed && pool[q[k]].order == os[k] && pool[q[k]].prevIdx == PrevOf(q, k)
        && pool[q[k]].nextIdx == NextOf(q, k)
  }

  ghost predicate Linked(pool: seq<OrderNode>, q: seq<nat>, os: seq<Order>) {
    |q| == |os| && Distinct(q) && forall k: nat :: k < |q| ==> NodeAt(pool, q, os, k)
  }

  /** The list header: ends, count, and the quantity total modulo 2^32. */
  ghost predicate Header(list: OrderList, q: seq<nat>, os: seq<Order>) {
    && list.headIdx == (if q == [] then NULL_IDX else q[0])
    && list.tailIdx == (if q == [] then NULL_IDX else q[|q| - 1])
    && list.totalQuantity == SumQuantity(os) % TWO_32
    && list.orderCount == |q|
  }

  /** What a level lists: orders of that side and price, each in the slot its id names. */
  ghost predicate Owned(q: seq<nat>, os: seq<Order>, side: bool, price: nat) {
    && |q| == |os|
    && forall k: nat :: k < |os| ==>
         os[k].side == side && os[k].price == price && SlotOf(os[k].id) == q[k]
  }

  ghost predicate AllLinked(pool: seq<OrderNode>, qs: seq<seq<nat>>, lv: seq<seq<Order>>) {
    |qs| == |lv| == MAX_PRICE && forall p: nat :: p < MAX_PRICE ==> Linked(pool, qs[p], lv[p])
  }

  ghost predicate AllHeaders(lists: seq<OrderList>, qs: seq<seq<nat>>, lv: seq<seq<Order>>) {
    |lists| == |qs| == |lv| == MAX_PRICE && forall p: nat :: p < MAX_PRICE ==> Header(lists[p], qs[p], lv[p])
  }

  ghost predicate AllOwned(qs: seq<seq<nat>>, lv: seq<seq<Order>>, side: bool) {
    |qs| == |lv| == MAX_PRICE && forall p: nat :: p < MAX_PRICE ==> Owned(qs[p], lv[p], side, p)
  }

  ghost predicate AllPositive(lv: seq<seq<Order>>) {
    forall p: nat, k: nat :: p < |lv| && k < |lv[p]| ==> lv[p][k].quantity > 0
  }

  /** Every slot is either idle, and then has id 0 and is free or held by the order being processed, or
      it is on the list that its order names. */
  ghost predicate Slots(pool: seq<OrderNode>, free: seq<uint32>, held: set<nat>, bidQs: seq<seq<nat>>,
      askQs: seq<seq<nat>>) {
    && |pool| == MAX_ORDERS && |bidQs| == |askQs| == MAX_PRICE && Distinct(free)
    && (forall k: nat :: k < |free| ==> free[k] < MAX_ORDERS && free[k] !in held && !pool[free[k]].listed)
    && (forall i :: i in held ==> i < MAX_ORDERS && !pool[i].listed)
    && (forall i: nat :: i < MAX_ORDERS ==> SaneNode(pool[i]))
    && (forall i: nat :: i < MAX_ORDERS && !pool[i].listed ==> (i in free || i in held) && pool[i].order.id == 0)
    && (forall i: nat :: i < MAX_ORDERS && pool[i].listed ==>
          i in (if pool[i].order.side then bidQs else askQs)[pool[i].order.price])
  }

  /** Holds of idle nodes too: their stale links and prices stay in range. */
  ghost predicate SaneNode(n: OrderNode) {
    && n.order.price < MAX_PRICE
    && (n.prevIdx < MAX_ORDERS || n.prevIdx == NULL_IDX)
    && (n.nextIdx < MAX_ORDERS || n.nextIdx == NULL_IDX)
  }

  // ----- one level changes, the others do not

  /** Only idle nodes and nodes of level (side, price) differ. */
  ghost predicate Touches(pool: seq<OrderNode>, pool': seq<OrderNode>, side: bool, price: nat) {
    && |pool'| == |pool|
    && forall i: nat :: i < |pool| && pool'[i] != pool[i] ==>
         !pool[i].listed || (pool[i].order.side == side && pool[i].order.price == price)
  }

  lemma OtherLevelsLinked(
      pool: seq<OrderNode>, pool': seq<OrderNode>, qs: seq<seq<nat>>, lv: seq<seq<Order>>, s: bool, side: bool,
          price: nat)
    requires AllLinked(pool, qs, lv) && AllOwned(qs, lv, s) && Touches(pool, pool', side, price)
    ensures forall p: nat :: p < MAX_PRICE && (s != side || p != price) ==> Linked(pool', qs[p], lv[p])
  {
    forall p: nat | p < MAX_PRICE && (s != side || p != price) ensures Linked(pool', qs[p], lv[p]) {
      var q, os := qs[p], lv[p];
      assert Linked(pool, q, os) && Owned(q, os, s, p);
      forall k: nat | k < |q| ensures NodeAt(pool', q, os, k) { assert NodeAt(pool, q, os, k); }
    }
  }

  /** Replacing one level by another that is correct keeps its side correct. */
  lemma SideUpdated(
      pool: seq<OrderNode>, pool': seq<OrderNode>, lists: seq<OrderList>, qs: seq<seq<nat>>, lv: seq<seq<Order>>,
      side: bool, price: nat, list: OrderList, q: seq<nat>, os: seq<Order>)
    requires price < MAX_PRICE && Touches(pool, pool', side, price)
    requires AllLinked(pool, qs, lv) && AllHeaders(lists, qs, lv) && AllOwned(qs, lv, side)
    requires Linked(pool', q, os) && Header(list, q, os) && Owned(q, os, side, price)
    ensures AllLinked(pool', qs[price := q], lv[price := os])
    ensures AllHeaders(lists[price := list], qs[price := q], lv[price := os])
    ensures AllOwned(qs[price := q], lv[price := os], side)
  {
    OtherLevelsLinked(pool, pool', qs, lv, side, side, price);
    hide Linked; hide Header; hide Owned; hide Touches;
  }

  lemma OtherSideKept(
      pool: seq<OrderNode>, pool': seq<OrderNode>, qs: seq<seq<nat>>, lv: seq<seq<Order>>, side: bool, price: nat)
    requires AllLinked(pool, qs, lv) && AllOwned(qs, lv, !side) && Touches(pool, pool', side, price)
    ensures AllLinked(pool', qs, lv)
  {
    OtherLevelsLinked(pool, pool', qs, lv, !side, side, price);
    hide Linked; hide Owned; hide Touches;
  }

  // ----- append

  /** node_pool_ after an order takes slot x behind the node tail. */
  function Appended(pool: seq<OrderNode>, x: nat, order: Order, tail: uint32): seq<OrderNode>
    requires x < |pool| <= MAX_ORDERS && (tail == NULL_IDX || tail < |pool|)
  {
    var pool1 := if tail == NULL_IDX then pool else pool[tail := pool[tail].(nextIdx := x)];
    pool1[x := OrderNode(order, tail, NULL_IDX, true)]
  }

  lemma AppendStep(pool: seq<OrderNode>, q: seq<nat>, os: seq<Order>, x: nat, order: Order, k: nat)
    requires Linked(pool, q, os) && x < |pool| <= MAX_ORDERS && x !in q && k < |q| && q[|q| - 1] < |pool|
    ensures NodeAt(Appended(pool, x, order, q[|q| - 1]), q + [x], os + [order], k)
  {
    assert q[k] in q;
    assert NodeAt(pool, q, os, k);
    assert k + 1 < |q| ==> q[k] != q[|q| - 1];
    hide Linked;
  }

  lemma AppendLinked(pool: seq<OrderNode>, q: seq<nat>, os: seq<Order>, x: nat, order: Order)
    requires Linked(pool, q, os) && x < |pool| <= MAX_ORDERS && x !in q
    ensures q != [] ==> q[|q| - 1] < |pool|
    ensures var tail: nat := if q == [] then NULL_IDX else q[|q| - 1];
            Linked(Appended(pool, x, order, tail), q + [x], os + [order])
  {
    if q != [] { assert NodeAt(pool, q, os, |q| - 1); }
    var tail: nat := if q == [] then NULL_IDX else q[|q| - 1];
    assert NodeAt(Appended(pool, x, order, tail), q + [x], os + [order], |q|);
    hide NodeAt; hide Appended;
    forall k: nat | k < |q| ensures q[k] != x && NodeAt(Appended(pool, x, order, tail), q + [x], os + [order], k) {
      assert q[k] in q;
      AppendStep(pool, q, os, x, order, k);
    }
  }

  lemma AppendTouches(pool: seq<OrderNode>, q: seq<nat>, os: seq<Order>, x: nat, order: Order, side: bool, price: nat)
    requires Linked(pool, q, os) && Owned(q, os, side, price) && x < |pool| <= MAX_ORDERS && !pool[x].listed
    ensures x !in q
    ensures q != [] ==> q[|q| - 1] < |pool|
    ensures var tail: nat := if q == [] then NULL_IDX else q[|q| - 1];
            Touches(pool, Appended(pool, x, order, tail), side, price)
  {
    forall k: nat | k < |q| ensures q[k] != x && q[k] < |pool| { assert NodeAt(pool, q, os, k); }
    if q != [] { assert NodeAt(pool, q, os, |q| - 1); }
  }

  /** If three orders are stored one after the other in slots 0, 1 and 0, the first is overwritten: it is
      nowhere in the pool, whichever lists they join. */
  lemma SlotOverwritten(pool: seq<OrderNode>, a: Order, b: Order, c: Order, ta: uint32, tb: uint32, tc: uint32)
    requires |pool| == MAX_ORDERS && a != b && a != c && forall i: nat :: i < |pool| ==> pool[i].order != a
    requires ta < MAX_ORDERS || ta == NULL_IDX
    requires tb < MAX_ORDERS || tb == NULL_IDX
    requires tc < MAX_ORDERS || tc == NULL_IDX
    ensures var pool' := Appended(Appended(Appended(pool, 0, a, ta), 1, b, tb), 0, c, tc);
            && pool'[0].order == c && pool'[1].order == b
            && forall i: nat :: i < |pool'| ==> pool'[i].order != a
  {
    var pool1 := Appended(pool, 0, a, ta);
    var pool2 := Appended(pool1, 1, b, tb);
    var pool3 := Appended(pool2, 0, c, tc);
    forall i: nat | i < |pool3|
      ensures pool3[i].order == if i == 0 then c else if i == 1 then b else pool[i].order
    {
    }
  }

  /** A list without repetition is no longer than the pool. */
  lemma Pigeonhole(q: seq<nat>, n: nat)
    requires Distinct(q) && forall k: nat :: k < |q| ==> q[k] < n
    ensures |q| <= n
  {
    SeqSize(q, Below(n));
  }

  ghost function Below(n: nat): (s: set<nat>)
    ensures |s| == n && forall i: nat :: i in s <==> i < n
  {
    if n == 0 then {} else Below(n - 1) + {n - 1}
  }

  lemma {:induction false} SeqSize(q: seq<nat>, s: set<nat>)
    requires Distinct(q) && forall k: nat :: k < |q| ==> q[k] in s
    ensures |q| <= |s|
  {
    if q != [] {
      SeqSize(q[1..], s - {q[0]});
    }
  }

  // ----- a partial fill of the head

  /** node_pool_ after the order in slot x is left with this quantity. */
  function Reduced(pool: seq<OrderNode>, x: nat, quantity: uint32): seq<OrderNode>
    requires x < |pool|
  {
    pool[x := pool[x].(order := pool[x].order.(quantity := quantity))]
  }

  lemma ReduceLinked(pool: seq<OrderNode>, q: seq<nat>, os: seq<Order>, quantity: uint32, side: bool, price: nat)
    requires Linked(pool, q, os) && Owned(q, os, side, price) && q != [] && q[0] < |pool|
    ensures Linked(Reduced(pool, q[0], quantity), q, [os[0].(quantity := quantity)] + os[1..])
    ensures Touches(pool, Reduced(pool, q[0], quantity), side, price)
  {
    var pool', os' := Reduced(pool, q[0], quantity), [os[0].(quantity := quantity)] + os[1..];
    assert NodeAt(pool, q, os, 0);
    forall k: nat | k < |q| ensures NodeAt(pool', q, os', k) {
      assert NodeAt(pool, q, os, k);
    }
  }

  // ----- unlinking

  /** node_pool_ after the node in slot x is taken out of its list and marked idle. */
  function Unlinked(pool: seq<OrderNode>, x: nat): seq<OrderNode>
    requires x < |pool| == MAX_ORDERS && SaneNode(pool[x])
  {
    var node := pool[x];
    var pool1 := if node.prevIdx == NULL_IDX then pool
                 else pool[node.prevIdx := pool[node.prevIdx].(nextIdx := node.nextIdx)];
    var pool2 := if node.nextIdx == NULL_IDX then pool1
                 else pool1[node.nextIdx := pool1[node.nextIdx].(prevIdx := node.prevIdx)];
    pool2[x := pool2[x].(order := pool2[x].order.(id := 0), listed := false)]
  }

  /** Unlinking changes no order but that of the node itself, which loses its id and keeps the rest. */
  lemma UnlinkedOrder(pool: seq<OrderNode>, x: nat, i: nat)
    requires x < |pool| == MAX_ORDERS && SaneNode(pool[x]) && i < MAX_ORDERS
    ensures Unlinked(pool, x)[i].order == if i == x then pool[x].order.(id := 0) else pool[i].order
  {
  }

  lemma DistinctWithout(q: seq<nat>, k: nat)
    requires Distinct(q) && k < |q|
    ensures Distinct(Without(q, k)) && q[k] !in Without(q, k)
    ensures forall i :: i in q && i != q[k] ==> i in Without(q, k)
  {
    var w := Without(q, k);
    forall i | i in q && i != q[k] ensures i in w {
      var j :| 0 <= j < |q| && q[j] == i;
      assert w[if j < k then j else j - 1] == i;
    }
  }

  lemma UnlinkedNode(pool: seq<OrderNode>, x: nat, i: nat)
    requires x < |pool| == MAX_ORDERS && SaneNode(pool[x]) && i < MAX_ORDERS
    ensures |Unlinked(pool, x)| == |pool|
    ensures i != x ==> Unlinked(pool, x)[i].order == pool[i].order && Unlinked(pool, x)[i].listed == pool[i].listed
    ensures Unlinked(pool, x)[i].prevIdx == if i == pool[x].nextIdx then pool[x].prevIdx else pool[i].prevIdx
    ensures Unlinked(pool, x)[i].nextIdx == if i == pool[x].prevIdx then pool[x].nextIdx else pool[i].nextIdx
  {
  }

  /** Node j of the list before, seen after node k is gone. */
  lemma UnlinkStep(pool: seq<OrderNode>, q: seq<nat>, os: seq<Order>, k: nat, j: nat)
    requires Linked(pool, q, os) && k < |q| && j < |q| && j != k
    requires q[k] < |pool| == MAX_ORDERS && SaneNode(pool[q[k]])
    ensures NodeAt(Unlinked(pool, q[k]), Without(q, k), Without(os, k), if j < k then j else j - 1)
  {
    assert NodeAt(pool, q, os, k);
    assert NodeAt(pool, q, os, j);
    UnlinkedNode(pool, q[k], q[j]);
    hide Unlinked; hide Linked;
    assert k + 1 < |q| && j != k + 1 ==> q[j] != q[k + 1];
    assert k > 0 && j != k - 1 ==> q[j] != q[k - 1];
  }

  lemma UnlinkLinked(pool: seq<OrderNode>, q: seq<nat>, os: seq<Order>, k: nat)
    requires Linked(pool, q, os) && k < |q|
    requires q[k] < |pool| == MAX_ORDERS && SaneNode(pool[q[k]])
    ensures Linked(Unlinked(pool, q[k]), Without(q, k), Without(os, k))
  {
    var pool', q', os' := Unlinked(pool, q[k]), Without(q, k), Without(os, k);
    DistinctWithout(q, k);
    forall j: nat | j < |q'| ensures NodeAt(pool', q', os', j) {
      UnlinkStep(pool, q, os, k, if j < k then j else j + 1);
    }
  }

  lemma UnlinkTouches(pool: seq<OrderNode>, q: seq<nat>, os: seq<Order>, k: nat, side: bool, price: nat)
    requires Linked(pool, q, os) && Owned(q, os, side, price) && k < |q|
    requires q[k] < |pool| == MAX_ORDERS && SaneNode(pool[q[k]])
    ensures Touches(pool, Unlinked(pool, q[k]), side, price)
  {
    assert NodeAt(pool, q, os, k);
    if k > 0 { assert NodeAt(pool, q, os, k - 1); }
    if k + 1 < |q| { assert NodeAt(pool, q, os, k + 1); }
  }

  // ----- the slots

  lemma SlotsAfterAppend(
      pool: seq<OrderNode>, free: seq<uint32>, held: set<nat>, bidQs: seq<seq<nat>>, askQs: seq<seq<nat>>,
      x: nat, order: Order, tail: uint32, bidQs': seq<seq<nat>>, askQs': seq<seq<nat>>)
    requires Slots(pool, free, held, bidQs, askQs) && x in held
    requires order.price < MAX_PRICE && (tail == NULL_IDX || tail < MAX_ORDERS)
    requires var mine := if order.side then bidQs else askQs;
             var mine' := if order.side then bidQs' else askQs';
             mine' == mine[order.price := mine[order.price] + [x]]
    requires if order.side then askQs' == askQs else bidQs' == bidQs
    ensures Slots(Appended(pool, x, order, tail), free, held - {x}, bidQs', askQs')
  {
    var pool' := Appended(pool, x, order, tail);
    forall i: nat | i < MAX_ORDERS && i != x
      ensures pool'[i].order == pool[i].order && pool'[i].listed == pool[i].listed {}
  }

  lemma SlotsAfterReduce(
      pool: seq<OrderNode>, free: seq<uint32>, held: set<nat>, bidQs: seq<seq<nat>>, askQs: seq<seq<nat>>,
      x: nat, quantity: uint32)
    requires Slots(pool, free, held, bidQs, askQs) && x < MAX_ORDERS
    ensures Slots(Reduced(pool, x, quantity), free, held, bidQs, askQs)
  {
    var pool' := Reduced(pool, x, quantity);
    forall i: nat | i < MAX_ORDERS
      ensures pool'[i].order.(quantity := 0) == pool[i].order.(quantity := 0) && pool'[i].listed == pool[i].listed
      ensures SaneNode(pool'[i]) {}
  }

  /** Unlinking a live order frees its slot. */
  lemma SlotsAfterUnlink(
      pool: seq<OrderNode>, free: seq<uint32>, held: set<nat>, bidQs: seq<seq<nat>>, askQs: seq<seq<nat>>,
      x: nat, k: nat, bidQs': seq<seq<nat>>, askQs': seq<seq<nat>>)
    requires Slots(pool, free, held, bidQs, askQs) && x < MAX_ORDERS && pool[x].listed && SaneNode(pool[x])
    requires var order := pool[x].order;
             var mine := if order.side then bidQs else askQs;
             var mine' := if order.side then bidQs' else askQs';
             && k < |mine[order.price]| && mine[order.price][k] == x && Distinct(mine[order.price])
             && mine' == mine[order.price := Without(mine[order.price], k)]
             && (if order.side then askQs' == askQs else bidQs' == bidQs)
    ensures Slots(Unlinked(pool, x), free + [x], held, bidQs', askQs')
  {
    var pool' := Unlinked(pool, x);
    var order := pool[x].order;
    DistinctWithout((if order.side then bidQs else askQs)[order.price], k);
    forall i: nat | i < MAX_ORDERS
      ensures i != x ==> pool'[i].order == pool[i].order && pool'[i].listed == pool[i].listed
      ensures SaneNode(pool'[i]) && (i == x ==> pool'[i].order.id == 0 && !pool'[i].listed)
    {
      assert SaneNode(pool[i]);
      UnlinkedNode(pool, x, i);
    }
    hide Unlinked; hide SaneNode;
    var free' := free + [x];
    forall i: nat | i < MAX_ORDERS && !pool'[i].listed ensures i in free' || i in held {
      if i == x { assert free'[|free|] == x; }
    }
  }
}
