/** The CURRENT engine: pre-allocated nodes, index-linked FIFO lists and price bitmaps,
    updated in place, and proved to be the price-time exchange of PriceTime. */
module CurrentEngine {
  import opened Orders
  import opened PriceTime
  import opened Levels
  import opened NodePools
  import opened BookViews
  import opened Words
  import opened Depths
  import opened PriceBitmaps

  /** The state of the engine that its callers can tell apart. slot0 is the order last stored in slot 0
      of the pool; while the slot is idle its id is 0, and the rest is what was left behind. */
  datatype Engine = Engine(book: Book, counter: nat, free: seq<uint32>, slot0: Order)

  datatype Accepted = Accepted(engine: Engine, trades: seq<Trade>, rejected: uint32, rest: Order)

  /** Processing an order takes the top free slot for its id; the slots of the orders that it
      uses up are freed in the order of their trades, and its own one last if nothing rests. */
  function Accept(e: Engine, order: Order): Accepted
    requires e.free != []
  {
    var slot := e.free[|e.free| - 1];
    var p := Process(e.book, order.(id := PackId(e.counter + 1, slot)));
    var freed := e.free[..|e.free| - 1] + SlotsOf(p.filled);
    var free := if p.rest.quantity > 0 then freed else freed + [slot];
    // an order that is used up leaves nothing
    var left := if 0 in e.free then e.slot0 else e.slot0.(id := 0, quantity := 0);
    Accepted(Engine(p.book, e.counter + 1, free, SlotZero(p.book, left)), p.trades, p.rejected, p.rest)
  }

  /** Idle slots are marked with id 0, so a request to cancel order 0 meets slot 0 when that is idle
      and was last used (or initialised) under the caller's user id. */
  predicate HitsIdle(e: Engine, id: nat, userId: int) {
    id == 0 && 0 in e.free && e.slot0.userId == userId
  }

  /** Cancelling frees the slot of the order that leaves, with its quantity still in it. A request
      that hits idle slot 0 is answered with what was left there, and frees the slot again. */
  function CancelStep(e: Engine, id: nat, userId: int): (Engine, Option<Order>) {
    if HitsIdle(e, id, userId) then (e.(free := e.free + [0]), Some(e.slot0))
    else
      var c := Cancel(e.book, id, userId);
      if c.order.None? then (e, None)
      else (Engine(c.book, e.counter, e.free + [SlotOf(id)], SlotZero(c.book, e.slot0.(id := 0))), c.order)
  }

  /** The position of the first order in this slot, or the queue's length. */
  function InSlot(queue: seq<Order>, slot: uint32): (k: nat)
    ensures k <= |queue|
    ensures k < |queue| ==> SlotOf(queue[k].id) == slot
    ensures forall j: nat :: j < k ==> SlotOf(queue[j].id) != slot
  {
    if queue == [] || SlotOf(queue[0].id) == slot then 0 else 1 + InSlot(queue[1..], slot)
  }

  /** What slot 0 stores: the resting order whose slot it is, or else what was left in it. */
  function SlotZero(book: Book, left: Order): Order {
    var i, j := InSlot(book.bids, 0), InSlot(book.asks, 0);
    if i < |book.bids| then book.bids[i] else if j < |book.asks| then book.asks[j] else left
  }

  /** How matching wears out a node: the quantity of its order goes down, and when that is used up the
      id goes too and the node leaves its list. Idle nodes keep their orders. */
  ghost predicate Worn(before: OrderNode, after: OrderNode) {
    if !before.listed then after.order == before.order && !after.listed
    else
      && after.order == before.order.(quantity := after.order.quantity, id := after.order.id)
      && (if after.listed then after.order.id == before.order.id else after.order.id == 0 && after.order.quantity == 0)
  }

  lemma WornTwice(a: OrderNode, b: OrderNode, c: OrderNode)
    requires Worn(a, b) && Worn(b, c)
    ensures Worn(a, c)
  {
  }

  /** A book's slot 0 is what the pool stores there, once the orders that left it wore out. */
  lemma SlotZeroStored(v: View, left: Order)
    requires Good(v, {}) && |v.pool| == MAX_ORDERS && |v.bids.lv| == |v.asks.lv| == MAX_PRICE
    requires !v.pool[0].listed ==> v.pool[0].order == left
    ensures SlotZero(BookOf(v), left) == v.pool[0].order
  {
    hide Good; hide Queue; hide SlotOf;
    var book := BookOf(v);
    var i, j := InSlot(book.bids, 0), InSlot(book.asks, 0);
    if i < |book.bids| {
      QueuedInPool(v, {}, true, book.bids[i]);
    } else if j < |book.asks| {
      QueuedInPool(v, {}, false, book.asks[j]);
    } else if v.pool[0].listed {
      StoredIsQueued(v);
    }
  }

  lemma StoredIsQueued(v: View)
    requires Good(v, {}) && |v.pool| == MAX_ORDERS && |v.bids.lv| == |v.asks.lv| == MAX_PRICE
    requires v.pool[0].listed
    ensures SlotOf(v.pool[0].order.id) == 0 && v.pool[0].order in BookOf(v).Side(v.pool[0].order.side)
  {
    hide Good; hide Queue; hide SlotOf;
    var o := v.pool[0].order;
    var k := LiveSlot(v, {}, 0);
    LevelNode(v, {}, o.side, o.price, k);
    FoundInPool(v, {}, o.id, k);
  }

  predicate CanProcess(e: Engine, order: Order) {
    order.price < MAX_PRICE && e.free != []
  }

  function SlotsOf(ids: seq<nat>): seq<uint32> {
    seq(|ids|, i requires 0 <= i < |ids| => SlotOf(ids[i]))
  }

  lemma SlotsOfAppend(a: seq<nat>, b: seq<nat>)
    ensures SlotsOf(a + b) == SlotsOf(a) + SlotsOf(b)
  {
  }

  // ----- a matching in progress

  /** Onward, with the slots freed on the way. */
  ghost predicate Continues(
      t0: seq<Trade>, f0: seq<uint32>, m0: Matching, t1: seq<Trade>, f1: seq<uint32>, m1: Matching) {
    Onward(t0, m0, t1, m1) && f0 + SlotsOf(m0.filled) == f1 + SlotsOf(m1.filled)
  }

  lemma ContinuesStep(t0: seq<Trade>, f0: seq<uint32>, m0: Matching, t: seq<Trade>, g: seq<nat>, m1: Matching)
    requires m0 == m1.After(t, g)
    ensures Continues(t0, f0, m0, t0 + t, f0 + SlotsOf(g), m1)
  {
    hide SlotsOf;
    OnwardStep(t0, m0, t, g, m1);
    SlotsOfAppend(g, m1.filled);
    Assoc(f0, SlotsOf(g), SlotsOf(m1.filled));
  }

  lemma ContinuesEnd(
      t0: seq<Trade>, f0: seq<uint32>, m0: Matching, t1: seq<Trade>, f1: seq<uint32>,
      incoming: Order, rejected: uint32, queue: seq<Order>)
    requires Continues(t0, f0, m0, t1, f1, Matching([], incoming, rejected, queue, []))
    ensures t1 == t0 + m0.trades && f1 == f0 + SlotsOf(m0.filled)
    ensures incoming == m0.incoming && rejected == m0.rejected && queue == m0.resting
  {
    assert f1 + SlotsOf([]) == f1;
  }

  /** What a best-price query answers. */
  ghost predicate BestOf(lv: seq<seq<Order>>, side: bool, price: uint32) {
    && |lv| == MAX_PRICE
    && (price == NULL_IDX ==> forall p: nat :: p < MAX_PRICE ==> lv[p] == [])
    && (price != NULL_IDX ==> IsBest(lv, side, price) && lv[price] != [])
  }

  function InitialFree(): seq<uint32> {
    seq(MAX_ORDERS, i requires 0 <= i < MAX_ORDERS => MAX_ORDERS - 1 - i)
  }

  function InitialEngine(): Engine {
    Engine(EMPTY_BOOK, 0, InitialFree(), BLANK_NODE.order)
  }

  ghost predicate Blank(l: Ladder) {
    && |l.lists| == |l.qs| == |l.lv| == MAX_PRICE
    && forall p: nat :: p < MAX_PRICE ==> l.lists[p] == EMPTY_LIST && l.qs[p] == [] && l.lv[p] == []
  }

  lemma InitialGood(v: View)
    requires |v.pool| == MAX_ORDERS && (forall i: nat :: i < MAX_ORDERS ==> v.pool[i] == BLANK_NODE)
    requires v.free == InitialFree() && Blank(v.bids) && Blank(v.asks)
    ensures Good(v, {})
  {
    forall i: nat | i < MAX_ORDERS ensures i in v.free {
      assert v.free[MAX_ORDERS - 1 - i] == i;
    }
  }

  lemma BlankSide(l: Ladder, side: bool)
    requires Blank(l)
    ensures |l.lv| == MAX_PRICE && AllPositive(l.lv) && Queue(l.lv, side) == []
  {
    EmptyQueue(l.lv, side);
  }

  /** What cancel_order does to the pool and to the lists of the two sides: the node is unlinked from the
      list of its own price and side, as its links say. */
  ghost predicate Surgery(
      pool: seq<OrderNode>, x: nat, bids: seq<OrderList>, asks: seq<OrderList>,
      pool': seq<OrderNode>, bids': seq<OrderList>, asks': seq<OrderList>)
  {
    && x < |pool| == MAX_ORDERS && SaneNode(pool[x]) && |bids| == |asks| == MAX_PRICE && pool' == Unlinked(pool, x)
    && var o := pool[x].order;
       if o.side then bids' == bids[o.price := HeaderWithout(bids[o.price], pool[x])] && asks' == asks
       else asks' == asks[o.price := HeaderWithout(asks[o.price], pool[x])] && bids' == bids
  }

  /** Its price is unmarked exactly if one order rested there, whether or not that was the one. */
  ghost predicate BitSpent(lv: seq<seq<Order>>, price: nat, occupied: set<nat>, occupied': set<nat>) {
    price < |lv| && occupied' == occupied - (if |lv[price]| == 1 then {price} else {})
  }

  lemma ListedSlot(v: View, x: nat)
    requires Good(v, {}) && x < MAX_ORDERS == |v.pool| && v.pool[x].listed
    ensures SlotOf(v.pool[x].order.id) == x
  {
    hide Good; hide SlotOf;
    var o := v.pool[x].order;
    var k := LiveSlot(v, {}, x);
    LevelNode(v, {}, o.side, o.price, k);
  }

  // ----- the two sides

  class BookSide {
    const side: bool
    const lists: array<OrderList>
    const bits: PriceBitmap
    ghost var qs: seq<seq<nat>>
    ghost var lv: seq<seq<Order>>

    ghost function Ladder(): Ladder
      reads this, lists
    {
      BookViews.Ladder(lists[..], qs, lv)
    }

    /** The bitmap marks exactly the prices with resting orders. */
    ghost predicate Indexed()
      reads this, bits, bits.l1, bits.l2
    {
      bits.Valid() && |lv| == MAX_PRICE && forall p: nat :: p < MAX_PRICE ==> (p in bits.occupied <==> lv[p] != [])
    }

    constructor (side: bool)
      ensures this.side == side && Indexed() && lists.Length == MAX_PRICE
      ensures fresh(lists) && fresh(bits) && fresh(bits.l1) && fresh(bits.l2)
      ensures bits.l1 as object != lists && bits.l2 as object != lists
      ensures Blank(Ladder())
    {
      this.side := side;
      lists := new OrderList[MAX_PRICE](_ => EMPTY_LIST);
      bits := new PriceBitmap();
      qs := seq(MAX_PRICE, i => []);
      lv := seq(MAX_PRICE, i => []);
    }
  }

  class OrderBook {
    const pool: array<OrderNode>
    var free: seq<uint32>
    const bids: BookSide
    const asks: BookSide
    var counter: nat
    /** What the trade listener has received. */
    var trades: seq<Trade>

    ghost predicate Separate() {
      && bids != asks && bids.side && !asks.side
      && bids.lists != asks.lists && bids.bits != asks.bits
      && bids.bits.l1 != asks.bits.l1 && bids.bits.l1 != asks.bits.l2
      && bids.bits.l2 != asks.bits.l1 && bids.bits.l2 != asks.bits.l2
      && pool.Length == MAX_ORDERS && bids.lists.Length == asks.lists.Length == MAX_PRICE
      && Apart(bids.bits.l1) && Apart(bids.bits.l2) && Apart(asks.bits.l1) && Apart(asks.bits.l2)
    }

    ghost predicate Apart(words: array<bv64>) {
      words as object != pool && words as object != bids.lists && words as object != asks.lists
    }

    ghost function Footprint(): set<object> {
      {this, pool, bids, bids.lists, bids.bits, bids.bits.l1, bids.bits.l2,
       asks, asks.lists, asks.bits, asks.bits.l1, asks.bits.l2}
    }

    ghost function View(): View
      reads this, pool, bids, bids.lists, asks, asks.lists
    {
      BookViews.View(pool[..], free, bids.Ladder(), asks.Ladder())
    }

    /** Pool, lists and free stack agree, whatever the bitmaps say. */
    ghost predicate Sound(held: set<nat>)
      reads this, pool, bids, bids.lists, asks, asks.lists
    {
      Separate() && Good(View(), held) && AllPositive(bids.lv) && AllPositive(asks.lv)
    }

    // Every slot is free, and slot 0 is on top.
    static method AllIndices() returns (freeIndices: seq<uint32>)
      ensures freeIndices == InitialFree()
    {
      freeIndices := [];
      for i := 0 to MAX_ORDERS
        invariant freeIndices == InitialFree()[..i]
      {
        freeIndices := freeIndices + [MAX_ORDERS - 1 - i];
      }
    }

    constructor ()
      ensures Sound({}) && bids.Indexed() && asks.Indexed() && fresh(Footprint())
      ensures counter == 0 && trades == [] && State() == InitialEngine()
    {
      hide Good; hide Queue; hide Blank; hide AllPositive; hide Indexes;
      pool := new OrderNode[MAX_ORDERS](_ => BLANK_NODE);
      bids := new BookSide(true);
      asks := new BookSide(false);
      counter := 0;
      trades := [];
      var freeIndices := AllIndices();
      free := freeIndices;
      new;
      InitialGood(View());
      BlankSide(bids.Ladder(), true);
      BlankSide(asks.Ladder(), false);
    }

    ghost function State(): Engine
      reads this, pool, bids, asks
      requires |bids.lv| == |asks.lv| == MAX_PRICE
    {
      Engine.Engine(Book(Queue(bids.lv, true), Queue(asks.lv, false)), counter, free,
                    if pool.Length > 0 then pool[0].order else BLANK_NODE.order)
    }

    // The head of a level is left with less.
    method ReduceHead(s: BookSide, price: uint32, fill: uint32, ghost held: set<nat>)
      requires Separate() && Good(View(), held) && (s == bids || s == asks)
      requires price < MAX_PRICE == |s.lv| && s.lv[price] != [] && fill <= s.lv[price][0].quantity
      modifies pool, s`lv, s.lists
      ensures Good(View(), held)
      ensures var head := old(s.lv[price][0]);
              s.lv == old(s.lv)[price := [head.(quantity := head.quantity - fill)] + old(s.lv[price])[1..]]
      ensures s.lists[price].headIdx == old(s.lists[price].headIdx) < MAX_ORDERS == pool.Length
      ensures pool[s.lists[price].headIdx].order == s.lv[price][0]
      ensures Worn(old(pool[0]), pool[0])
    {
      hide Good; hide Linked; hide Owned; hide Distinct;
      ghost var v := View();
      GoodLevel(v, held, s.side, price);
      LevelNode(v, held, s.side, price, 0);
      var restingIdx := s.lists[price].headIdx;
      pool[restingIdx] := pool[restingIdx].(order := pool[restingIdx].order.(quantity :=
          pool[restingIdx].order.quantity - fill));
      s.lists[price] := s.lists[price].(totalQuantity := Sub32(s.lists[price].totalQuantity, fill));
      s.lv := s.lv[price := [s.lv[price][0].(quantity := s.lv[price][0].quantity - fill)] + s.lv[price][1..]];
      assert View() == BookViews.ReduceHead(v, s.side, price, fill);
      ReduceKeepsGood(v, held, s.side, price, fill);
    }

    // The head of a level, used up, leaves its list and frees its slot.
    method PopHead(s: BookSide, price: uint32, ghost held: set<nat>)
      requires Separate() && Good(View(), held) && (s == bids || s == asks)
      requires price < MAX_PRICE == |s.lv| && s.lv[price] != [] && s.lv[price][0].quantity == 0
      modifies this`free, pool, s`qs, s`lv, s.lists
      ensures Good(View(), held)
      ensures s.lv == old(s.lv)[price := old(s.lv[price])[1..]]
      ensures free == old(free) + [SlotOf(old(s.lv[price][0].id))]
      ensures Worn(old(pool[0]), pool[0])
    {
      hide Indexes; hide Good; hide SlotOf;
      ghost var v := View();
      HeadLinks(v, held, s.side, price);
      ghost var q, os := s.qs[price], s.lv[price];
      var restingIdx := s.lists[price].headIdx;
      var list := s.lists[price];
      list := list.(headIdx := pool[restingIdx].nextIdx);
      if list.headIdx != NULL_IDX {
        pool[list.headIdx] := pool[list.headIdx].(prevIdx := NULL_IDX);
      } else {
        list := list.(tailIdx := NULL_IDX);
      }
      s.lists[price] := list.(orderCount := Sub32(list.orderCount, 1));
      pool[restingIdx] := pool[restingIdx].(order := pool[restingIdx].order.(id := 0), listed := false);
      free := free + [restingIdx];
      s.qs := s.qs[price := Without(q, 0)];
      s.lv := s.lv[price := Without(os, 0)];
      assert pool[..] == Unlinked(v.pool, restingIdx);
      assert s.lists[price] == HeaderWithout(v.Side(s.side).lists[price], v.pool[restingIdx]);
      assert View() == UnlinkAt(v, s.side, price, 0);
      UnlinkKeepsGood(v, held, s.side, price, 0);
      UnlinkedOrder(v.pool, restingIdx, 0);
      UnlinkedNode(v.pool, restingIdx, 0);
      assert Without(os, 0) == os[1..];
    }

    lemma LevelHead(s: BookSide, price: nat, held: set<nat>)
      requires Sound(held) && (s == bids || s == asks) && price < MAX_PRICE
      ensures |s.lv| == s.lists.Length == MAX_PRICE && s.lists[price].orderCount == |s.lv[price]|
      ensures s.lists[price].totalQuantity == SumQuantity(s.lv[price]) % TWO_32 && |s.lv[price]| < TWO_32
      ensures s.lists[price].headIdx == NULL_IDX <==> s.lv[price] == []
      ensures s.lv[price] != [] ==>
                && s.lists[price].headIdx < pool.Length
                && pool[s.lists[price].headIdx].order == s.lv[price][0]
                && s.lv[price][0].price == price && s.lv[price][0].side == s.side && s.lv[price][0].quantity > 0
    {
      hide Good; hide Linked; hide Distinct;
      GoodLevel(View(), held, s.side, price);
      if s.lv[price] != [] { LevelNode(View(), held, s.side, price, 0); }
    }

    // One fill of an incoming order against the head of a level: the body of the inner loop of
    // match_buy and match_sell after the self-trade check.
    method FillHead(s: BookSide, price: uint32, incoming: Order, ghost held: set<nat>) returns (incoming': Order)
      requires Sound(held) && (s == bids || s == asks) && price < MAX_PRICE && |s.lv| == MAX_PRICE && s.lv[price] != []
      requires incoming.quantity > 0
      modifies this`free, this`trades, pool, s`qs, s`lv, s.lists
      ensures Sound(held)
      ensures var head := old(s.lv[price][0]);
              var fill := Min(incoming.quantity, head.quantity);
              && incoming' == incoming.(quantity := incoming.quantity - fill)
              && trades == old(trades) + [MakeTrade(incoming, head, fill)]
              && s.lv == old(s.lv)[price := Filled(old(s.lv)[price], fill)]
              && free == old(free) + SlotsOf(if head.quantity == fill then [head.id] else [])
              && Records(trades[|old(trades)|], incoming, head) && trades[|old(trades)|].quantity == fill
      ensures Worn(old(pool[0]), pool[0])
    {
      hide Indexes; hide Good; hide Linked; hide Owned; hide Distinct; hide SlotOf; hide MakeTrade; hide Worn;
      hide Records;
      ghost var head := s.lv[price][0];
      LevelHead(s, price, held);
      var restingIdx := s.lists[price].headIdx;
      var resting := pool[restingIdx].order;
      var fill := Min(incoming.quantity, resting.quantity);
      incoming' := incoming.(quantity := incoming.quantity - fill);
      trades := trades + [MakeTrade(incoming, resting, fill)];
      TradeRecords(incoming, resting, fill);
      ReduceHead(s, price, fill, held);
      if pool[restingIdx].order.quantity == 0 {
        ghost var reduced := pool[0];
        PopHead(s, price, held);
        WornTwice(old(pool[0]), reduced, pool[0]);
        assert SlotsOf([head.id]) == [SlotOf(head.id)];
      }
    }

    // The inner loop of match_buy and match_sell: fill from one price level until the incoming
    // order or the level is used up, or until an own order stops the matching.
    method SweepLevel(s: BookSide, price: uint32, incoming0: Order, ghost held: set<nat>)
      returns (incoming: Order, stopped: bool, rejected: uint32)
      requires Sound(held) && (s == bids || s == asks) && IsBest(s.lv, s.side, price)
      requires s.lv[price] != [] && incoming0.quantity > 0 && Crosses(incoming0, price)
      modifies this`free, this`trades, pool, s`qs, s`lv, s.lists
      ensures Sound(held) && |s.lv| == MAX_PRICE && s.lv == old(s.lv)[price := s.lv[price]]
      ensures stopped ==> s.lv[price] != []
      ensures !stopped ==>
                && incoming == incoming0.(quantity := incoming.quantity) && incoming.quantity < incoming0.quantity
                && (incoming.quantity == 0 || s.lv[price] == [])
      ensures Continues(old(trades), old(free), Match(incoming0, old(Queue(s.lv, s.side))), trades, free,
                        if stopped then Matching([], incoming, rejected, Queue(s.lv, s.side), [])
                        else Match(incoming, Queue(s.lv, s.side)))
      ensures Worn(old(pool[0]), pool[0])
    {
      hide Sound; hide Match; hide Queue; hide Filled; hide SlotsOf;
      incoming := incoming0;
      ghost var m := Match(incoming0, Queue(s.lv, s.side));
      LevelHead(s, price, held);
      while incoming.quantity > 0 && s.lists[price].headIdx != NULL_IDX
        invariant Sound(held) && |s.lv| == s.lists.Length == MAX_PRICE && s.lv == old(s.lv)[price := s.lv[price]]
        invariant s.lists[price].headIdx == NULL_IDX <==> s.lv[price] == []
        invariant incoming == incoming0.(quantity := incoming.quantity) && incoming.quantity <= incoming0.quantity
        invariant incoming.quantity < incoming0.quantity || s.lv[price] != []
        invariant Worn(old(pool[0]), pool[0])
        invariant Continues(old(trades), old(free), m, trades, free, Match(incoming, Queue(s.lv, s.side)))
        decreases incoming.quantity
      {
        LevelHead(s, price, held);
        var resting := pool[s.lists[price].headIdx].order;
        if incoming.userId == resting.userId {
          SelfTradeStops(s.lv, s.side, price, incoming);
          rejected := incoming.quantity;
          incoming := incoming.(quantity := 0);
          return incoming, true, rejected;
        }
        FillStep(s.lv, s.side, price, incoming);
        ghost var fill := Min(incoming.quantity, resting.quantity);
        ghost var t, g := [MakeTrade(incoming, resting, fill)], if resting.quantity == fill then [resting.id] else [];
        ghost var m0 := Match(incoming, Queue(s.lv, s.side));
        ContinuesStep(trades, free, m0, t, g, Match(incoming.(quantity := incoming.quantity - fill),
                      Queue(s.lv[price := Filled(s.lv[price], fill)], s.side)));
        incoming := FillHead(s, price, incoming, held);
        LevelHead(s, price, held);
      }
      stopped, rejected := false, 0;
    }

    method GetBestBid() returns (price: uint32)
      requires bids.Indexed() && bids.side
      ensures BestOf(bids.lv, true, price)
    {
      price := bids.bits.Highest();
    }

    method GetBestAsk() returns (price: uint32)
      requires asks.Indexed() && !asks.side
      ensures BestOf(asks.lv, false, price)
    {
      price := asks.bits.Lowest();
    }

    lemma MatchEnds(s: BookSide, best: uint32, incoming: Order, held: set<nat>)
      requires Sound(held) && (s == bids || s == asks) && BestOf(s.lv, s.side, best)
      requires incoming.quantity == 0 || best == NULL_IDX || !Crosses(incoming, best)
      ensures Match(incoming, Queue(s.lv, s.side)) == Matching([], incoming, 0, Queue(s.lv, s.side), [])
    {
      hide Good; hide Queue;
      if best == NULL_IDX {
        EmptyQueue(s.lv, s.side);
      } else if incoming.quantity > 0 {
        LevelHead(s, best, held);
        NothingCrosses(s.lv, s.side, best, incoming);
      }
    }

    // The bit of a level that a sweep emptied is cleared.
    method RefreshBit(s: BookSide, price: uint32, ghost held: set<nat>)
      requires Sound(held) && (s == bids || s == asks) && price < MAX_PRICE && s.bits.Valid()
        && price in s.bits.occupied
      requires |s.lv| == MAX_PRICE
      requires forall p: nat :: p < MAX_PRICE && p != price ==> (p in s.bits.occupied <==> s.lv[p] != [])
      modifies s.bits, s.bits.l1, s.bits.l2
      ensures s.Indexed()
    {
      hide Good;
      LevelHead(s, price, held);
      if s.lists[price].orderCount == 0 {
        s.bits.ClearBit(price);
      }
    }

    // One round of the outer loop of match_buy and match_sell.
    method ServeLevel(s: BookSide, price: uint32, incoming0: Order, ghost held: set<nat>)
      returns (incoming: Order, stopped: bool, rejected: uint32)
      requires Sound(held) && (s == bids || s == asks) && s.Indexed() && IsBest(s.lv, s.side, price)
      requires s.lv[price] != [] && incoming0.quantity > 0 && Crosses(incoming0, price)
      modifies this`free, this`trades, pool, s`qs, s`lv, s.lists, s.bits, s.bits.l1, s.bits.l2
      ensures Sound(held) && s.Indexed()
      ensures !stopped ==>
                incoming == incoming0.(quantity := incoming.quantity) && incoming.quantity < incoming0.quantity
      ensures Continues(old(trades), old(free), Match(incoming0, old(Queue(s.lv, s.side))), trades, free,
                        if stopped then Matching([], incoming, rejected, Queue(s.lv, s.side), [])
                        else Match(incoming, Queue(s.lv, s.side)))
      ensures Worn(old(pool[0]), pool[0])
    {
      hide Good; hide Match; hide Queue; hide SlotsOf; hide Continues;
      incoming, stopped, rejected := SweepLevel(s, price, incoming0, held);
      if !stopped {
        RefreshBit(s, price, held);
      }
    }

    method MatchBuy(incoming0: Order, ghost held: set<nat>) returns (incoming: Order, rejected: uint32)
      requires Sound(held) && asks.Indexed() && incoming0.side
      modifies this`free, this`trades, pool, asks`qs, asks`lv, asks.lists, asks.bits, asks.bits.l1, asks.bits.l2
      ensures Sound(held) && asks.Indexed()
      ensures var m := Match(incoming0, old(Queue(asks.lv, false)));
              && incoming == m.incoming && rejected == m.rejected && Queue(asks.lv, false) == m.resting
              && trades == old(trades) + m.trades && free == old(free) + SlotsOf(m.filled)
      ensures Worn(old(pool[0]), pool[0])
    {
      hide Good; hide Match; hide Queue; hide AllPositive; hide SlotsOf;
      incoming := incoming0;
      ghost var m := Match(incoming0, Queue(asks.lv, false));
      var bestAsk: uint32 := GetBestAsk();
      while incoming.quantity > 0 && bestAsk != NULL_IDX && bestAsk <= incoming.price
        invariant Sound(held) && asks.Indexed()
        invariant incoming == incoming0.(quantity := incoming.quantity)
        invariant BestOf(asks.lv, false, bestAsk)
        invariant Worn(old(pool[0]), pool[0])
        invariant Continues(old(trades), old(free), m, trades, free, Match(incoming, Queue(asks.lv, false)))
        decreases incoming.quantity
      {
        var stopped: bool;
        incoming, stopped, rejected := ServeLevel(asks, bestAsk, incoming, held);
        if stopped {
          ContinuesEnd(old(trades), old(free), m, trades, free, incoming, rejected, Queue(asks.lv, false));
          return;
        }
        bestAsk := GetBestAsk();
      }
      MatchEnds(asks, bestAsk, incoming, held);
      ContinuesEnd(old(trades), old(free), m, trades, free, incoming, 0, Queue(asks.lv, false));
      rejected := 0;
    }

    method MatchSell(incoming0: Order, ghost held: set<nat>) returns (incoming: Order, rejected: uint32)
      requires Sound(held) && bids.Indexed() && !incoming0.side
      modifies this`free, this`trades, pool, bids`qs, bids`lv, bids.lists, bids.bits, bids.bits.l1, bids.bits.l2
      ensures Sound(held) && bids.Indexed()
      ensures var m := Match(incoming0, old(Queue(bids.lv, true)));
              && incoming == m.incoming && rejected == m.rejected && Queue(bids.lv, true) == m.resting
              && trades == old(trades) + m.trades && free == old(free) + SlotsOf(m.filled)
      ensures Worn(old(pool[0]), pool[0])
    {
      hide Good; hide Match; hide Queue; hide AllPositive; hide SlotsOf;
      incoming := incoming0;
      ghost var m := Match(incoming0, Queue(bids.lv, true));
      var bestBid: uint32 := GetBestBid();
      while incoming.quantity > 0 && bestBid != NULL_IDX && bestBid >= incoming.price
        invariant Sound(held) && bids.Indexed()
        invariant incoming == incoming0.(quantity := incoming.quantity)
        invariant BestOf(bids.lv, true, bestBid)
        invariant Worn(old(pool[0]), pool[0])
        invariant Continues(old(trades), old(free), m, trades, free, Match(incoming, Queue(bids.lv, true)))
        decreases incoming.quantity
      {
        var stopped: bool;
        incoming, stopped, rejected := ServeLevel(bids, bestBid, incoming, held);
        if stopped {
          ContinuesEnd(old(trades), old(free), m, trades, free, incoming, rejected, Queue(bids.lv, true));
          return;
        }
        bestBid := GetBestBid();
      }
      MatchEnds(bids, bestBid, incoming, held);
      ContinuesEnd(old(trades), old(free), m, trades, free, incoming, 0, Queue(bids.lv, true));
      rejected := 0;
    }

    // The order takes the slot that its id names and is linked behind the tail of its level.
    method LinkLast(s: BookSide, order: Order, ghost held: set<nat>) returns (first: bool)
      requires Separate() && Good(View(), held) && (s == bids || s == asks) && order.side == s.side
      requires order.price < MAX_PRICE == |s.lv| && SlotOf(order.id) in held
      modifies pool, s`qs, s`lv, s.lists
      ensures Good(View(), held - {SlotOf(order.id)})
      ensures s.lv == old(s.lv)[order.price := old(s.lv)[order.price] + [order]]
      ensures first <==> old(s.lv)[order.price] == []
      ensures SlotOf(order.id) == 0 ==> pool[0].listed
      ensures SlotOf(order.id) != 0 ==> pool[0].order == old(pool[0].order) && pool[0].listed == old(pool[0].listed)
    {
      hide Good; hide Linked; hide Owned; hide Distinct;
      ghost var v := View();
      GoodLevel(v, held, s.side, order.price);
      var poolIdx := SlotOf(order.id);
      AppendDefined(v, held, poolIdx, order);
      var price := order.price;
      var list := s.lists[price];
      pool[poolIdx] := OrderNode(order, NULL_IDX, NULL_IDX, true);
      first := list.tailIdx == NULL_IDX;
      if first {
        list := list.(headIdx := poolIdx, tailIdx := poolIdx);
      } else {
        pool[list.tailIdx] := pool[list.tailIdx].(nextIdx := poolIdx);
        pool[poolIdx] := pool[poolIdx].(prevIdx := list.tailIdx);
        list := list.(tailIdx := poolIdx);
      }
      s.lists[price] := list.(totalQuantity := Add32(list.totalQuantity, order.quantity),
                              orderCount := Add32(list.orderCount, 1));
      s.qs := s.qs[price := s.qs[price] + [poolIdx]];
      s.lv := s.lv[price := s.lv[price] + [order]];
      assert pool[..] == Appended(v.pool, poolIdx, order, v.Side(s.side).lists[price].tailIdx);
      assert View() == AppendTo(v, poolIdx, order);
      AppendKeepsGood(v, held, poolIdx, order);
    }

    // add_buy_order and add_sell_order.
    method AddOrder(s: BookSide, order: Order, ghost held: set<nat>)
      requires Sound(held) && (s == bids || s == asks) && s.Indexed() && order.side == s.side
      requires order.price < MAX_PRICE && order.quantity > 0 && SlotOf(order.id) in held
      modifies pool, s`qs, s`lv, s.lists, s.bits, s.bits.l1, s.bits.l2
      ensures s.Indexed() && Sound(held - {SlotOf(order.id)})
      ensures Queue(s.lv, s.side) == Insert(order, old(Queue(s.lv, s.side)))
      ensures SlotOf(order.id) == 0 ==> pool[0].listed
      ensures SlotOf(order.id) != 0 ==> pool[0].order == old(pool[0].order) && pool[0].listed == old(pool[0].listed)
    {
      hide Good; hide Queue; hide Insert;
      GoodSited(View(), held, s.side);
      AppendIsInsert(s.lv, order);
      var first := LinkLast(s, order, held);
      if first {
        s.bits.SetBit(order.price);
      }
    }

    // The slot on top of the free stack is handed to the next order.
    lemma SlotTaken(v: View, v': View)
      requires Good(v, {}) && v.free != []
      requires v' == v.(free := v.free[..|v.free| - 1])
      ensures Good(v', {v.free[|v.free| - 1]})
    {
      hide GoodLadder;
      forall i: nat | i < MAX_ORDERS && i in v.free ensures i in v'.free || i == v.free[|v.free| - 1] {
        var k :| 0 <= k < |v.free| && v.free[k] == i;
        if k < |v.free| - 1 { assert v'.free[k] == i; }
      }
    }

    lemma SlotReturned(v: View, v': View, x: uint32)
      requires Good(v, {x}) && v' == v.(free := v.free + [x])
      ensures Good(v', {})
    {
      hide GoodLadder;
      assert v'.free[|v.free|] == x;
      forall i | i in v.free ensures i in v'.free {}
    }

    ghost predicate Valid()
      reads this, pool, bids, bids.lists, bids.bits, bids.bits.l1, bids.bits.l2,
            asks, asks.lists, asks.bits, asks.bits.l1, asks.bits.l2
    {
      Sound({}) && bids.Indexed() && asks.Indexed()
    }

    predicate CanProcessOrder(order: Order)
      reads this
    {
      order.price < MAX_PRICE && free != []
    }

    // The end of process_buy_order and process_sell_order: what is left of the order rests, or its slot is
    // given back.
    method Conclude(s: BookSide, order: Order, poolIdx: uint32)
      requires Sound({poolIdx}) && bids.Indexed() && asks.Indexed() && (s == bids || s == asks) && order.side == s.side
      requires order.price < MAX_PRICE && SlotOf(order.id) == poolIdx
      modifies this`free, pool, s`qs, s`lv, s.lists, s.bits, s.bits.l1, s.bits.l2
      ensures Valid()
      ensures Queue(s.lv, s.side)
           == if order.quantity > 0 then Insert(order, old(Queue(s.lv, s.side))) else old(Queue(s.lv, s.side))
      ensures free == if order.quantity > 0 then old(free) else old(free) + [poolIdx]
      ensures !pool[0].listed ==> !old(pool[0].listed) && pool[0].order == old(pool[0].order)
    {
      hide Indexes; hide Good; hide Queue; hide Insert; hide AllPositive; hide SlotOf;
      if order.quantity > 0 {
        AddOrder(s, order, {poolIdx});
        assert {poolIdx} - {poolIdx} == {};
      } else {
        ghost var v := View();
        free := free + [poolIdx];
        SlotReturned(v, View(), poolIdx);
      }
    }

    method ProcessBuyOrder(order0: Order) returns (order: Order, rejected: uint32)
      requires Valid() && CanProcessOrder(order0) && order0.side
      modifies this`free, this`trades, this`counter, pool
      modifies bids`qs, bids`lv, bids.lists, bids.bits, bids.bits.l1, bids.bits.l2
      modifies asks`qs, asks`lv, asks.lists, asks.bits, asks.bits.l1, asks.bits.l2
      ensures Valid()
      ensures var a := Accept(old(State()), order0);
              State() == a.engine && trades == old(trades) + a.trades && rejected == a.rejected && order == a.rest
    {
      hide Indexes; hide Good; hide Queue; hide Insert; hide Match; hide SlotsOf; hide AllPositive; hide SlotZero;
      hide PackId; hide SlotOf;
      ghost var v := View();
      var poolIdx: uint32 := free[|free| - 1];
      free := free[..|free| - 1];
      SlotTaken(v, View());
      counter := counter + 1;
      PackRoundTrip(counter, poolIdx);
      order := order0.(id := PackId(counter, poolIdx));
      MatchIncoming(order, Queue(asks.lv, false));
      order, rejected := MatchBuy(order, {poolIdx});
      assert Queue(bids.lv, true) == old(Queue(bids.lv, true));
      SaneSlot(v, {}, 0);
      ghost var left := if 0 in v.free then v.pool[0].order else v.pool[0].order.(id := 0, quantity := 0);
      ghost var a := Accept(old(State()), order0);
      assert order == a.rest && rejected == a.rejected && trades == old(trades) + a.trades;
      Conclude(bids, order, poolIdx);
      assert BookOf(View()) == a.engine.book && free == a.engine.free;
      SlotZeroStored(View(), left);
    }

    method ProcessSellOrder(order0: Order) returns (order: Order, rejected: uint32)
      requires Valid() && CanProcessOrder(order0) && !order0.side
      modifies this`free, this`trades, this`counter, pool
      modifies bids`qs, bids`lv, bids.lists, bids.bits, bids.bits.l1, bids.bits.l2
      modifies asks`qs, asks`lv, asks.lists, asks.bits, asks.bits.l1, asks.bits.l2
      ensures Valid()
      ensures var a := Accept(old(State()), order0);
              State() == a.engine && trades == old(trades) + a.trades && rejected == a.rejected && order == a.rest
    {
      hide Indexes; hide Good; hide Queue; hide Insert; hide Match; hide SlotsOf; hide AllPositive; hide SlotZero;
      hide PackId; hide SlotOf;
      ghost var v := View();
      var poolIdx: uint32 := free[|free| - 1];
      free := free[..|free| - 1];
      SlotTaken(v, View());
      counter := counter + 1;
      PackRoundTrip(counter, poolIdx);
      order := order0.(id := PackId(counter, poolIdx));
      MatchIncoming(order, Queue(bids.lv, true));
      order, rejected := MatchSell(order, {poolIdx});
      assert Queue(asks.lv, false) == old(Queue(asks.lv, false));
      SaneSlot(v, {}, 0);
      ghost var left := if 0 in v.free then v.pool[0].order else v.pool[0].order.(id := 0, quantity := 0);
      ghost var a := Accept(old(State()), order0);
      assert order == a.rest && rejected == a.rejected && trades == old(trades) + a.trades;
      Conclude(asks, order, poolIdx);
      assert BookOf(View()) == a.engine.book && free == a.engine.free;
      SlotZeroStored(View(), left);
    }

    // The list surgery of cancel_order. It is carried out on whatever the slot holds: the links
    // need to be in range, not live.
    method UnlinkNode(s: BookSide, target: uint32)
      requires target < MAX_ORDERS == pool.Length && s.lists.Length == MAX_PRICE && s.lists as object != pool
      requires SaneNode(pool[target])
      modifies this`free, pool, s.lists
      ensures pool[..] == Unlinked(old(pool[..]), target) && free == old(free) + [target]
      ensures var node := old(pool[target]);
              s.lists[..] == old(s.lists[..])[node.order.price := HeaderWithout(old(s.lists[node.order.price]), node)]
    {
      var node := pool[target];
      var price := node.order.price;
      var list := s.lists[price];
      if node.prevIdx == NULL_IDX {
        list := list.(headIdx := node.nextIdx);
      } else {
        pool[node.prevIdx] := pool[node.prevIdx].(nextIdx := node.nextIdx);
      }
      if node.nextIdx == NULL_IDX {
        list := list.(tailIdx := node.prevIdx);
      } else {
        pool[node.nextIdx] := pool[node.nextIdx].(prevIdx := node.prevIdx);
      }
      list := list.(totalQuantity := Sub32(list.totalQuantity, node.order.quantity),
          orderCount := Sub32(list.orderCount, 1));
      s.lists[price] := list;
      pool[target] := pool[target].(order := pool[target].order.(id := 0), listed := false);
      free := free + [target];
    }

    // The surgery, and the clearing of the level's bit when its count drops to zero.
    method Detach(s: BookSide, target: uint32)
      requires Valid() && target < MAX_ORDERS && s == (if pool[target].order.side then bids else asks)
      modifies this`free, pool, s.lists, s.bits, s.bits.l1, s.bits.l2
      ensures pool[..] == Unlinked(old(pool[..]), target) && free == old(free) + [target]
      ensures var node := old(pool[target]);
              && node.order.price < MAX_PRICE
              && s.lists[..] == old(s.lists[..])[node.order.price :=
                  HeaderWithout(old(s.lists[node.order.price]), node)]
              && s.bits.Valid()
              && BitSpent(s.lv, node.order.price, old(s.bits.occupied), s.bits.occupied)
      ensures Surgery(old(pool[..]), target, old(bids.lists[..]), old(asks.lists[..]),
                      pool[..], bids.lists[..], asks.lists[..])
    {
      hide Good; hide Unlinked;
      SaneSlot(View(), {}, target);
      var price := pool[target].order.price;
      LevelHead(s, price, {});
      UnlinkNode(s, target);
      if s.lists[price].orderCount == 0 {
        s.bits.ClearBit(price);
      }
    }

    // The abstract side of cancelling a live order: its element leaves its level.
    ghost method Forget(s: BookSide, v: View, target: nat)
      requires Separate() && Good(v, {}) && target < |v.pool| == MAX_ORDERS && v.pool[target].listed
      requires SlotOf(v.pool[target].order.id) == target && SaneNode(v.pool[target])
      requires var o := v.pool[target].order;
               && s == (if o.side then bids else asks) && |v.Side(o.side).lists| == MAX_PRICE
               && View() == v.With(Unlinked(v.pool, target), v.free + [target], o.side,
                    v.Side(o.side).(lists := v.Side(o.side).lists[o.price :=
                        HeaderWithout(v.Side(o.side).lists[o.price], v.pool[target])]))
      requires |v.bids.lv| == |v.asks.lv| == MAX_PRICE
      modifies s`qs, s`lv
      ensures Good(View(), {}) && |s.lv| == MAX_PRICE
      ensures var o := v.pool[target].order;
              && Cancel(BookOf(v), o.id, o.userId)
                 == Cancelled(BookOf(v).WithSide(o.side, Queue(s.lv, s.side)), Some(o))
              && exists k: nat :: k < |old(s.lv[o.price])|
                  && s.lv == old(s.lv)[o.price := Without(old(s.lv[o.price]), k)]
      ensures AllPositive(old(s.lv)) ==> AllPositive(s.lv)
    {
      hide Good; hide Queue; hide Cancel; hide Unlinked; hide HeaderWithout; hide SaneNode;
      var o := v.pool[target].order;
      var k := LiveSlot(v, {}, target);
      CancelHits(v, o.id, k);
      LevelNode(v, {}, o.side, o.price, k);
      UnlinkKeepsGood(v, {}, o.side, o.price, k);
      s.qs := s.qs[o.price := Without(s.qs[o.price], k)];
      s.lv := s.lv[o.price := Without(s.lv[o.price], k)];
      assert View() == UnlinkAt(v, o.side, o.price, k);
    }

    // The body of cancel_order after its guard, on a slot that is listed or idle.
    method TakeOut(target: uint32) returns (order: Order)
      requires Valid() && target < MAX_ORDERS
      modifies this`free, pool
      modifies bids`qs, bids`lv, bids.lists, bids.bits, bids.bits.l1, bids.bits.l2
      modifies asks`qs, asks`lv, asks.lists, asks.bits, asks.bits.l1, asks.bits.l2
      ensures order == old(pool[target].order)
      ensures Surgery(old(pool[..]), target, old(bids.lists[..]), old(asks.lists[..]),
                      pool[..], bids.lists[..], asks.lists[..]) && free == old(free) + [target]
      ensures var s := if order.side then bids else asks;
              BitSpent(old(s.lv), order.price, old(s.bits.occupied), s.bits.occupied)
      ensures Valid() <==> old(pool[target].listed)
      ensures old(pool[target].listed) ==>
                && SlotOf(order.id) == target && !HitsIdle(old(State()), order.id, order.userId)
                && (State(), Some(order)) == CancelStep(old(State()), order.id, order.userId)
    {
      hide Indexes; hide Good; hide Queue; hide Cancel; hide Unlinked; hide HeaderWithout; hide SaneNode; hide SlotZero;
      hide AllPositive; hide Surgery;
      ghost var v := View();
      order := pool[target].order;
      var s := if order.side then bids else asks;
      SaneSlot(v, {}, target);
      SaneSlot(v, {}, 0);
      Detach(s, target);
      if !v.pool[target].listed {
        ghost var k :| 0 <= k < |v.free| && v.free[k] == target;
        DoubleFree(View(), {}, target, k);
      } else {
        ListedSlot(v, target);
        Forget(s, v, target);
        UnlinkedNode(v.pool, target, 0);
        UnlinkedOrder(v.pool, target, 0);
        SlotZeroStored(View(), v.pool[0].order.(id := 0));
      }
    }

    // The answer is always that of CancelStep. Exactly when the request does not hit an idle slot, the
    // book stays well formed and is the one left by CancelStep. In any case a node whose id and owner
    // match is taken out of the list that its links name, and its slot is pushed on the free stack.
    method CancelOrder(orderId: nat, userId: int) returns (cancelled: Option<Order>)
      requires Valid()
      modifies this`free, pool
      modifies bids`qs, bids`lv, bids.lists, bids.bits, bids.bits.l1, bids.bits.l2
      modifies asks`qs, asks`lv, asks.lists, asks.bits, asks.bits.l1, asks.bits.l2
      ensures Valid() <==> !HitsIdle(old(State()), orderId, userId)
      ensures var (e, answer) := CancelStep(old(State()), orderId, userId); free == e.free && cancelled == answer
      ensures free == old(free) + (if cancelled.Some? then [SlotOf(orderId)] else [])
      ensures !HitsIdle(old(State()), orderId, userId) ==> State() == CancelStep(old(State()), orderId, userId).0
      ensures cancelled.Some? <==>
                && SlotOf(orderId) < MAX_ORDERS && old(pool[SlotOf(orderId)].order.id) == orderId
                && old(pool[SlotOf(orderId)].order.userId) == userId
      ensures cancelled.Some? ==>
                && SlotOf(orderId) < MAX_ORDERS && cancelled.value == old(pool[SlotOf(orderId)].order)
                && Surgery(old(pool[..]), SlotOf(orderId), old(bids.lists[..]), old(asks.lists[..]),
                           pool[..], bids.lists[..], asks.lists[..])
                && var s := if cancelled.value.side then bids else asks;
                   BitSpent(old(s.lv), cancelled.value.price, old(s.bits.occupied), s.bits.occupied)
    {
      hide Good; hide Indexes; hide Queue; hide Cancel; hide SlotZero; hide SaneNode; hide Surgery; hide AllPositive;
      hide BitSpent;
      ghost var v := View();
      var target := SlotOf(orderId);
      SaneSlot(v, {}, 0);
      if target >= MAX_ORDERS || pool[target].order.id != orderId || pool[target].order.userId != userId {
        CancelMisses(v, orderId, userId);
        return None;
      }
      SaneSlot(v, {}, target);
      var order := TakeOut(target);
      cancelled := Some(order);
    }

    // ----- queries

    method BestBid() returns (price: uint32)
      requires Valid()
      ensures price == BestPrice(State().book.bids)
    {
      hide Good;
      price := GetBestBid();
      BestIsFirst(bids, price, {});
    }

    method BestAsk() returns (price: uint32)
      requires Valid()
      ensures price == BestPrice(State().book.asks)
    {
      hide Good;
      price := GetBestAsk();
      BestIsFirst(asks, price, {});
    }

    lemma BestIsFirst(s: BookSide, price: uint32, held: set<nat>)
      requires Sound(held) && (s == bids || s == asks) && BestOf(s.lv, s.side, price)
      ensures price == BestPrice(Queue(s.lv, s.side))
    {
      hide Good; hide Queue;
      if price == NULL_IDX {
        EmptyQueue(s.lv, s.side);
      } else {
        LevelHead(s, price, held);
        BestIsFront(s.lv, s.side, price);
      }
    }

    lemma OccupiedLevel(s: BookSide, w: nat, b: nat)
      requires s.Indexed() && w < s.bits.l1.Length && b < 64 && Bits(s.bits.l1[w])[b]
      ensures 64 * w + b < MAX_PRICE == |s.lv| && s.lv[64 * w + b] != []
    {
      hide Bits;
      MarkBit(s.bits.l1[..], s.bits.occupied, 64 * w + b);
    }

    // A stretch of prices without bits is a stretch of empty levels.
    lemma SkipVacant(s: BookSide, scale: nat, w: nat, a: nat, b: nat)
      requires s.Indexed() && a <= 64 && b <= 64
      requires || (scale == 1 && w < s.bits.l1.Length && Vacant(s.bits.l1[w], a, b))
               || (scale == 64 && w < s.bits.l2.Length && Vacant(s.bits.l2[w], a, b))
               || (scale == 4096 && w == 0 && Vacant(s.bits.l3, a, b))
      ensures Beyond(s.lv, s.side, scale * (64 * w + a)) == Beyond(s.lv, s.side, scale * (64 * w + b))
    {
      hide Bits; hide Indexes; hide Vacant; hide Beyond;
      VacantPrices(s.bits.l1[..], s.bits.l2[..], s.bits.l3, s.bits.occupied, w, a, b);
      var lo, hi := scale * (64 * w + (if a < b then a else b)), scale * (64 * w + (if a < b then b else a));
      forall p: nat | lo <= p < hi && p < MAX_PRICE ensures s.lv[p] == [] {}
      Skip(s.lv, s.side, lo, hi);
    }

    // The innermost loop of bid_depth and ask_depth: the levels of one L1 word.
    method ScanL1(s: BookSide, l1Idx: nat, limit: nat, depth0: seq<DepthLevel>) returns (depth: seq<DepthLevel>)
      requires Sound({}) && (s == bids || s == asks) && s.Indexed() && l1Idx < s.bits.l1.Length && |depth0| <= limit
      ensures |s.lv| == MAX_PRICE
      ensures Scanned(s.lv, s.side, 64 * Entry(s.side, l1Idx), 64 * Exit(s.side, l1Idx), limit, depth0, depth)
    {
      hide Good; hide Bits; hide Indexes; hide WithoutBit; hide NextBit; hide Vacant; hide Unvisited; hide Beyond;
      hide DepthOf;
      depth := depth0;
      GoodSited(View(), {}, s.side);
      var word := s.bits.l1[l1Idx];
      var copy := word;
      ghost var h: nat := if s.side then 64 else 0;
      UnvisitedAll(s.side, word);
      while copy != 0 && |depth| < limit
        invariant h <= 64 && Unvisited(s.side, word, copy, h)
        invariant Scanned(s.lv, s.side, 64 * Entry(s.side, l1Idx), 64 * l1Idx + h, limit, depth0, depth)
        decreases if s.side then h else 64 - h
      {
        VisitNext(s.side, word, copy, h);
        var l1Bit := NextBit(s.side, copy);
        OccupiedLevel(s, l1Idx, l1Bit);
        var price: uint32 := l1Idx * 64 + l1Bit;
        LevelHead(s, price, {});
        SkipVacant(s, 1, l1Idx, h, Entry(s.side, l1Bit));
        depth := depth + [DepthLevel(price, s.lists[price].totalQuantity, s.lists[price].orderCount)];
        ScannedLevel(s.lv, s.side, price, limit, depth[..|depth| - 1]);
        copy := WithoutBit(copy, l1Bit);
        h := Exit(s.side, l1Bit);
      }
      if copy == 0 {
        VisitDone(s.side, word, copy, h);
        SkipVacant(s, 1, l1Idx, h, if s.side then 0 else 64);
      } else {
        ScannedFull(s.lv, s.side, 64 * Entry(s.side, l1Idx), 64 * l1Idx + h, 64 * Exit(s.side, l1Idx), limit, depth0,
            depth);
      }
    }

    // The middle loop: the L1 words under one L2 word.
    method ScanL2(s: BookSide, l2Idx: nat, limit: nat, depth0: seq<DepthLevel>) returns (depth: seq<DepthLevel>)
      requires Sound({}) && (s == bids || s == asks) && s.Indexed() && l2Idx < s.bits.l2.Length && |depth0| <= limit
      ensures |s.lv| == MAX_PRICE
      ensures Scanned(s.lv, s.side, 4096 * Entry(s.side, l2Idx), 4096 * Exit(s.side, l2Idx), limit, depth0, depth)
    {
      hide Good; hide Bits; hide Indexes; hide WithoutBit; hide NextBit; hide Vacant; hide Unvisited; hide Beyond;
      hide DepthOf;
      depth := depth0;
      var word := s.bits.l2[l2Idx];
      var copy := word;
      ghost var h: nat := if s.side then 64 else 0;
      UnvisitedAll(s.side, word);
      while copy != 0 && |depth| < limit
        invariant h <= 64 && Unvisited(s.side, word, copy, h)
        invariant Scanned(s.lv, s.side, 4096 * Entry(s.side, l2Idx), 64 * (64 * l2Idx + h), limit, depth0, depth)
        decreases if s.side then h else 64 - h
      {
        VisitNext(s.side, word, copy, h);
        var l2Bit := NextBit(s.side, copy);
        var l1Idx := l2Idx * 64 + l2Bit;
        OccupiedWord(s, l2Idx, l2Bit);
        SkipVacant(s, 64, l2Idx, h, Entry(s.side, l2Bit));
        depth := ScanL1(s, l1Idx, limit, depth);
        copy := WithoutBit(copy, l2Bit);
        h := Exit(s.side, l2Bit);
      }
      if copy == 0 {
        VisitDone(s.side, word, copy, h);
        SkipVacant(s, 64, l2Idx, h, if s.side then 0 else 64);
      } else {
        ScannedFull(s.lv, s.side, 4096 * Entry(s.side, l2Idx), 64 * (64 * l2Idx + h), 4096 * Exit(s.side, l2Idx),
            limit, depth0, depth);
      }
    }

    lemma OccupiedWord(s: BookSide, j: nat, b: nat)
      requires s.Indexed() && j < s.bits.l2.Length && b < 64 && Bits(s.bits.l2[j])[b]
      ensures 64 * j + b < s.bits.l1.Length
    {
      hide Bits;
      SummaryBit(s.bits.l2[..], s.bits.l1[..], 64 * j + b);
    }

    lemma OccupiedBlock(s: BookSide, b: nat)
      requires s.Indexed() && b < 64 && Bits(s.bits.l3)[b]
      ensures b < s.bits.l2.Length
    {
      hide Bits;
      SummaryBit([s.bits.l3], s.bits.l2[..], b);
    }

    // bid_depth and ask_depth: three nested bit scans.
    method Depth(s: BookSide, limit: nat) returns (depth: seq<DepthLevel>)
      requires Valid() && (s == bids || s == asks)
      ensures |s.lv| == MAX_PRICE
      ensures depth == DepthOf(Queue(s.lv, s.side), limit)
    {
      hide Good; hide Bits; hide Indexes; hide WithoutBit; hide NextBit; hide Vacant; hide Unvisited; hide DepthOf;
      depth := [];
      var word := s.bits.l3;
      var copy := word;
      ghost var h: nat := if s.side then 64 else 0;
      UnvisitedAll(s.side, word);
      while copy != 0 && |depth| < limit
        invariant h <= 64 && Unvisited(s.side, word, copy, h)
        invariant |s.lv| == MAX_PRICE && Scanned(s.lv, s.side, 4096 * (if s.side then 64 else 0), 4096 * h, limit, [],
          depth)
        decreases if s.side then h else 64 - h
      {
        VisitNext(s.side, word, copy, h);
        var l3Bit := NextBit(s.side, copy);
        OccupiedBlock(s, l3Bit);
        SkipVacant(s, 4096, 0, h, Entry(s.side, l3Bit));
        depth := ScanL2(s, l3Bit, limit, depth);
        copy := WithoutBit(copy, l3Bit);
        h := Exit(s.side, l3Bit);
      }
      var last: nat := if s.side then 0 else 64;
      if copy == 0 {
        VisitDone(s.side, word, copy, h);
        SkipVacant(s, 4096, 0, h, last);
      } else {
        ScannedFull(s.lv, s.side, 4096 * (64 - last), 4096 * h, 4096 * last, limit, [], depth);
      }
      ScannedWhole(s.lv, s.side, limit, depth);
    }

    method BidDepth(limit: nat) returns (depth: seq<DepthLevel>)
      requires Valid()
      ensures depth == DepthOf(State().book.bids, limit)
    {
      hide Good; hide DepthOf; hide Queue;
      depth := Depth(bids, limit);
    }

    method AskDepth(limit: nat) returns (depth: seq<DepthLevel>)
      requires Valid()
      ensures depth == DepthOf(State().book.asks, limit)
    {
      hide Good; hide DepthOf; hide Queue;
      depth := Depth(asks, limit);
    }

    lemma ListNode(s: BookSide, price: nat, k: nat)
      requires Sound({}) && (s == bids || s == asks) && price < MAX_PRICE == |s.lv|
      ensures |s.qs| == MAX_PRICE && |s.qs[price]| == |s.lv[price]| && s.lists.Length == MAX_PRICE
      ensures s.lists[price].headIdx == if s.lv[price] == [] then NULL_IDX else s.qs[price][0]
      ensures k < |s.lv[price]| ==>
                && s.qs[price][k] < pool.Length <= NULL_IDX
                && pool[s.qs[price][k]].order == s.lv[price][k]
                && pool[s.qs[price][k]].nextIdx == NextOf(s.qs[price], k)
    {
      hide Good; hide Linked; hide Distinct; hide Owned; hide AllPositive;
      GoodLevel(View(), {}, s.side, price);
      if k < |s.lv[price]| { LevelNode(View(), {}, s.side, price, k); }
    }

    // Walking one list from its head.
    method WalkLevel(s: BookSide, price: uint32, limit: nat, snaps0: seq<OrderSnapshot>, ghost rest: seq<Order>)
      returns (snaps: seq<OrderSnapshot>)
      requires Sound({}) && (s == bids || s == asks) && price < MAX_PRICE == |s.lv| && |snaps0| <= limit
      ensures |snaps0| < limit && s.lv[price] != [] ==> |snaps0| < |snaps|
      ensures |snaps0| <= |snaps| <= limit
      ensures snaps + OrdersOf(rest, limit - |snaps|) == snaps0 + OrdersOf(s.lv[price] + rest, limit - |snaps0|)
    {
      hide Sound; hide OrdersOf;
      snaps := snaps0;
      ListNode(s, price, 0);
      ghost var q, os, k: nat := s.qs[price], s.lv[price], 0;
      assert os[0..] == os;
      var currIdx := s.lists[price].headIdx;
      while currIdx != NULL_IDX && |snaps| < limit
        invariant k <= |os| == |q| && |snaps0| + k == |snaps| <= limit
        invariant currIdx == if k == |os| then NULL_IDX else q[k]
        invariant currIdx == NULL_IDX <==> k == |os|
        invariant snaps + OrdersOf(os[k..] + rest, limit - |snaps|) == snaps0 + OrdersOf(os + rest, limit - |snaps0|)
        decreases |os| - k
      {
        ListNode(s, price, k);
        ListNode(s, price, k + 1);
        OrdersStep(os, k, rest, limit - |snaps|);
        Assoc(snaps, [Snapshot(os[k])], OrdersOf(os[k + 1..] + rest, limit - |snaps| - 1));
        snaps := snaps + [Snapshot(pool[currIdx].order)];
        currIdx := pool[currIdx].nextIdx;
        k := k + 1;
      }
      if currIdx == NULL_IDX {
        assert os[k..] + rest == rest;
      } else {
        OrdersNone(rest);
        OrdersNone(os[k..] + rest);
      }
    }

    // bid_orders and ask_orders: the lists of the first limit levels, cut at limit orders.
    method Orders(s: BookSide, limit: nat) returns (snaps: seq<OrderSnapshot>)
      requires Valid() && (s == bids || s == asks)
      ensures |s.lv| == MAX_PRICE
      ensures snaps == OrdersOf(Queue(s.lv, s.side), limit)
    {
      hide Good; hide OrdersOf; hide DepthOf;
      snaps := [];
      var depth := Depth(s, limit);
      GoodSited(View(), {}, s.side);
      ghost var r: nat := 0;
      DepthBound(Queue(s.lv, s.side), limit);
      var i := 0;
      while i < |depth|
        invariant i <= |depth| <= limit && i <= |snaps| <= limit && r <= MAX_PRICE
        invariant depth[i..] == DepthOf(Flat(s.lv, s.side, r), limit - i)
        invariant snaps + OrdersOf(Flat(s.lv, s.side, r), limit - |snaps|) == OrdersOf(Queue(s.lv, s.side), limit)
      {
        var price := depth[i].price;
        ghost var p := DepthStep(s.lv, s.side, r, limit - i);
        snaps := WalkLevel(s, price, limit, snaps, Flat(s.lv, s.side, Rank(s.side, p) + 1));
        r := Rank(s.side, p) + 1;
        i := i + 1;
      }
      OrdersEnd(Flat(s.lv, s.side, r), limit - i, limit - |snaps|);
    }

    method BidOrders(limit: nat) returns (snaps: seq<OrderSnapshot>)
      requires Valid()
      ensures snaps == OrdersOf(State().book.bids, limit) && Shows(snaps, State().book.bids, limit)
    {
      hide Good; hide OrdersOf; hide Queue; hide Shows;
      snaps := Orders(bids, limit);
      OrdersShown(State().book.bids, limit);
    }

    method AskOrders(limit: nat) returns (snaps: seq<OrderSnapshot>)
      requires Valid()
      ensures snaps == OrdersOf(State().book.asks, limit) && Shows(snaps, State().book.asks, limit)
    {
      hide Good; hide OrdersOf; hide Queue; hide Shows;
      snaps := Orders(asks, limit);
      OrdersShown(State().book.asks, limit);
    }
  }

  // On any book: whoever cancels an order that rests in slot 0 and then cancels id 0 is told a second
  // time that the same order, with the same quantity, was cancelled. The slot is then free twice.
  method CancelTwice(book: OrderBook, o: Order) returns (first: Option<Order>, second: Option<Order>)
    requires book.Valid() && SlotOf(o.id) == 0
      && (o in book.State().book.bids || o in book.State().book.asks)
    modifies book.Footprint()
    ensures first == Some(o) && second == Some(o.(id := 0))
    ensures !book.Valid() && book.free == old(book.free) + [0, 0]
  {
    hide Good; hide Queue; hide SlotOf; hide Cancel; hide SlotZero; hide SaneNode; hide Unlinked; hide HeaderWithout;
    ghost var v := book.View();
    SaneSlot(v, {}, 0);
    if o in book.State().book.bids { QueuedInPool(v, {}, true, o); } else { QueuedInPool(v, {}, false, o); }
    SaneSlot(v, {}, 0);
    UnlinkedOrder(v.pool, 0, 0);
    first := book.CancelOrder(o.id, o.userId);
    second := book.CancelOrder(0, o.userId);
  }
}
