/** What a limit-order exchange means, independently of either engine: each side of the book is
    one queue in price-time order, an incoming order consumes the opposite queue from the front,
    and what is left of it joins its own queue. Both engines are proved to do exactly this. */
module PriceTime {
  import opened Orders

  datatype Book = Book(bids: seq<Order>, asks: seq<Order>) {
    function Side(side: bool): seq<Order> {
      if side then bids else asks
    }

    function WithSide(side: bool, queue: seq<Order>): Book {
      if side then this.(bids := queue) else this.(asks := queue)
    }
  }

  const EMPTY_BOOK := Book([], [])

  /** Better prices have lower rank: the highest bid, the lowest ask. */
  function Rank(side: bool, price: int): int {
    if side then MAX_PRICE - 1 - price else price
  }

  predicate Crosses(incoming: Order, price: uint32) {
    if incoming.side then price <= incoming.price else price >= incoming.price
  }

  /** A trade executes at the resting price; the buyer's limit is that of the buy order. */
  function MakeTrade(incoming: Order, resting: Order, fill: uint32): Trade {
    if incoming.side then
      Trade(incoming.id, resting.id, incoming.userId, resting.userId, resting.price, fill, incoming.price,
          incoming.companyId)
    else
      Trade(resting.id, incoming.id, resting.userId, incoming.userId, resting.price, fill, resting.price,
          incoming.companyId)
  }

  /** Who traded with whom: each order's own id and owner on its own side, and the buyer's limit. */
  predicate Between(t: Trade, buy: Order, sell: Order) {
    && t.buyOrderId == buy.id && t.buyerId == buy.userId && t.buyerLimitPrice == buy.price
    && t.sellOrderId == sell.id && t.sellerId == sell.userId
  }

  /** The trade is between the incoming and the resting order, at the resting price and in the
      incoming order's company. */
  predicate Records(t: Trade, incoming: Order, resting: Order) {
    && (if incoming.side then Between(t, incoming, resting) else Between(t, resting, incoming))
    && t.price == resting.price && t.companyId == incoming.companyId
  }

  lemma TradeRecords(incoming: Order, resting: Order, fill: uint32)
    ensures Records(MakeTrade(incoming, resting, fill), incoming, resting)
    ensures MakeTrade(incoming, resting, fill).quantity == fill
  {
  }

  /** filled lists the resting orders that were used up, in the order of their trades. */
  datatype Matching = Matching(
    trades: seq<Trade>, incoming: Order, rejected: uint32, resting: seq<Order>, filled: seq<nat>)
  {
    /** This matching, made after earlier trades that used up the given orders. */
    function After(earlier: seq<Trade>, gone: seq<nat>): Matching {
      this.(trades := earlier + trades, filled := gone + filled)
    }
  }

  function Match(incoming: Order, resting: seq<Order>): Matching
    decreases |resting|
  {
    if incoming.quantity == 0 || resting == [] || !Crosses(incoming, resting[0].price) then
      Matching([], incoming, 0, resting, [])
    else if incoming.userId == resting[0].userId then
      Matching([], incoming.(quantity := 0), incoming.quantity, resting, [])
    else
      var head := resting[0];
      var fill := Min(incoming.quantity, head.quantity);
      var incoming' := incoming.(quantity := incoming.quantity - fill);
      var trade := MakeTrade(incoming, head, fill);
      if head.quantity == fill then
        Match(incoming', resting[1..]).After([trade], [head.id])
      else
        Matching([trade], incoming', 0, [head.(quantity := head.quantity - fill)] + resting[1..], [])
  }

  /** Matching changes nothing of the incoming order but its quantity. */
  lemma {:induction false} MatchIncoming(incoming: Order, resting: seq<Order>)
    ensures var m := Match(incoming, resting); m.incoming == incoming.(quantity := m.incoming.quantity)
    decreases |resting|
  {
    if incoming.quantity > 0 && resting != [] && Crosses(incoming, resting[0].price)
        && incoming.userId != resting[0].userId
       && resting[0].quantity <= incoming.quantity {
      MatchIncoming(incoming.(quantity := incoming.quantity - resting[0].quantity), resting[1..]);
    }
  }

  // ----- one step of a matching

  lemma Assoc<T>(a: seq<T>, b: seq<T>, c: seq<T>)
    ensures a + b + c == a + (b + c)
  {
  }

  /** The queue after its head is filled by this much. */
  function Filled(os: seq<Order>, fill: uint32): seq<Order>
    requires os != [] && fill <= os[0].quantity
  {
    if os[0].quantity == fill then os[1..] else [os[0].(quantity := os[0].quantity - fill)] + os[1..]
  }

  /** One fill is one step of Match. */
  lemma MatchStep(incoming: Order, queue: seq<Order>)
    requires queue != [] && incoming.quantity > 0
    requires Crosses(incoming, queue[0].price) && incoming.userId != queue[0].userId
    ensures var fill := Min(incoming.quantity, queue[0].quantity);
            Match(incoming, queue)
            == Match(incoming.(quantity := incoming.quantity - fill), Filled(queue, fill))
               .After([MakeTrade(incoming, queue[0], fill)], if queue[0].quantity == fill then [queue[0].id] else [])
  {
    var fill := Min(incoming.quantity, queue[0].quantity);
    var incoming', queue' := incoming.(quantity := incoming.quantity - fill), Filled(queue, fill);
    if queue[0].quantity != fill {
      assert Match(incoming', queue') == Matching([], incoming', 0, queue', []);
    } else {
      assert queue' == queue[1..];
    }
  }

  lemma FilledFront(os: seq<Order>, rest: seq<Order>, fill: uint32)
    requires os != [] && fill <= os[0].quantity
    ensures (os + rest)[0] == os[0]
    ensures Filled(os + rest, fill) == Filled(os, fill) + rest
  {
    assert (os + rest)[1..] == os[1..] + rest;
    if os[0].quantity != fill {
      Assoc([os[0].(quantity := os[0].quantity - fill)], os[1..], rest);
    }
  }

  /** Having emitted t0 with matching m0 to go, or t1 with m1 to go, comes to the same. */
  ghost predicate Onward(t0: seq<Trade>, m0: Matching, t1: seq<Trade>, m1: Matching) {
    t0 + m0.trades == t1 + m1.trades && m0.incoming == m1.incoming && m0.rejected == m1.rejected
        && m0.resting == m1.resting
  }

  lemma OnwardStep(t0: seq<Trade>, m0: Matching, t: seq<Trade>, g: seq<nat>, m1: Matching)
    requires m0 == m1.After(t, g)
    ensures Onward(t0, m0, t0 + t, m1)
  {
    Assoc(t0, t, m1.trades);
  }

  // ----- joining and leaving a queue

  /** The queue position behind every order at least as well priced. */
  function Insert(o: Order, queue: seq<Order>): seq<Order> {
    if queue == [] || Rank(o.side, o.price) < Rank(o.side, queue[0].price) then [o] + queue
    else [queue[0]] + Insert(o, queue[1..])
  }

  /** The position of the order with this id, or the queue's length. */
  function Find(queue: seq<Order>, id: nat): (k: nat)
    ensures k <= |queue|
    ensures k < |queue| ==> queue[k].id == id
    ensures forall j: nat :: j < k ==> queue[j].id != id
  {
    if queue == [] then 0
    else if queue[0].id == id then 0
    else 1 + Find(queue[1..], id)
  }

  function Without<T>(s: seq<T>, k: nat): seq<T>
    requires k < |s|
  {
    s[..k] + s[k + 1..]
  }

  /** The position at which Insert puts the order. */
  lemma {:induction false} InsertPosition(o: Order, queue: seq<Order>) returns (k: nat)
    ensures k <= |queue| && Insert(o, queue) == queue[..k] + [o] + queue[k..]
    ensures forall i: nat :: i < k ==> Rank(o.side, queue[i].price) <= Rank(o.side, o.price)
    ensures k < |queue| ==> Rank(o.side, o.price) < Rank(o.side, queue[k].price)
  {
    if queue == [] || Rank(o.side, o.price) < Rank(o.side, queue[0].price) {
      k := 0;
    } else {
      k := InsertPosition(o, queue[1..]);
      k := k + 1;
    }
  }

  lemma {:induction false} InsertBetween(o: Order, xs: seq<Order>, ys: seq<Order>)
    requires forall x :: x in xs ==> Rank(o.side, x.price) <= Rank(o.side, o.price)
    requires forall y :: y in ys ==> Rank(o.side, o.price) < Rank(o.side, y.price)
    ensures Insert(o, xs + ys) == xs + [o] + ys
  {
    if xs == [] {
      assert xs + ys == ys;
      if ys != [] { assert ys[0] in ys; }
    } else {
      assert xs[0] in xs;
      assert (xs + ys)[1..] == xs[1..] + ys;
      InsertBetween(o, xs[1..], ys);
      assert [xs[0]] + (xs[1..] + [o] + ys) == xs + [o] + ys;
    }
  }

  lemma {:induction false} FindInside(xs: seq<Order>, os: seq<Order>, ys: seq<Order>, k: nat, id: nat)
    requires k < |os| && os[k].id == id
    requires forall x :: x in xs ==> x.id != id
    requires forall j: nat :: j < k ==> os[j].id != id
    ensures Find(xs + os + ys, id) == |xs| + k
    ensures Without(xs + os + ys, |xs| + k) == xs + Without(os, k) + ys
  {
    var queue := xs + os + ys;
    var n := |xs| + k;
    assert queue[n].id == id;
    forall j: nat | j < n ensures queue[j].id != id {
      if j < |xs| { assert xs[j] in xs; } else { assert queue[j] == os[j - |xs|]; }
    }
    FindFirst(queue, n, id);
  }

  lemma {:induction false} FindFirst(queue: seq<Order>, n: nat, id: nat)
    requires n < |queue| && queue[n].id == id && forall j: nat :: j < n ==> queue[j].id != id
    ensures Find(queue, id) == n
  {
    if n > 0 {
      assert queue[0].id != id;
      FindFirst(queue[1..], n - 1, id);
    }
  }

  lemma {:induction false} FindNone(queue: seq<Order>, id: nat)
    requires forall o :: o in queue ==> o.id != id
    ensures Find(queue, id) == |queue|
  {
    if queue != [] {
      assert queue[0] in queue;
      FindNone(queue[1..], id);
    }
  }

  lemma {:induction false} SumWithout(os: seq<Order>, k: nat)
    requires k < |os|
    ensures SumQuantity(os) == os[k].quantity + SumQuantity(Without(os, k))
  {
    if k == 0 {
      assert Without(os, 0) == os[1..];
    } else {
      SumWithout(os[1..], k - 1);
      assert Without(os, k) == [os[0]] + Without(os[1..], k - 1);
    }
  }

  // ----- processing and cancelling

  ghost predicate AllOn(side: bool, queue: seq<Order>) {
    forall k: nat :: k < |queue| ==> queue[k].side == side
  }

  ghost predicate Sided(book: Book) {
    AllOn(true, book.bids) && AllOn(false, book.asks)
  }

  lemma {:induction false} MatchSided(incoming: Order, side: bool, resting: seq<Order>)
    requires AllOn(side, resting)
    ensures AllOn(side, Match(incoming, resting).resting)
    decreases |resting|
  {
    if incoming.quantity > 0 && resting != [] && Crosses(incoming, resting[0].price)
        && incoming.userId != resting[0].userId {
      var fill := Min(incoming.quantity, resting[0].quantity);
      if resting[0].quantity == fill {
        MatchSided(incoming.(quantity := incoming.quantity - fill), side, resting[1..]);
      } else {
        var m := Match(incoming, resting).resting;
        forall k: nat | k < |m| ensures m[k].side == side { assert m[k].side == resting[k].side; }
      }
    }
  }

  datatype Processed = Processed(book: Book, trades: seq<Trade>, rejected: uint32, rest: Order, filled: seq<nat>)

  function Process(book: Book, order: Order): Processed {
    var m := Match(order, book.Side(!order.side));
    var matched := book.WithSide(!order.side, m.resting);
    var book' := if m.incoming.quantity > 0
                 then matched.WithSide(order.side, Insert(m.incoming, matched.Side(order.side)))
                 else matched;
    Processed(book', m.trades, m.rejected, m.incoming, m.filled)
  }

  datatype Option<T> = None | Some(value: T)

  datatype Cancelled = Cancelled(book: Book, order: Option<Order>)

  function CancelOn(book: Book, side: bool, id: nat, userId: int): Cancelled {
    var queue := book.Side(side);
    var k := Find(queue, id);
    if k < |queue| && queue[k].userId == userId then Cancelled(book.WithSide(side, Without(queue, k)), Some(queue[k]))
    else Cancelled(book, None)
  }

  function Cancel(book: Book, id: nat, userId: int): Cancelled {
    var onBids := CancelOn(book, true, id, userId);
    if onBids.order.Some? then onBids else CancelOn(book, false, id, userId)
  }

  lemma ProcessSided(book: Book, o: Order)
    requires Sided(book)
    ensures Sided(Process(book, o).book)
  {
    hide Match; hide Insert;
    var opp, own := book.Side(!o.side), book.Side(o.side);
    MatchSided(o, !o.side, opp);
    MatchIncoming(o, opp);
    var k := InsertPosition(Match(o, opp).incoming, own);
  }

  lemma CancelSided(book: Book, id: nat, userId: int)
    requires Sided(book)
    ensures Sided(Cancel(book, id, userId).book)
  {
    hide Find;
  }

  lemma CancelMissed(book: Book, id: nat, userId: int)
    ensures Cancel(book, id, userId).order.None? ==> Cancel(book, id, userId).book == book
  {
  }

  // ----- what the book shows

  function BestPrice(queue: seq<Order>): uint32 {
    if queue == [] then NULL_IDX else queue[0].price
  }

  /** The number of leading orders at the first order's price. */
  function RunLength(queue: seq<Order>): (n: nat)
    requires queue != []
    ensures 0 < n <= |queue|
  {
    if |queue| == 1 || queue[1].price != queue[0].price then 1 else 1 + RunLength(queue[1..])
  }

  /** The first price levels of a queue, with their total quantities and order counts. */
  function DepthOf(queue: seq<Order>, limit: nat): seq<DepthLevel>
    decreases limit
  {
    if limit == 0 || queue == [] then []
    else
      var n := RunLength(queue);
      [DepthLevel(queue[0].price, SumQuantity(queue[..n]) % TWO_32, n % TWO_32)] + DepthOf(queue[n..], limit - 1)
  }

  /** The first resting orders of a queue. */
  function OrdersOf(queue: seq<Order>, limit: nat): seq<OrderSnapshot> {
    if limit == 0 || queue == [] then [] else [Snapshot(queue[0])] + OrdersOf(queue[1..], limit - 1)
  }

  /** What is shown: as many orders as asked for, or all, each with its own fields, in queue order. */
  ghost predicate Shows(snaps: seq<OrderSnapshot>, queue: seq<Order>, limit: nat) {
    && |snaps| == (if limit < |queue| then limit else |queue|)
    && forall k: nat :: k < |snaps| ==>
         && snaps[k].id == queue[k].id && snaps[k].userId == queue[k].userId
         && snaps[k].timestamp == queue[k].timestamp
         && snaps[k].price == queue[k].price && snaps[k].quantity == queue[k].quantity
  }

  lemma {:induction false} OrdersShown(queue: seq<Order>, limit: nat)
    ensures Shows(OrdersOf(queue, limit), queue, limit)
  {
    if limit > 0 && queue != [] {
      OrdersShown(queue[1..], limit - 1);
    }
  }

  lemma {:induction false} RunOf(os: seq<Order>, rest: seq<Order>, p: nat)
    requires os != [] && (forall k: nat :: k < |os| ==> os[k].price == p)
    requires rest != [] ==> rest[0].price != p
    ensures RunLength(os + rest) == |os|
  {
    if |os| > 1 {
      assert (os + rest)[1..] == os[1..] + rest;
      RunOf(os[1..], rest, p);
    } else if rest != [] {
      assert (os + rest)[1] == rest[0];
    }
  }

  lemma DepthFront(os: seq<Order>, rest: seq<Order>, p: uint32, limit: nat)
    requires os != [] && (forall k: nat :: k < |os| ==> os[k].price == p)
    requires rest != [] ==> rest[0].price != p
    requires limit > 0
    ensures DepthOf(os + rest, limit)
         == [DepthLevel(p, SumQuantity(os) % TWO_32, |os| % TWO_32)] + DepthOf(rest, limit - 1)
  {
    RunOf(os, rest, p);
    var queue := os + rest;
    assert queue[..|os|] == os && queue[|os|..] == rest;
  }

  lemma {:induction false} DepthBound(queue: seq<Order>, limit: nat)
    ensures |DepthOf(queue, limit)| <= limit
    ensures queue == [] ==> DepthOf(queue, limit) == []
  {
    if limit > 0 && queue != [] {
      DepthBound(queue[RunLength(queue)..], limit - 1);
    }
  }

  lemma OrdersNone(queue: seq<Order>)
    ensures OrdersOf(queue, 0) == []
  {
  }

  lemma OrdersStep(os: seq<Order>, k: nat, rest: seq<Order>, limit: nat)
    requires k < |os| && limit > 0
    ensures OrdersOf(os[k..] + rest, limit) == [Snapshot(os[k])] + OrdersOf(os[k + 1..] + rest, limit - 1)
  {
    assert (os[k..] + rest)[1..] == os[k + 1..] + rest;
  }

  lemma OrdersEmpty(limit: nat)
    ensures OrdersOf([], limit) == []
  {
  }
}
