/** What the exchange promises about one order and about every reachable book: quantities add up,
    trades respect price-time priority, the book is never crossed. */
module BookLaws {
  import opened Orders
  import opened PriceTime

  // ----- price-time order

  /** a is served before b: it has the better price, or the same price and arrived earlier. */
  predicate Prior(side: bool, a: Order, b: Order) {
    && SeqOf(a.id) != SeqOf(b.id)
    && (Rank(side, a.price) < Rank(side, b.price) || (a.price == b.price && SeqOf(a.id) < SeqOf(b.id)))
  }

  ghost predicate Sorted(side: bool, queue: seq<Order>) {
    forall i: nat, j: nat :: i < j < |queue| ==> Prior(side, queue[i], queue[j])
  }

  predicate ValidOrder(side: bool, counter: nat, o: Order) {
    o.side == side && o.price < MAX_PRICE && o.quantity > 0 && 0 < SeqOf(o.id) <= counter
  }

  ghost predicate ValidQueue(side: bool, counter: nat, queue: seq<Order>) {
    Sorted(side, queue) && forall i: nat :: i < |queue| ==> ValidOrder(side, counter, queue[i])
  }

  predicate Uncrossed(book: Book) {
    book.bids != [] && book.asks != [] ==> book.bids[0].price < book.asks[0].price
  }

  /** No sequence number rests on both sides. */
  ghost predicate SidesApart(book: Book) {
    forall i: nat, j: nat :: i < |book.bids| && j < |book.asks| ==> SeqOf(book.bids[i].id) != SeqOf(book.asks[j].id)
  }

  ghost predicate ValidBook(book: Book, counter: nat) {
    && ValidQueue(true, counter, book.bids)
    && ValidQueue(false, counter, book.asks)
    && Uncrossed(book) && SidesApart(book)
  }

  // ----- one matching in closed form

  /** What an incoming order can take: the quantities in front of its limit and of its first own order. */
  function Available(incoming: Order, resting: seq<Order>): nat {
    if resting == [] || !Crosses(incoming, resting[0].price) || incoming.userId == resting[0].userId then 0
    else resting[0].quantity + Available(incoming, resting[1..])
  }

  /** Whether, within its limit, an incoming order would come to an order of its own user. */
  predicate OwnAhead(incoming: Order, resting: seq<Order>) {
    && resting != [] && Crosses(incoming, resting[0].price)
    && (incoming.userId == resting[0].userId || OwnAhead(incoming, resting[1..]))
  }

  function Traded(trades: seq<Trade>): nat {
    if trades == [] then 0 else trades[0].quantity + Traded(trades[1..])
  }

  lemma {:induction false} OnlyQuantity(incoming: Order, quantity: uint32, resting: seq<Order>)
    ensures Available(incoming.(quantity := quantity), resting) == Available(incoming, resting)
    ensures OwnAhead(incoming.(quantity := quantity), resting) == OwnAhead(incoming, resting)
  {
    if resting != [] {
      OnlyQuantity(incoming, quantity, resting[1..]);
    }
  }

  /** The filled quantity is the smaller of what is wanted and what is available; the remainder is
      rejected in full if an own order stands behind that, and otherwise rests in full. */
  lemma {:induction false} MatchClosedForm(incoming: Order, resting: seq<Order>)
    requires forall i: nat :: i < |resting| ==> resting[i].quantity > 0
    ensures var m := Match(incoming, resting);
            var filled := if incoming.quantity < Available(incoming, resting) then incoming.quantity
                else Available(incoming, resting);
            && Traded(m.trades) == filled
            && m.rejected == (if OwnAhead(incoming, resting) then incoming.quantity - filled else 0)
            && m.incoming.quantity == (if OwnAhead(incoming, resting) then 0 else incoming.quantity - filled)
    decreases |resting|
  {
    if incoming.quantity == 0 || resting == [] || !Crosses(incoming, resting[0].price) {
    } else if incoming.userId == resting[0].userId {
    } else if resting[0].quantity <= incoming.quantity {
      var incoming' := incoming.(quantity := incoming.quantity - resting[0].quantity);
      MatchClosedForm(incoming', resting[1..]);
      OnlyQuantity(incoming, incoming'.quantity, resting[1..]);
      var m' := Match(incoming', resting[1..]);
      var t := MakeTrade(incoming, resting[0], resting[0].quantity);
      assert ([t] + m'.trades)[1..] == m'.trades;
    } else {
      var t := MakeTrade(incoming, resting[0], incoming.quantity);
      assert [t][1..] == [];
    }
  }

  /** Nothing is lost: original quantity = fills + rejected + remainder. */
  lemma {:induction false} MatchConserves(incoming: Order, resting: seq<Order>)
    ensures var m := Match(incoming, resting);
            && incoming.quantity == Traded(m.trades) + m.rejected + m.incoming.quantity
            && (m.rejected > 0 ==> m.incoming.quantity == 0)
    decreases |resting|
  {
    if incoming.quantity > 0 && resting != [] && Crosses(incoming, resting[0].price)
        && incoming.userId != resting[0].userId {
      var fill := Min(incoming.quantity, resting[0].quantity);
      var t := MakeTrade(incoming, resting[0], fill);
      if resting[0].quantity == fill {
        var incoming' := incoming.(quantity := incoming.quantity - fill);
        MatchConserves(incoming', resting[1..]);
        assert ([t] + Match(incoming', resting[1..]).trades)[1..] == Match(incoming', resting[1..]).trades;
      } else {
        assert [t][1..] == [];
      }
    }
  }

  function RestingId(incoming: Order, t: Trade): nat {
    if incoming.side then t.sellOrderId else t.buyOrderId
  }

  /** The trades go through the queue from the front, one order after the other, each between the
      incoming order and that one, at its price and for all of it, except that the last may take only
      part. */
  ghost predicate FromFront(incoming: Order, resting: seq<Order>, m: Matching) {
    && |m.filled| <= |m.trades| <= |m.filled| + 1 && |m.trades| <= |resting|
    && (forall i: nat :: i < |m.trades| ==>
          && Records(m.trades[i], incoming, resting[i]) && RestingId(incoming, m.trades[i]) == resting[i].id
          && 0 < m.trades[i].quantity <= resting[i].quantity && resting[i].userId != incoming.userId
          && Crosses(incoming, resting[i].price))
    && (forall i: nat :: i < |m.filled| ==> m.filled[i] == resting[i].id && m.trades[i].quantity == resting[i].quantity)
    && m.resting == (if |m.trades| == |m.filled| then resting[|m.filled|..]
                     else var k := |m.filled|;
                          [resting[k].(quantity := resting[k].quantity - m.trades[k].quantity)] + resting[k + 1..])
    && (|m.trades| > |m.filled| ==> m.trades[|m.filled|].quantity < resting[|m.filled|].quantity)
  }

  lemma {:induction false} MatchFromFront(incoming: Order, resting: seq<Order>)
    requires forall i: nat :: i < |resting| ==> resting[i].quantity > 0
    ensures FromFront(incoming, resting, Match(incoming, resting))
    decreases |resting|
  {
    if incoming.quantity == 0 || resting == [] || !Crosses(incoming, resting[0].price)
        || incoming.userId == resting[0].userId {
    } else if resting[0].quantity <= incoming.quantity {
      var incoming' := incoming.(quantity := incoming.quantity - resting[0].quantity);
      var m' := Match(incoming', resting[1..]);
      MatchFromFront(incoming', resting[1..]);
      FrontExtended(incoming, incoming', resting, m');
    } else {
    }
  }

  lemma SameLimit(o: Order, o': Order, price: uint32)
    requires o' == o.(quantity := o'.quantity)
    ensures Crosses(o', price) == Crosses(o, price)
  {
  }

  lemma FrontExtended(incoming: Order, incoming': Order, resting: seq<Order>, m': Matching)
    requires resting != [] && 0 < resting[0].quantity <= incoming.quantity
    requires Crosses(incoming, resting[0].price) && incoming.userId != resting[0].userId
    requires incoming' == incoming.(quantity := incoming.quantity - resting[0].quantity)
    requires FromFront(incoming', resting[1..], m')
    ensures FromFront(incoming, resting, m'.After([MakeTrade(incoming, resting[0], resting[0].quantity)],
      [resting[0].id]))
  {
    hide Crosses;
    var t := MakeTrade(incoming, resting[0], resting[0].quantity);
    var m := m'.After([t], [resting[0].id]);
    forall i: nat | i < |m.trades|
      ensures Records(m.trades[i], incoming, resting[i]) && RestingId(incoming, m.trades[i]) == resting[i].id
      ensures 0 < m.trades[i].quantity <= resting[i].quantity && resting[i].userId != incoming.userId
      ensures Crosses(incoming, resting[i].price)
    {
      if i > 0 {
        assert m.trades[i] == m'.trades[i - 1] && resting[i] == resting[1..][i - 1];
        SameLimit(incoming, incoming', resting[i].price);
      }
    }
    forall i: nat | i < |m.filled|
      ensures m.filled[i] == resting[i].id && m.trades[i].quantity == resting[i].quantity
    {
      if i > 0 { assert m.filled[i] == m'.filled[i - 1] && resting[i] == resting[1..][i - 1]; }
    }
  }

  /** Two trades of one match: the earlier is at the better price, or at the same price with the
      older resting order. */
  predicate TradedBefore(incoming: Order, t: Trade, u: Trade) {
    || Rank(!incoming.side, t.price) < Rank(!incoming.side, u.price)
    || (t.price == u.price && SeqOf(RestingId(incoming, t)) < SeqOf(RestingId(incoming, u)))
  }

  /** Priority within a match: trade prices get no better, ties go by age, and whoever traded comes
      before everybody who still rests, except that the last may rest with a remainder. */
  lemma ServedInPriority(incoming: Order, counter: nat, resting: seq<Order>)
    requires ValidQueue(!incoming.side, counter, resting)
    ensures var m := Match(incoming, resting);
            && (forall i: nat, j: nat :: i < j < |m.trades| ==> TradedBefore(incoming, m.trades[i], m.trades[j]))
            && |m.trades| <= |resting|
            && (forall i: nat, k: nat :: i < |m.trades| && k < |m.resting| ==>
                  m.resting[k].id == RestingId(incoming, m.trades[i])
                      || Prior(!incoming.side, resting[i], m.resting[k]))
  {
    Positive(!incoming.side, counter, resting);
    MatchFromFront(incoming, resting);
    hide Match; hide Crosses;
    var m := Match(incoming, resting);
    forall i: nat, j: nat | i < j < |m.trades| ensures TradedBefore(incoming, m.trades[i], m.trades[j]) {
      assert Prior(!incoming.side, resting[i], resting[j]);
    }
    var f := |m.filled|;
    forall i: nat, k: nat | i < |m.trades| && k < |m.resting|
      ensures m.resting[k].id == RestingId(incoming, m.trades[i]) || Prior(!incoming.side, resting[i], m.resting[k])
    {
      assert i < f + k ==> Prior(!incoming.side, resting[i], resting[f + k]);
    }
  }

  // ----- the queues stay in order

  lemma {:induction false} MatchStops(incoming: Order, resting: seq<Order>)
    ensures var m := Match(incoming, resting);
            m.incoming.quantity > 0 ==> m.resting == [] || !Crosses(incoming, m.resting[0].price)
    decreases |resting|
  {
    if incoming.quantity > 0 && resting != [] && Crosses(incoming, resting[0].price)
        && incoming.userId != resting[0].userId
       && resting[0].quantity <= incoming.quantity {
      MatchStops(incoming.(quantity := incoming.quantity - resting[0].quantity), resting[1..]);
    }
  }

  /** What is left of the opposing queue is a tail of it, but for the head's quantity. */
  ghost predicate TailOf(queue: seq<Order>, queue': seq<Order>) {
    && |queue'| <= |queue|
    && forall i: nat :: i < |queue'| ==>
         var o := queue[|queue| - |queue'| + i];
         queue'[i] == o.(quantity := queue'[i].quantity) && queue'[i].quantity > 0
  }

  lemma MatchLeavesTail(incoming: Order, resting: seq<Order>)
    requires forall i: nat :: i < |resting| ==> resting[i].quantity > 0
    ensures TailOf(resting, Match(incoming, resting).resting)
  {
    hide Match; hide Crosses; hide RestingId;
    MatchFromFront(incoming, resting);
    var m := Match(incoming, resting);
    var k := |m.filled|;
    if |m.trades| == k {
      assert m.resting == resting[k..];
    } else {
      assert |m.resting| == |resting| - k;
      forall i: nat | 0 < i < |m.resting| ensures m.resting[i] == resting[k + i] {}
    }
  }

  lemma TailValid(side: bool, counter: nat, queue: seq<Order>, queue': seq<Order>)
    requires ValidQueue(side, counter, queue) && TailOf(queue, queue')
    ensures ValidQueue(side, counter, queue')
  {
    var n := |queue| - |queue'|;
    forall i: nat | i < |queue'| ensures ValidOrder(side, counter, queue'[i]) {
      assert ValidOrder(side, counter, queue[n + i]);
    }
    forall i: nat, j: nat | i < j < |queue'| ensures Prior(side, queue'[i], queue'[j]) {
      assert Prior(side, queue[n + i], queue[n + j]);
    }
  }

  lemma InsertValid(counter: nat, queue: seq<Order>, o: Order) returns (k: nat)
    requires ValidQueue(o.side, counter, queue) && ValidOrder(o.side, counter + 1, o) && SeqOf(o.id) == counter + 1
    ensures ValidQueue(o.side, counter + 1, Insert(o, queue))
    ensures k <= |queue| && Insert(o, queue) == queue[..k] + [o] + queue[k..]
  {
    hide Insert; hide SeqOf;
    k := InsertPosition(o, queue);
    var queue' := queue[..k] + [o] + queue[k..];
    forall i: nat | i < |queue'| ensures ValidOrder(o.side, counter + 1, queue'[i]) {
      if i != k { assert ValidOrder(o.side, counter, queue[if i < k then i else i - 1]); }
    }
    forall i: nat, j: nat | i < j < |queue'| ensures Prior(o.side, queue'[i], queue'[j]) {
      InsertPrior(counter, queue, o, k, i, j);
    }
  }

  lemma InsertPrior(counter: nat, queue: seq<Order>, o: Order, k: nat, i: nat, j: nat)
    requires ValidQueue(o.side, counter, queue) && SeqOf(o.id) == counter + 1 && k <= |queue| && i < j <= |queue|
    requires forall i: nat :: i < k ==> Rank(o.side, queue[i].price) <= Rank(o.side, o.price)
    requires k < |queue| ==> Rank(o.side, o.price) < Rank(o.side, queue[k].price)
    ensures var queue' := queue[..k] + [o] + queue[k..]; Prior(o.side, queue'[i], queue'[j])
  {
    hide SeqOf;
    var queue' := queue[..k] + [o] + queue[k..];
    if j == k {
      assert queue'[i] == queue[i];
      assert ValidOrder(o.side, counter, queue[i]);
    } else if i == k {
      assert queue'[j] == queue[j - 1];
      if j - 1 > k { assert Prior(o.side, queue[k], queue[j - 1]); }
    } else {
      var i', j' := if i < k then i else i - 1, if j < k then j else j - 1;
      assert queue'[i] == queue[i'] && queue'[j] == queue[j'];
      assert Prior(o.side, queue[i'], queue[j']);
    }
  }

  lemma WithoutValid(side: bool, counter: nat, queue: seq<Order>, k: nat)
    requires ValidQueue(side, counter, queue) && k < |queue|
    ensures ValidQueue(side, counter, Without(queue, k))
  {
    var queue' := Without(queue, k);
    forall i: nat | i < |queue'| ensures queue'[i] == queue[if i < k then i else i + 1] {}
    forall i: nat | i < |queue'| ensures ValidOrder(side, counter, queue'[i]) {
      assert ValidOrder(side, counter, queue[if i < k then i else i + 1]);
    }
    forall i: nat, j: nat | i < j < |queue'| ensures Prior(side, queue'[i], queue'[j]) {
      assert Prior(side, queue[if i < k then i else i + 1], queue[if j < k then j else j + 1]);
    }
  }

  // ----- every step keeps the book valid

  lemma ProcessKeepsValid(book: Book, counter: nat, order: Order)
    requires ValidBook(book, counter) && order.price < MAX_PRICE && SeqOf(order.id) == counter + 1
    ensures ValidBook(Process(book, order).book, counter + 1)
  {
    hide Match; hide Insert; hide SeqOf; hide ValidOrder;
    var opp, own := book.Side(!order.side), book.Side(order.side);
    Positive(!order.side, counter, opp);
    MatchLeavesTail(order, opp);
    MatchStops(order, opp);
    MatchIncoming(order, opp);
    var m := Match(order, opp);
    TailValid(!order.side, counter, opp, m.resting);
    hide ValidQueue;
    var matched := book.WithSide(!order.side, m.resting);
    TailUncrossed(book, counter, !order.side, m.resting);
    if m.incoming.quantity > 0 {
      InsertKeepsValid(matched, counter, m.incoming);
    } else {
      LaterCounter(matched, counter);
    }
  }

  lemma Positive(side: bool, counter: nat, queue: seq<Order>)
    requires ValidQueue(side, counter, queue)
    ensures forall i: nat :: i < |queue| ==> queue[i].quantity > 0
  {
    forall i: nat | i < |queue| ensures queue[i].quantity > 0 { assert ValidOrder(side, counter, queue[i]); }
  }

  lemma LaterCounter(book: Book, counter: nat)
    requires ValidBook(book, counter)
    ensures ValidBook(book, counter + 1)
  {
    hide Prior; hide SeqOf;
  }

  lemma TailUncrossed(book: Book, counter: nat, side: bool, queue': seq<Order>)
    requires ValidBook(book, counter) && TailOf(book.Side(side), queue') && ValidQueue(side, counter, queue')
    ensures ValidBook(book.WithSide(side, queue'), counter)
  {
    hide SeqOf;
    var queue := book.Side(side);
    var n := |queue| - |queue'|;
    if queue' != [] {
      assert queue'[0].price == queue[n].price;
      if n > 0 { assert Prior(side, queue[0], queue[n]); }
    }
    hide Sorted;
    forall i: nat | i < |queue'| ensures queue'[i].id == queue[n + i].id {}
  }

  lemma InsertKeepsValid(book: Book, counter: nat, o: Order)
    requires ValidBook(book, counter) && o.price < MAX_PRICE && o.quantity > 0 && SeqOf(o.id) == counter + 1
    requires book.Side(!o.side) == [] || !Crosses(o, book.Side(!o.side)[0].price)
    ensures ValidBook(book.WithSide(o.side, Insert(o, book.Side(o.side))), counter + 1)
  {
    hide Insert; hide SeqOf; hide Sorted;
    assert ValidOrder(o.side, counter + 1, o);
    var queue, other := book.Side(o.side), book.Side(!o.side);
    var k := InsertValid(counter, queue, o);
    LaterCounter(book, counter);
    var queue' := queue[..k] + [o] + queue[k..];
    forall i: nat | i < |queue'| && i != k ensures queue'[i] == queue[if i < k then i else i - 1] {}
    forall j: nat | j < |other| ensures SeqOf(other[j].id) <= counter { assert ValidOrder(!o.side, counter, other[j]); }
  }

  lemma CancelKeepsValid(book: Book, counter: nat, id: nat, userId: int)
    requires ValidBook(book, counter)
    ensures ValidBook(Cancel(book, id, userId).book, counter)
  {
    CancelOnKeepsValid(book, counter, true, id, userId);
    CancelOnKeepsValid(book, counter, false, id, userId);
    hide ValidBook; hide CancelOn;
  }

  lemma CancelOnKeepsValid(book: Book, counter: nat, side: bool, id: nat, userId: int)
    requires ValidBook(book, counter)
    ensures ValidBook(CancelOn(book, side, id, userId).book, counter)
  {
    hide SeqOf;
    var queue := book.Side(side);
    var k := Find(queue, id);
    if k < |queue| {
      var queue' := Without(queue, k);
      WithoutValid(side, counter, queue, k);
      forall i: nat | i < |queue'| ensures queue'[i] == queue[if i < k then i else i + 1] {}
      if k == 0 && queue' != [] { assert Prior(side, queue[0], queue[1]); }
    }
  }

  /** A cancellation succeeds exactly for an order that still rests and belongs to the caller; it
      returns what is left of that order and removes just that one element. */
  lemma CancelExact(book: Book, counter: nat, id: nat, userId: int)
    requires ValidBook(book, counter)
    ensures var c := Cancel(book, id, userId);
            && (c.order.Some? <==>
                  exists side: bool, k: nat ::
                    k < |book.Side(side)| && book.Side(side)[k].id == id && book.Side(side)[k].userId == userId)
            && (c.order.Some? ==> c.order.value.id == id && c.order.value.userId == userId)
            && (forall side: bool, k: nat ::
                  (k < |book.Side(side)| && book.Side(side)[k].id == id && book.Side(side)[k].userId == userId) ==>
                  c == Cancelled(book.WithSide(side, Without(book.Side(side), k)), Some(book.Side(side)[k])))
            && (c.order.None? ==> c.book == book)
  {
    forall side: bool, k: nat | k < |book.Side(side)| && book.Side(side)[k].id == id
      ensures Find(book.Side(side), id) == k
      ensures Find(book.Side(!side), id) == |book.Side(!side)|
    {
      CancelUnique(book, counter, side, k);
    }
    assert book.Side(true) == book.bids && book.Side(false) == book.asks;
  }

  lemma CancelUnique(book: Book, counter: nat, side: bool, k: nat)
    requires ValidBook(book, counter) && k < |book.Side(side)|
    ensures Find(book.Side(side), book.Side(side)[k].id) == k
    ensures Find(book.Side(!side), book.Side(side)[k].id) == |book.Side(!side)|
  {
    var queue, other, id := book.Side(side), book.Side(!side), book.Side(side)[k].id;
    forall j: nat | j < k ensures queue[j].id != id { assert Prior(side, queue[j], queue[k]); }
    FindFirst(queue, k, id);
    forall o | o in other ensures o.id != id {
      var j: nat :| j < |other| && other[j] == o;
    }
    FindNone(other, id);
  }

  lemma BookPositive(book: Book, counter: nat, side: bool)
    requires ValidBook(book, counter)
    ensures forall i: nat :: i < |book.Side(side)| ==> book.Side(side)[i].quantity > 0
  {
    Positive(side, counter, book.Side(side));
  }

  lemma MatchFills(incoming: Order, resting: seq<Order>)
    requires forall i: nat :: i < |resting| ==> resting[i].quantity > 0
    ensures var m := Match(incoming, resting); |m.resting| + |m.filled| == |resting|
  {
    MatchFromFront(incoming, resting);
  }

  /** No order of a queue is used up. */
  ghost predicate Unspent(queue: seq<Order>) {
    forall i: nat :: i < |queue| ==> queue[i].quantity > 0
  }

  ghost predicate UnspentBook(book: Book) {
    Unspent(book.bids) && Unspent(book.asks)
  }
}
