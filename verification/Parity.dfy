/** Runs of the two engines side by side. For every sequence of requests that the CURRENT engine
    accepts, the LEGACY engine does the same, its ids being the sequence numbers of the CURRENT ones. */
module Parity {
  import opened Orders
  import opened PriceTime
  import opened BookLaws
  import opened Calls
  import opened CurrentEngine
  import opened LegacyEngine

  /** A request: an order, or the cancellation of the n-th order that was accepted. */
  datatype Op = Submit(order: Order) | CancelNth(n: nat, userId: int)

  /** The CURRENT engine with the ids it has issued. */
  datatype Run = Run(engine: Engine, ids: seq<nat>)

  const START := Run(InitialEngine(), [])

  predicate Accepts(r: Run, op: Op) {
    match op
    case Submit(o) => o.price < MAX_PRICE ==> r.engine.free != [] && r.engine.counter + 1 < TWO_32
    case CancelNth(n, _) => n < |r.ids|
  }

  function CurrentStep(r: Run, op: Op): (Run, Seen)
    requires Accepts(r, op)
  {
    match op
    case Submit(o) =>
      if CanProcess(r.engine, o) then
        var a := Accept(r.engine, o);
        var id := PackId(r.engine.counter + 1, r.engine.free[|r.engine.free| - 1]);
        (Run(a.engine, r.ids + [id]), Matched(a.trades, a.rejected))
      else (r, Refused)
    case CancelNth(n, userId) =>
      var c := CancelStep(r.engine, r.ids[n], userId);
      (Run(c.0, r.ids), CancelAnswer(c.1))
  }

  function LegacyStep(l: Legacy, op: Op): (Legacy, Seen) {
    match op
    case Submit(o) =>
      if o.price < MAX_PRICE then
        var a := LegacyAccept(l, o);
        (a.engine, Matched(a.trades, a.rejected))
      else (l, Refused)
    case CancelNth(n, userId) =>
      var c := LegacyCancel(l, n + 1, userId);
      (c.0, CancelAnswer(c.1))
  }

  predicate AcceptsAll(r: Run, ops: seq<Op>)
    decreases |ops|
  {
    ops == [] || (Accepts(r, ops[0]) && AcceptsAll(CurrentStep(r, ops[0]).0, ops[1..]))
  }

  function CurrentRun(r: Run, ops: seq<Op>): (Run, seq<Seen>)
    requires AcceptsAll(r, ops)
    decreases |ops|
  {
    if ops == [] then (r, [])
    else
      var (r1, seen) := CurrentStep(r, ops[0]);
      var (r2, rest) := CurrentRun(r1, ops[1..]);
      (r2, [seen] + rest)
  }

  function LegacyRun(l: Legacy, ops: seq<Op>): (Legacy, seq<Seen>)
    decreases |ops|
  {
    if ops == [] then (l, [])
    else
      var (l1, seen) := LegacyStep(l, ops[0]);
      var (l2, rest) := LegacyRun(l1, ops[1..]);
      (l2, [seen] + rest)
  }

  // ----- forgetting the pool slots

  function Erase(o: Order): Order {
    o.(id := SeqOf(o.id))
  }

  function EraseTrade(t: Trade): Trade {
    t.(buyOrderId := SeqOf(t.buyOrderId), sellOrderId := SeqOf(t.sellOrderId))
  }

  function EraseOrders(os: seq<Order>): seq<Order> {
    seq(|os|, i requires 0 <= i < |os| => Erase(os[i]))
  }

  function EraseTrades(ts: seq<Trade>): seq<Trade> {
    seq(|ts|, i requires 0 <= i < |ts| => EraseTrade(ts[i]))
  }

  function EraseIds(ids: seq<nat>): seq<nat> {
    seq(|ids|, i requires 0 <= i < |ids| => SeqOf(ids[i]))
  }

  function EraseBook(b: Book): Book {
    Book(EraseOrders(b.bids), EraseOrders(b.asks))
  }

  function EraseMatching(m: Matching): Matching {
    Matching(EraseTrades(m.trades), Erase(m.incoming), m.rejected, EraseOrders(m.resting), EraseIds(m.filled))
  }

  function EraseSeen(s: Seen): Seen {
    match s
    case Matched(trades, rejected) => Matched(EraseTrades(trades), rejected)
    case Refused => Refused
    case CancelAnswer(None) => CancelAnswer(None)
    case CancelAnswer(Some(o)) => CancelAnswer(Some(Erase(o)))
  }

  function EraseAllSeen(s: seq<Seen>): seq<Seen> {
    seq(|s|, i requires 0 <= i < |s| => EraseSeen(s[i]))
  }

  // ----- the exchange does not look at ids

  lemma {:induction false} MatchErased(incoming: Order, resting: seq<Order>)
    ensures Match(Erase(incoming), EraseOrders(resting)) == EraseMatching(Match(incoming, resting))
    decreases |resting|
  {
    hide SeqOf;
    if incoming.quantity == 0 || resting == [] || !Crosses(incoming, resting[0].price)
        || incoming.userId == resting[0].userId {
    } else {
      var head := resting[0];
      var fill := Min(incoming.quantity, head.quantity);
      var incoming' := incoming.(quantity := incoming.quantity - fill);
      TradeErased(incoming, head, fill);
      if head.quantity == fill {
        MatchErased(incoming', resting[1..]);
        assert EraseOrders(resting)[1..] == EraseOrders(resting[1..]);
        AfterErased(Match(incoming', resting[1..]), MakeTrade(incoming, head, fill), head.id);
      } else {
        HeadErased(head.(quantity := head.quantity - fill), resting);
      }
    }
  }

  lemma TradeErased(incoming: Order, head: Order, fill: uint32)
    ensures MakeTrade(Erase(incoming), Erase(head), fill) == EraseTrade(MakeTrade(incoming, head, fill))
    ensures [EraseTrade(MakeTrade(incoming, head, fill))] == EraseTrades([MakeTrade(incoming, head, fill)])
  {
    hide SeqOf;
  }

  lemma AfterErased(m: Matching, t: Trade, id: nat)
    ensures EraseMatching(m).After([EraseTrade(t)], [SeqOf(id)]) == EraseMatching(m.After([t], [id]))
  {
    hide SeqOf;
    assert [EraseTrade(t)] + EraseTrades(m.trades) == EraseTrades([t] + m.trades);
    assert [SeqOf(id)] + EraseIds(m.filled) == EraseIds([id] + m.filled);
  }

  lemma HeadErased(o: Order, queue: seq<Order>)
    requires queue != []
    ensures [Erase(o)] + EraseOrders(queue)[1..] == EraseOrders([o] + queue[1..])
  {
    hide SeqOf;
  }

  lemma {:induction false} InsertErased(o: Order, queue: seq<Order>)
    ensures Insert(Erase(o), EraseOrders(queue)) == EraseOrders(Insert(o, queue))
  {
    hide SeqOf;
    if queue == [] || Rank(o.side, o.price) < Rank(o.side, queue[0].price) {
      assert [Erase(o)] + EraseOrders(queue) == EraseOrders([o] + queue);
    } else {
      InsertErased(o, queue[1..]);
      assert EraseOrders(queue)[1..] == EraseOrders(queue[1..]);
      assert [Erase(queue[0])] + EraseOrders(Insert(o, queue[1..])) == EraseOrders([queue[0]] + Insert(o, queue[1..]));
    }
  }

  lemma {:induction false} FindErased(queue: seq<Order>, id: nat)
    requires forall i: nat :: i < |queue| ==> (SeqOf(queue[i].id) == SeqOf(id) <==> queue[i].id == id)
    ensures Find(EraseOrders(queue), SeqOf(id)) == Find(queue, id)
  {
    hide SeqOf;
    if queue != [] {
      assert EraseOrders(queue)[1..] == EraseOrders(queue[1..]);
      FindErased(queue[1..], id);
    }
  }

  lemma ProcessErased(book: Book, order: Order)
    ensures var p := Process(book, order);
            Process(EraseBook(book), Erase(order))
            == Processed(EraseBook(p.book), EraseTrades(p.trades), p.rejected, Erase(p.rest), EraseIds(p.filled))
  {
    hide Match; hide Insert; hide SeqOf; hide EraseOrders;
    MatchErased(order, book.Side(!order.side));
    var m := Match(order, book.Side(!order.side));
    MatchIncoming(order, book.Side(!order.side));
    InsertErased(m.incoming, book.Side(order.side));
  }

  lemma CancelOnErased(book: Book, side: bool, id: nat, userId: int)
    requires forall i: nat :: i < |book.Side(side)| ==> (SeqOf(book.Side(side)[i].id) == SeqOf(id)
      <==> book.Side(side)[i].id == id)
    ensures var c := CancelOn(book, side, id, userId);
            CancelOn(EraseBook(book), side, SeqOf(id), userId)
            == Cancelled(EraseBook(c.book), if c.order.None? then None else Some(Erase(c.order.value)))
  {
    hide SeqOf; hide Find;
    var queue := book.Side(side);
    FindErased(queue, id);
    var k := Find(queue, id);
    if k < |queue| { assert Without(EraseOrders(queue), k) == EraseOrders(Without(queue, k)); }
  }

  // ----- the invariant of a run

  /** Ids are issued in sequence, what rests carries an issued id, and every pool slot is either
      on the free stack or rests. */
  ghost predicate RunOk(r: Run) {
    && ValidBook(r.engine.book, r.engine.counter)
    && |r.ids| == r.engine.counter
    && (forall n: nat :: n < |r.ids| ==> SeqOf(r.ids[n]) == n + 1)
    && AllIssued(r.ids, r.engine.book.bids) && AllIssued(r.ids, r.engine.book.asks)
    && |r.engine.free| + |r.engine.book.bids| + |r.engine.book.asks| == MAX_ORDERS
  }

  ghost predicate AllIssued(ids: seq<nat>, queue: seq<Order>) {
    forall k: nat :: k < |queue| ==> Issued(ids, queue[k].id)
  }

  predicate Issued(ids: seq<nat>, id: nat) {
    0 < SeqOf(id) <= |ids| && ids[SeqOf(id) - 1] == id
  }

  ghost predicate Related(r: Run, l: Legacy) {
    RunOk(r) && l == Legacy(EraseBook(r.engine.book), r.engine.counter)
  }

  lemma StartOk()
    ensures RunOk(START) && Related(START, Legacy(EMPTY_BOOK, 0))
  {
    assert EraseOrders([]) == [];
  }

  lemma TailIssued(ids: seq<nat>, queue: seq<Order>, queue': seq<Order>)
    requires AllIssued(ids, queue) && TailOf(queue, queue')
    ensures AllIssued(ids, queue')
  {
    var n := |queue| - |queue'|;
    forall k: nat | k < |queue'| ensures Issued(ids, queue'[k].id) { assert Issued(ids, queue[n + k].id); }
  }

  lemma InsertIssued(ids: seq<nat>, queue: seq<Order>, o: Order)
    requires AllIssued(ids, queue) && SeqOf(o.id) == |ids| + 1
    ensures AllIssued(ids + [o.id], Insert(o, queue)) && AllIssued(ids + [o.id], queue)
    ensures |Insert(o, queue)| == |queue| + 1
  {
    hide SeqOf; hide Insert;
    var p := InsertPosition(o, queue);
    var queue' := queue[..p] + [o] + queue[p..];
    forall k: nat | k < |queue'| && k != p ensures Issued(ids + [o.id], queue'[k].id) {
      assert Issued(ids, queue[if k < p then k else k - 1].id);
    }
    forall k: nat | k < |queue| ensures Issued(ids + [o.id], queue[k].id) { assert Issued(ids, queue[k].id); }
  }

  lemma SubmitKeepsOk(r: Run, order: Order)
    requires RunOk(r) && Accepts(r, Submit(order)) && order.price < MAX_PRICE
    ensures RunOk(CurrentStep(r, Submit(order)).0)
  {
    hide SeqOf; hide Match; hide Insert; hide ValidBook; hide TailOf; hide AllIssued;
    var e := r.engine;
    var id := PackId(e.counter + 1, e.free[|e.free| - 1]);
    PackRoundTrip(e.counter + 1, e.free[|e.free| - 1]);
    var o := order.(id := id);
    ProcessKeepsValid(e.book, e.counter, o);
    var opp, own := e.book.Side(!o.side), e.book.Side(o.side);
    BookPositive(e.book, e.counter, !o.side);
    MatchLeavesTail(o, opp);
    MatchIncoming(o, opp);
    MatchFills(o, opp);
    var m := Match(o, opp);
    TailIssued(r.ids, opp, m.resting);
    InsertIssued(r.ids, m.resting, o);
    InsertIssued(r.ids, own, m.incoming);
  }

  lemma IssuedNonZero(r: Run, n: nat)
    requires RunOk(r) && n < |r.ids|
    ensures r.ids[n] != 0 && n < r.engine.counter
  {
    assert SeqOf(r.ids[n]) == n + 1;
  }

  lemma CancelKeepsOk(r: Run, n: nat, userId: int)
    requires RunOk(r) && n < |r.ids|
    ensures RunOk(CurrentStep(r, CancelNth(n, userId)).0)
  {
    hide SeqOf; hide ValidBook; hide Find; hide SlotZero;
    IssuedNonZero(r, n);
    CancelKeepsValid(r.engine.book, r.engine.counter, r.ids[n], userId);
    WithoutIssued(r, true, r.ids[n]);
    WithoutIssued(r, false, r.ids[n]);
  }

  lemma WithoutIssued(r: Run, side: bool, id: nat)
    requires RunOk(r)
    ensures var queue := r.engine.book.Side(side);
            var k := Find(queue, id);
            k < |queue| ==> AllIssued(r.ids, Without(queue, k))
  {
    hide SeqOf; hide ValidBook; hide Find;
    var queue := r.engine.book.Side(side);
    var k := Find(queue, id);
    if k < |queue| {
      forall j: nat | j < |queue| - 1 ensures Issued(r.ids, Without(queue, k)[j].id) {
        assert Issued(r.ids, queue[if j < k then j else j + 1].id);
      }
    }
  }

  lemma StepKeepsOk(r: Run, op: Op)
    requires RunOk(r) && Accepts(r, op)
    ensures RunOk(CurrentStep(r, op).0)
  {
    hide RunOk;
    match op
    case Submit(o) => if o.price < MAX_PRICE { SubmitKeepsOk(r, o); }
    case CancelNth(n, userId) => CancelKeepsOk(r, n, userId);
  }

  // ----- the simulation

  lemma CancelErased(r: Run, n: nat, userId: int)
    requires RunOk(r) && n < |r.ids|
    ensures var c := Cancel(r.engine.book, r.ids[n], userId);
            Cancel(EraseBook(r.engine.book), n + 1, userId)
            == Cancelled(EraseBook(c.book), if c.order.None? then None else Some(Erase(c.order.value)))
  {
    hide SeqOf; hide ValidBook; hide CancelOn;
    forall side: bool, i: nat | i < |r.engine.book.Side(side)|
      ensures SeqOf(r.engine.book.Side(side)[i].id) == n + 1 <==> r.engine.book.Side(side)[i].id == r.ids[n]
    {
      assert Issued(r.ids, r.engine.book.Side(side)[i].id);
    }
    CancelOnErased(r.engine.book, true, r.ids[n], userId);
    CancelOnErased(r.engine.book, false, r.ids[n], userId);
  }

  lemma StepSimulated(r: Run, l: Legacy, op: Op)
    requires Related(r, l) && Accepts(r, op)
    ensures var (r', seen) := CurrentStep(r, op);
            var (l', seen') := LegacyStep(l, op);
            Related(r', l') && seen' == EraseSeen(seen)
  {
    hide SeqOf; hide RunOk; hide Process; hide Cancel; hide EraseBook; hide EraseTrades; hide SlotZero;
    StepKeepsOk(r, op);
    match op
    case Submit(o) =>
      if o.price < MAX_PRICE {
        var e := r.engine;
        PackRoundTrip(e.counter + 1, e.free[|e.free| - 1]);
        ProcessErased(e.book, o.(id := PackId(e.counter + 1, e.free[|e.free| - 1])));
      }
    case CancelNth(n, userId) =>
      IssuedCount(r);
      IssuedNonZero(r, n);
      CancelMissed(r.engine.book, r.ids[n], userId);
      CancelErased(r, n, userId);
  }

  lemma IssuedCount(r: Run)
    requires RunOk(r)
    ensures |r.ids| == r.engine.counter
  {
  }

  lemma {:induction false} RunSimulated(r: Run, l: Legacy, ops: seq<Op>)
    requires Related(r, l) && AcceptsAll(r, ops)
    ensures var (r', seen) := CurrentRun(r, ops);
            var (l', seen') := LegacyRun(l, ops);
            Related(r', l') && seen' == EraseAllSeen(seen)
    decreases |ops|
  {
    hide Related; hide CurrentStep; hide LegacyStep; hide Accepts; hide EraseSeen;
    if ops != [] {
      StepSimulated(r, l, ops[0]);
      RunSimulated(CurrentStep(r, ops[0]).0, LegacyStep(l, ops[0]).0, ops[1..]);
    }
  }

  /** From the empty book, on every accepted sequence of requests: the same trades in the same
      order, the same rejected quantities and cancel answers, and a book that shows the same. */
  lemma EnginesAgree(ops: seq<Op>, limit: nat)
    requires AcceptsAll(START, ops)
    ensures var (r, seen) := CurrentRun(START, ops);
            var (l, seen') := LegacyRun(Legacy(EMPTY_BOOK, 0), ops);
            && seen' == EraseAllSeen(seen)
            && forall side: bool ::
                 && l.book.Side(side) == EraseOrders(r.engine.book.Side(side))
                 && BestPrice(l.book.Side(side)) == BestPrice(r.engine.book.Side(side))
                 && DepthOf(l.book.Side(side), limit) == DepthOf(r.engine.book.Side(side), limit)
                 && OrdersOf(l.book.Side(side), limit) == EraseSnapshots(OrdersOf(r.engine.book.Side(side), limit))
  {
    StartOk();
    RunSimulated(START, Legacy(EMPTY_BOOK, 0), ops);
    hide CurrentRun; hide LegacyRun; hide SeqOf; hide RunOk; hide DepthOf; hide OrdersOf;
    var r := CurrentRun(START, ops).0;
    forall side: bool
      ensures DepthOf(EraseOrders(r.engine.book.Side(side)), limit) == DepthOf(r.engine.book.Side(side), limit)
      ensures OrdersOf(EraseOrders(r.engine.book.Side(side)), limit)
        == EraseSnapshots(OrdersOf(r.engine.book.Side(side), limit))
    {
      DepthErased(r.engine.book.Side(side), limit);
      OrdersErased(r.engine.book.Side(side), limit);
    }
  }

  function EraseSnapshots(snaps: seq<OrderSnapshot>): seq<OrderSnapshot> {
    seq(|snaps|, i requires 0 <= i < |snaps| => snaps[i].(id := SeqOf(snaps[i].id)))
  }

  lemma {:induction false} SumErased(os: seq<Order>)
    ensures SumQuantity(EraseOrders(os)) == SumQuantity(os)
  {
    hide SeqOf;
    if os != [] {
      assert EraseOrders(os)[1..] == EraseOrders(os[1..]);
      SumErased(os[1..]);
    }
  }

  lemma {:induction false} RunErased(queue: seq<Order>)
    requires queue != []
    ensures RunLength(EraseOrders(queue)) == RunLength(queue)
  {
    hide SeqOf;
    if |queue| > 1 && queue[1].price == queue[0].price {
      assert EraseOrders(queue)[1..] == EraseOrders(queue[1..]);
      RunErased(queue[1..]);
    }
  }

  lemma {:induction false} DepthErased(queue: seq<Order>, limit: nat)
    ensures DepthOf(EraseOrders(queue), limit) == DepthOf(queue, limit)
    decreases limit
  {
    hide SeqOf; hide RunLength; hide SumQuantity;
    if limit > 0 && queue != [] {
      RunErased(queue);
      var n := RunLength(queue);
      SumErased(queue[..n]);
      assert EraseOrders(queue)[..n] == EraseOrders(queue[..n]);
      assert EraseOrders(queue)[n..] == EraseOrders(queue[n..]);
      DepthErased(queue[n..], limit - 1);
    }
  }

  lemma {:induction false} OrdersErased(queue: seq<Order>, limit: nat)
    ensures OrdersOf(EraseOrders(queue), limit) == EraseSnapshots(OrdersOf(queue, limit))
  {
    hide SeqOf;
    if limit > 0 && queue != [] {
      OrdersErased(queue[1..], limit - 1);
      assert EraseOrders(queue)[1..] == EraseOrders(queue[1..]);
      var rest := OrdersOf(queue[1..], limit - 1);
      assert EraseSnapshots([Snapshot(queue[0])] + rest)
          == [Snapshot(Erase(queue[0]))] + EraseSnapshots(rest);
    }
  }
}
