/** What holds after any calls from the empty book, and the two engine objects side by side. */
module Reachable {
  import opened Orders
  import opened PriceTime
  import opened BookLaws
  import opened Calls
  import opened CurrentEngine
  import opened LegacyEngine
  import opened Parity

  /** Price-time priority, an uncrossed book, and no slot lost, after any calls from the empty book that
      do not hit an idle slot; sequence numbers last for 2^32 calls. */
  lemma ReachableBook(calls: seq<Call>)
    requires SoundAll(InitialEngine(), calls) && |calls| < TWO_32
    ensures var e := CallRun(InitialEngine(), calls);
            && (forall side: bool, i: nat, j: nat :: i < j < |e.book.Side(side)| ==>
                  Prior(side, e.book.Side(side)[i], e.book.Side(side)[j]))
            && (e.book.bids != [] && e.book.asks != [] ==> BestPrice(e.book.bids) < BestPrice(e.book.asks))
            && (e.free == [] <==> |e.book.bids| + |e.book.asks| == MAX_ORDERS)
            && (forall x: nat :: Uses(e, x) == if x < MAX_ORDERS then 1 else 0)
  {
    InitialOk();
    RunKeepsOk(InitialEngine(), calls);
    hide CallRun; hide SeqOf; hide SlotZero; hide Uses;
  }

  /** Whatever came before, an incoming order trades in strict price-time order, and nobody who still
      rests should have been served before somebody who was. */
  lemma ReachablePriority(calls: seq<Call>, incoming: Order)
    requires SoundAll(InitialEngine(), calls) && |calls| < TWO_32
    ensures var resting := CallRun(InitialEngine(), calls).book.Side(!incoming.side);
            var m := Match(incoming, resting);
            && (forall i: nat, j: nat :: i < j < |m.trades| ==> TradedBefore(incoming, m.trades[i], m.trades[j]))
            && |m.trades| <= |resting|
            && (forall i: nat, k: nat :: i < |m.trades| && k < |m.resting| ==>
                  m.resting[k].id == RestingId(incoming, m.trades[i])
                  || Prior(!incoming.side, resting[i], m.resting[k]))
  {
    InitialOk();
    RunKeepsOk(InitialEngine(), calls);
    var e := CallRun(InitialEngine(), calls);
    hide CallRun; hide Match; hide Prior; hide Uses; hide SlotZero;
    ServedInPriority(incoming, e.counter, e.book.Side(!incoming.side));
  }

  // ----- ids do not come back before the sequence numbers do

  ghost predicate Rests(book: Book, id: nat) {
    exists side: bool, k: nat :: k < |book.Side(side)| && book.Side(side)[k].id == id
  }

  ghost predicate Absent(queue: seq<Order>, id: nat) {
    forall k: nat :: k < |queue| ==> queue[k].id != id
  }

  lemma AbsentBothSides(book: Book, id: nat)
    ensures !Rests(book, id) <==> Absent(book.bids, id) && Absent(book.asks, id)
  {
    assert book.Side(true) == book.bids && book.Side(false) == book.asks;
  }

  lemma AbsentFromTail(queue: seq<Order>, queue': seq<Order>, id: nat)
    requires Absent(queue, id) && TailOf(queue, queue')
    ensures Absent(queue', id)
  {
  }

  lemma AbsentInserted(queue: seq<Order>, o: Order, id: nat)
    requires Absent(queue, id)
    ensures Absent(Insert(o, queue), id) <==> o.id != id
  {
    hide Insert;
    var k := InsertPosition(o, queue);
    assert Insert(o, queue)[k] == o;
  }

  lemma AbsentWithout(queue: seq<Order>, cancelled: nat, id: nat)
    requires Absent(queue, id)
    ensures var k := Find(queue, cancelled); k < |queue| ==> Absent(Without(queue, k), id)
  {
    hide Find;
  }

  /** The call places an order that is given this id and does not trade or fail completely: it is the next
      in sequence, the id's slot is on top of the free stack, and before any order of its own user there
      is less to take than it asks for. */
  predicate Reissues(e: Engine, call: Call, id: nat) {
    && call.Place? && CanProcess(e, call.order) && NextId(e) == id
    && var o := call.order;
       !OwnAhead(o, e.book.Side(!o.side)) && Available(o, e.book.Side(!o.side)) < o.quantity
  }

  predicate ReissuedIn(e: Engine, calls: seq<Call>, id: nat)
    decreases |calls|
  {
    calls != [] && (Reissues(e, calls[0], id) || ReissuedIn(CallStep(e, calls[0]).0, calls[1..], id))
  }

  lemma {:induction false} SameTakings(o: Order, id: nat, queue: seq<Order>)
    ensures OwnAhead(o.(id := id), queue) == OwnAhead(o, queue) && Available(o.(id := id), queue) == Available(o, queue)
  {
    if queue != [] { SameTakings(o, id, queue[1..]); }
  }

  lemma PlaceRevives(e: Engine, o: Order, id: nat)
    requires UnspentBook(e.book) && !Rests(e.book, id) && CanProcess(e, o)
    ensures Rests(Accept(e, o).engine.book, id) <==> Reissues(e, Place(o), id)
    ensures UnspentBook(Accept(e, o).engine.book)
  {
    hide Match; hide Insert; hide TailOf; hide Absent; hide Rests; hide SlotsOf; hide SlotZero; hide PackId;
    hide OwnAhead;
    hide Available; hide Crosses;
    var o1 := o.(id := NextId(e));
    var opp, own := e.book.Side(!o.side), e.book.Side(o.side);
    var m := Match(o1, opp);
    AbsentBothSides(e.book, id);
    AbsentBothSides(Accept(e, o).engine.book, id);
    MatchLeavesTail(o1, opp);
    TailUnspent(opp, m.resting);
    MatchIncoming(o1, opp);
    MatchClosedForm(o1, opp);
    SameTakings(o, NextId(e), opp);
    AbsentFromTail(opp, m.resting, id);
    AbsentInserted(own, m.incoming, id);
    if m.incoming.quantity > 0 { InsertUnspent(own, m.incoming); }
  }

  lemma TailUnspent(queue: seq<Order>, queue': seq<Order>)
    requires TailOf(queue, queue')
    ensures Unspent(queue')
  {
  }

  lemma InsertUnspent(queue: seq<Order>, o: Order)
    requires Unspent(queue) && o.quantity > 0
    ensures Unspent(Insert(o, queue))
  {
    hide Insert;
    var k := InsertPosition(o, queue);
  }

  /** Exactly when a dead id rests again. */
  lemma RestsAgain(e: Engine, call: Call, id: nat)
    requires UnspentBook(e.book) && !Rests(e.book, id) && Sound(e, call)
    ensures Rests(CallStep(e, call).0.book, id) <==> Reissues(e, call, id)
    ensures UnspentBook(CallStep(e, call).0.book)
  {
    hide Accept; hide Reissues; hide Find; hide SlotZero; hide Absent; hide Rests; hide HitsIdle;
    match call
    case Place(o) => if CanProcess(e, o) { PlaceRevives(e, o, id); } else { NotReissued(e, o, id); }
    case CancelId(cancelled, userId) =>
      NoOrderPlaced(e, call, id);
      AbsentBothSides(e.book, id);
      AbsentBothSides(CallStep(e, call).0.book, id);
      AbsentWithout(e.book.bids, cancelled, id);
      AbsentWithout(e.book.asks, cancelled, id);
  }

  lemma NotReissued(e: Engine, o: Order, id: nat)
    requires !CanProcess(e, o)
    ensures !Reissues(e, Place(o), id)
  {
  }

  lemma NoOrderPlaced(e: Engine, call: Call, id: nat)
    requires call.CancelId?
    ensures !Reissues(e, call, id)
  {
  }

  /** Recycled slots do not revive ids: an id that does not rest never rests again, unless an order is given
      it; and cancelling it then fails and changes nothing, unless it is id 0 and hits an idle slot. */
  lemma {:induction false} DeadForever(e: Engine, calls: seq<Call>, id: nat, userId: int)
    requires UnspentBook(e.book) && !Rests(e.book, id) && SoundAll(e, calls) && !ReissuedIn(e, calls, id)
    ensures var e' := CallRun(e, calls);
            && !Rests(e'.book, id)
            && (CancelStep(e', id, userId).1.None? <==> !HitsIdle(e', id, userId))
            && (!HitsIdle(e', id, userId) ==> CancelStep(e', id, userId).0 == e')
    decreases |calls|
  {
    hide UnspentBook; hide CallStep; hide Sound; hide Rests; hide Reissues; hide CancelStep; hide HitsIdle;
    if calls == [] {
      DeadCancel(e, id, userId);
    } else {
      RestsAgain(e, calls[0], id);
      DeadForever(CallStep(e, calls[0]).0, calls[1..], id, userId);
    }
  }

  lemma DeadCancel(e: Engine, id: nat, userId: int)
    requires !Rests(e.book, id)
    ensures CancelStep(e, id, userId).1.None? <==> !HitsIdle(e, id, userId)
    ensures !HitsIdle(e, id, userId) ==> CancelStep(e, id, userId).0 == e
  {
    hide Rests; hide SlotZero;
    AbsentBothSides(e.book, id);
    forall o | o in e.book.bids ensures o.id != id { var k: nat :| k < |e.book.bids| && e.book.bids[k] == o; }
    forall o | o in e.book.asks ensures o.id != id { var k: nat :| k < |e.book.asks| && e.book.asks[k] == o; }
    FindNone(e.book.bids, id);
    FindNone(e.book.asks, id);
  }

  /** An id given out before is not given out again within 2^32 orders. */
  lemma {:induction false} NotReissuedSoon(e: Engine, calls: seq<Call>, id: nat)
    requires SeqOf(id) <= e.counter && e.counter + |calls| < TWO_32
    ensures !ReissuedIn(e, calls, id)
    decreases |calls|
  {
    hide SeqOf; hide Process; hide Cancel; hide PackId; hide SlotZero; hide OwnAhead; hide Available;
    if calls != [] {
      if e.free != [] { PackRoundTrip(e.counter + 1, e.free[|e.free| - 1]); }
      NotReissuedSoon(CallStep(e, calls[0]).0, calls[1..], id);
    }
  }

  /** But 2^32 orders later the same slot gives the same id. */
  lemma SameIdAgain(seqNo: nat, slot: uint32)
    ensures PackId(seqNo + TWO_32, slot) == PackId(seqNo, slot)
  {
  }

  // ----- the engines themselves, in lockstep

  function TradesOf(seen: Seen): seq<Trade> {
    if seen.Matched? then seen.trades else []
  }

  /** All trades of a run's answers, in order. */
  function TradesSeen(answers: seq<Seen>): seq<Trade> {
    if answers == [] then [] else TradesOf(answers[0]) + TradesSeen(answers[1..])
  }

  /** Both engines are well formed, and have seen the same so far. */
  ghost predicate InStep(current: OrderBook, legacy: OrderBookLegacy, ids: seq<nat>)
    reads current, current.Footprint(), legacy
  {
    && current.Valid() && legacy.Valid()
    && Related(Run(current.State(), ids), legacy.State())
    && legacy.trades == EraseTrades(current.trades)
  }

  method SubmitBoth(current: OrderBook, legacy: OrderBookLegacy, order: Order, ids: seq<nat>)
    returns (ids': seq<nat>, rejected: uint32, rejected': uint32)
    requires InStep(current, legacy, ids) && Accepts(Run(current.State(), ids), Submit(order))
      && order.price < MAX_PRICE
    modifies current.Footprint(), legacy
    ensures InStep(current, legacy, ids') && rejected' == rejected
    ensures var (r, seen) := CurrentStep(Run(old(current.State()), ids), Submit(order));
            Run(current.State(), ids') == r && current.trades == old(current.trades) + TradesOf(seen)
  {
    hide OrderBook.Sound; hide OrderBookLegacy.Valid; hide RunOk; hide Process; hide SlotsOf; hide SeqOf;
    hide EraseBook;
    hide SlotZero; hide Accept; hide EraseTrades;
    StepSimulated(Run(current.State(), ids), legacy.State(), Submit(order));
    ids' := ids + [PackId(current.counter + 1, current.free[|current.free| - 1])];
    ghost var t0, a := current.trades, Accept(current.State(), order);
    EraseTradesAppend(t0, a.trades);
    var rest: Order, rest': Order;
    if order.side {
      rest, rejected := current.ProcessBuyOrder(order);
      rest', rejected' := legacy.ProcessBuyOrder(order);
    } else {
      rest, rejected := current.ProcessSellOrder(order);
      rest', rejected' := legacy.ProcessSellOrder(order);
    }
  }

  lemma EraseTradesAppend(a: seq<Trade>, b: seq<Trade>)
    ensures EraseTrades(a + b) == EraseTrades(a) + EraseTrades(b)
  {
    hide SeqOf;
  }

  method CancelBoth(current: OrderBook, legacy: OrderBookLegacy, n: nat, userId: int, ids: seq<nat>)
    returns (answer: Option<Order>, answer': Option<Order>)
    requires InStep(current, legacy, ids) && Accepts(Run(current.State(), ids), CancelNth(n, userId))
    modifies current.Footprint(), legacy
    ensures InStep(current, legacy, ids) && EraseSeen(CancelAnswer(answer)) == CancelAnswer(answer')
    ensures var (r, seen) := CurrentStep(Run(old(current.State()), ids), CancelNth(n, userId));
            Run(current.State(), ids) == r && current.trades == old(current.trades) + TradesOf(seen)
  {
    hide OrderBook.Sound; hide OrderBookLegacy.Valid; hide RunOk; hide Cancel; hide SlotsOf; hide SeqOf;
    hide EraseBook; hide EraseTrades;
    IssuedNonZero(Run(current.State(), ids), n);
    StepSimulated(Run(current.State(), ids), legacy.State(), CancelNth(n, userId));
    answer := current.CancelOrder(ids[n], userId);
    answer' := legacy.CancelOrder(n + 1, userId);
  }

  method StepBoth(current: OrderBook, legacy: OrderBookLegacy, op: Op, ids: seq<nat>) returns (ids': seq<nat>)
    requires InStep(current, legacy, ids) && Accepts(Run(current.State(), ids), op)
    modifies current.Footprint(), legacy
    ensures InStep(current, legacy, ids')
    ensures var (r, seen) := CurrentStep(Run(old(current.State()), ids), op);
            Run(current.State(), ids') == r && current.trades == old(current.trades) + TradesOf(seen)
  {
    hide OrderBook.Valid; hide OrderBookLegacy.Valid; hide Related;
    ids' := ids;
    match op {
      case Submit(order) =>
        if order.price < MAX_PRICE {
          var rejected, rejected';
          ids', rejected, rejected' := SubmitBoth(current, legacy, order, ids);
        }
      case CancelNth(n, userId) =>
        var answer, answer' := CancelBoth(current, legacy, n, userId, ids);
    }
  }

  lemma RunUnfolds(r: Run, ops: seq<Op>, i: nat)
    requires i < |ops| && AcceptsAll(r, ops[i..])
    ensures Accepts(r, ops[i]) && AcceptsAll(CurrentStep(r, ops[i]).0, ops[i + 1..])
    ensures var (r', seen) := CurrentStep(r, ops[i]);
            && CurrentRun(r, ops[i..]).0 == CurrentRun(r', ops[i + 1..]).0
            && TradesSeen(CurrentRun(r, ops[i..]).1) == TradesOf(seen) + TradesSeen(CurrentRun(r', ops[i + 1..]).1)
  {
    hide CurrentStep; hide Accepts; hide TradesOf;
    assert ops[i..][1..] == ops[i + 1..];
    var (r', seen) := CurrentStep(r, ops[i]);
    assert ([seen] + CurrentRun(r', ops[i + 1..]).1)[1..] == CurrentRun(r', ops[i + 1..]).1;
  }

  // The parity tests' script runner: both engines are given the same requests, and must emit the
  // same trades and show the same depth at the end.
  method RunScript(ops: seq<Op>, limit: nat)
    returns (trades: seq<Trade>, legacyTrades: seq<Trade>, bids: seq<DepthLevel>, legacyBids: seq<DepthLevel>,
             asks: seq<DepthLevel>, legacyAsks: seq<DepthLevel>)
    requires AcceptsAll(START, ops)
    ensures trades == TradesSeen(CurrentRun(START, ops).1) && legacyTrades == EraseTrades(trades)
    ensures legacyBids == bids == DepthOf(CurrentRun(START, ops).0.engine.book.bids, limit)
    ensures legacyAsks == asks == DepthOf(CurrentRun(START, ops).0.engine.book.asks, limit)
  {
    hide OrderBook.Sound; hide OrderBookLegacy.Valid; hide RunOk; hide CurrentStep; hide Accepts; hide AcceptsAll;
    hide CurrentRun; hide DepthOf; hide SeqOf; hide TradesSeen; hide TradesOf;
    var current := new OrderBook();
    var legacy := new OrderBookLegacy();
    var ids: seq<nat> := [];
    StartOk();
    EraseTradesEmpty();
    ghost var (last, answers) := CurrentRun(START, ops);
    ghost var all := TradesSeen(answers);
    assert [] + all == all;
    var i := 0;
    assert ops[0..] == ops;
    while i < |ops|
      invariant i <= |ops| && fresh(current.Footprint()) && fresh(legacy)
      invariant InStep(current, legacy, ids)
      invariant AcceptsAll(Run(current.State(), ids), ops[i..])
      invariant CurrentRun(Run(current.State(), ids), ops[i..]).0 == last
      invariant current.trades + TradesSeen(CurrentRun(Run(current.State(), ids), ops[i..]).1) == all
    {
      RunUnfolds(Run(current.State(), ids), ops, i);
      Assoc(current.trades, TradesOf(CurrentStep(Run(current.State(), ids), ops[i]).1),
            TradesSeen(CurrentRun(CurrentStep(Run(current.State(), ids), ops[i]).0, ops[i + 1..]).1));
      ids := StepBoth(current, legacy, ops[i], ids);
      i := i + 1;
    }
    RunEnds(Run(current.State(), ids), ops);
    trades, legacyTrades := current.trades, legacy.trades;
    bids, legacyBids, asks, legacyAsks := ShowBoth(current, legacy, ids, limit);
  }

  method ShowBoth(current: OrderBook, legacy: OrderBookLegacy, ghost ids: seq<nat>, limit: nat)
    returns (bids: seq<DepthLevel>, legacyBids: seq<DepthLevel>, asks: seq<DepthLevel>, legacyAsks: seq<DepthLevel>)
    requires InStep(current, legacy, ids)
    ensures legacyBids == bids == DepthOf(current.State().book.bids, limit)
    ensures legacyAsks == asks == DepthOf(current.State().book.asks, limit)
  {
    hide OrderBook.Sound; hide OrderBookLegacy.Valid; hide RunOk; hide DepthOf; hide SeqOf; hide EraseTrades;
    DepthErased(current.State().book.bids, limit);
    DepthErased(current.State().book.asks, limit);
    bids := current.BidDepth(limit);
    legacyBids := legacy.BidDepth(limit);
    asks := current.AskDepth(limit);
    legacyAsks := legacy.AskDepth(limit);
  }

  lemma RunEnds(r: Run, ops: seq<Op>)
    ensures AcceptsAll(r, ops[|ops|..]) && CurrentRun(r, ops[|ops|..]).0 == r
    ensures forall ts :: ts + TradesSeen(CurrentRun(r, ops[|ops|..]).1) == ts
  {
  }

  lemma EraseTradesEmpty()
    ensures EraseTrades([]) == []
  {
  }
}
