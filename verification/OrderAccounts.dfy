/** Following the reservation of one buy order through a whole run: every cent of it is paid to
    sellers, returned as price improvement, refunded, or still reserved by what rests. */
module OrderAccounts {
  import opened Orders
  import opened PriceTime
  import opened BookLaws
  import opened CurrentEngine
  import opened Calls

  /** What buy orders with this id have reserved. */
  function Reserved(id: nat, o: Order): nat {
    if o.side && o.id == id then Value(o.price, o.quantity) else 0
  }

  function ReservedIn(id: nat, queue: seq<Order>): nat {
    if queue == [] then 0 else Reserved(id, queue[0]) + ReservedIn(id, queue[1..])
  }

  function Payment(id: nat, t: Trade): nat {
    if t.buyOrderId == id then Value(t.price, t.quantity) else 0
  }

  /** What settlement returns to the buyer of a trade below his limit. */
  function Improvement(id: nat, t: Trade): nat {
    if t.buyOrderId == id && t.buyerLimitPrice > t.price then Value(t.buyerLimitPrice - t.price, t.quantity) else 0
  }

  function Spent(id: nat, trades: seq<Trade>): nat {
    if trades == [] then 0 else Payment(id, trades[0]) + Improvement(id, trades[0]) + Spent(id, trades[1..])
  }

  lemma FillSpends(id: nat, incoming: Order, head: Order, fill: uint32)
    requires head.side == !incoming.side && fill <= incoming.quantity && fill <= head.quantity
      && Crosses(incoming, head.price)
    ensures var t := MakeTrade(incoming, head, fill);
            Reserved(id, incoming) + Reserved(id, head)
            == Payment(id, t) + Improvement(id, t) + Reserved(id, incoming.(quantity := incoming.quantity - fill))
               + Reserved(id, head.(quantity := head.quantity - fill))
  {
    hide Value;
    var t := MakeTrade(incoming, head, fill);
    ValueSplits(incoming.price, fill, incoming.quantity - fill);
    ValueSplits(head.price, fill, head.quantity - fill);
    ValueImproved(t.buyerLimitPrice, t.price, fill);
    Free(fill);
  }

  lemma Free(quantity: uint32)
    ensures Value(0, quantity) == 0
  {
  }

  lemma NothingReserved(id: nat, o: Order)
    requires o.quantity == 0
    ensures Reserved(id, o) == 0
  {
    ValueNothing(o.price);
  }

  lemma {:induction false} MatchSpends(id: nat, incoming: Order, resting: seq<Order>)
    requires AllOn(!incoming.side, resting)
    ensures var m := Match(incoming, resting);
            Reserved(id, incoming) + ReservedIn(id, resting)
            == Spent(id, m.trades) + Reserved(id, incoming.(quantity := m.rejected)) + Reserved(id, m.incoming)
               + ReservedIn(id, m.resting)
    decreases |resting|
  {
    hide Reserved; hide Payment; hide Improvement;
    NothingReserved(id, incoming.(quantity := 0));
    if incoming.quantity == 0 || resting == [] || !Crosses(incoming, resting[0].price)
        || incoming.userId == resting[0].userId {
    } else {
      var head := resting[0];
      var fill := Min(incoming.quantity, head.quantity);
      var incoming' := incoming.(quantity := incoming.quantity - fill);
      var t := MakeTrade(incoming, head, fill);
      FillSpends(id, incoming, head, fill);
      if head.quantity == fill {
        NothingReserved(id, head.(quantity := head.quantity - fill));
        MatchSpends(id, incoming', resting[1..]);
        var m' := Match(incoming', resting[1..]);
        SpentFirst(id, t, m'.trades);
        SameReserved(id, incoming, incoming', m'.rejected);
      } else {
        SpentFirst(id, t, []);
        assert ([head.(quantity := head.quantity - fill)] + resting[1..])[1..] == resting[1..];
      }
    }
  }

  lemma SpentFirst(id: nat, t: Trade, trades: seq<Trade>)
    ensures Spent(id, [t] + trades) == Payment(id, t) + Improvement(id, t) + Spent(id, trades)
  {
    assert ([t] + trades)[1..] == trades;
  }

  lemma SameReserved(id: nat, o: Order, o': Order, quantity: uint32)
    requires o' == o.(quantity := o'.quantity)
    ensures Reserved(id, o.(quantity := quantity)) == Reserved(id, o'.(quantity := quantity))
  {
  }

  lemma {:induction false} ReservedAppend(id: nat, xs: seq<Order>, ys: seq<Order>)
    ensures ReservedIn(id, xs + ys) == ReservedIn(id, xs) + ReservedIn(id, ys)
  {
    hide Reserved;
    if xs == [] {
      assert xs + ys == ys;
    } else {
      assert (xs + ys)[1..] == xs[1..] + ys;
      ReservedAppend(id, xs[1..], ys);
    }
  }

  lemma ReservedAround(id: nat, xs: seq<Order>, o: Order, ys: seq<Order>)
    ensures ReservedIn(id, xs + [o] + ys) == Reserved(id, o) + ReservedIn(id, xs + ys)
  {
    hide Reserved;
    ReservedAppend(id, xs + [o], ys);
    ReservedAppend(id, xs, [o]);
    ReservedAppend(id, xs, ys);
    assert [o][1..] == [];
  }

  function ReservedBy(id: nat, book: Book): nat {
    ReservedIn(id, book.bids) + ReservedIn(id, book.asks)
  }

  lemma ProcessSpends(id: nat, book: Book, o: Order)
    requires AllOn(true, book.bids) && AllOn(false, book.asks)
    ensures var p := Process(book, o);
            Reserved(id, o) + ReservedBy(id, book)
            == Spent(id, p.trades) + Reserved(id, o.(quantity := p.rejected)) + ReservedBy(id, p.book)
  {
    hide Match; hide Insert; hide Reserved; hide Spent; hide ReservedIn;
    var opp, own := book.Side(!o.side), book.Side(o.side);
    MatchSpends(id, o, opp);
    MatchIncoming(o, opp);
    var m := Match(o, opp);
    if m.incoming.quantity > 0 {
      var k := InsertPosition(m.incoming, own);
      ReservedAround(id, own[..k], m.incoming, own[k..]);
      assert own[..k] + own[k..] == own;
    } else {
      NothingReserved(id, m.incoming);
    }
  }

  lemma CancelReturns(id: nat, book: Book, cancelId: nat, userId: int)
    ensures var c := Cancel(book, cancelId, userId);
            ReservedBy(id, book) == ReservedBy(id, c.book) + (if c.order.Some? then Reserved(id, c.order.value) else 0)
  {
    hide Find; hide Reserved; hide ReservedIn;
    var c := Cancel(book, cancelId, userId);
    if c.order.Some? {
      var side := CancelOn(book, true, cancelId, userId).order.Some?;
      var queue := book.Side(side);
      var k := Find(queue, cancelId);
      ReservedAround(id, queue[..k], queue[k], queue[k + 1..]);
      assert queue[..k] + [queue[k]] + queue[k + 1..] == queue;
    }
  }

  // ----- along a run

  /** The reservation that a call brings in for this id. */
  function PaidIn(id: nat, e: Engine, call: Call): nat {
    if call.Place? && CanProcess(e, call.order) then Reserved(id, call.order.(id := NextId(e))) else 0
  }

  /** What the answer to a call pays out for this id: to sellers, as improvement, as refund of what was
      rejected or cancelled. */
  function PaidOut(id: nat, e: Engine, call: Call): nat {
    match (call, CallStep(e, call).1)
    case (Place(o), Matched(trades, rejected)) =>
      Spent(id, trades) + (if CanProcess(e, o) then Reserved(id, o.(id := NextId(e), quantity := rejected)) else 0)
    case (_, CancelAnswer(Some(o))) => Reserved(id, o)
    case _ => 0
  }

  function PaidInAll(id: nat, e: Engine, calls: seq<Call>): nat
    decreases |calls|
  {
    if calls == [] then 0 else PaidIn(id, e, calls[0]) + PaidInAll(id, CallStep(e, calls[0]).0, calls[1..])
  }

  function PaidOutAll(id: nat, e: Engine, calls: seq<Call>): nat
    decreases |calls|
  {
    if calls == [] then 0 else PaidOut(id, e, calls[0]) + PaidOutAll(id, CallStep(e, calls[0]).0, calls[1..])
  }

  lemma StepPays(id: nat, e: Engine, call: Call)
    requires Sided(e.book) && Sound(e, call)
    ensures PaidIn(id, e, call) + ReservedBy(id, e.book)
      == PaidOut(id, e, call) + ReservedBy(id, CallStep(e, call).0.book)
    ensures Sided(CallStep(e, call).0.book)
  {
    hide Process; hide Cancel; hide Reserved; hide ReservedBy; hide Spent; hide PackId; hide SlotsOf; hide SlotOf;
    hide SlotZero; hide HitsIdle;
    match call
    case Place(o) =>
      if CanProcess(e, o) {
        ProcessSpends(id, e.book, o.(id := NextId(e)));
        ProcessSided(e.book, o.(id := NextId(e)));
      }
    case CancelId(cancelled, userId) =>
      CancelMissed(e.book, cancelled, userId);
      CancelReturns(id, e.book, cancelled, userId);
      CancelSided(e.book, cancelled, userId);
  }

  /** Along any calls that do not hit an idle slot, what is reserved for an id at the end is what was, plus
      what came in, less what was paid out. */
  lemma {:induction false} RunPays(id: nat, e: Engine, calls: seq<Call>)
    requires Sided(e.book) && SoundAll(e, calls)
    ensures ReservedBy(id, e.book) + PaidInAll(id, e, calls)
         == PaidOutAll(id, e, calls) + ReservedBy(id, CallRun(e, calls).book)
    decreases |calls|
  {
    hide Sided; hide PaidIn; hide PaidOut; hide ReservedBy; hide CallStep; hide Sound;
    if calls != [] {
      StepPays(id, e, calls[0]);
      RunPays(id, CallStep(e, calls[0]).0, calls[1..]);
    }
  }

  // ----- the account of one order

  lemma OkSided(e: Engine)
    requires EngineOk(e)
    ensures Sided(e.book)
  {
    hide SeqOf; hide SlotsOk;
    var b := e.book;
    forall k: nat | k < |b.bids| ensures b.bids[k].side { assert ValidOrder(true, e.counter, b.bids[k]); }
    forall k: nat | k < |b.asks| ensures !b.asks[k].side { assert ValidOrder(false, e.counter, b.asks[k]); }
  }

  /** Nothing is reserved for an id that was not issued yet. */
  lemma {:induction false} NothingYet(id: nat, side: bool, counter: nat, queue: seq<Order>)
    requires SeqOf(id) > counter && forall k: nat :: k < |queue| ==> ValidOrder(side, counter, queue[k])
    ensures ReservedIn(id, queue) == 0
  {
    hide SeqOf;
    if queue != [] {
      assert ValidOrder(side, counter, queue[0]);
      forall k: nat | k < |queue[1..]| ensures ValidOrder(side, counter, queue[1..][k]) {
        assert ValidOrder(side, counter, queue[k + 1]);
      }
      NothingYet(id, side, counter, queue[1..]);
    }
  }

  /** A call brings in nothing for an id issued before, and issues its own id at most. */
  lemma StepBringsNothing(id: nat, e: Engine, call: Call)
    requires SeqOf(id) <= e.counter && e.counter + 1 < TWO_32
    ensures PaidIn(id, e, call) == 0 && e.counter <= CallStep(e, call).0.counter <= e.counter + 1
  {
    hide Process; hide Cancel; hide SlotZero; hide SeqOf; hide PackId;
    if e.free != [] { PackRoundTrip(e.counter + 1, e.free[|e.free| - 1]); }
  }

  lemma {:induction false} RunBringsNothing(id: nat, e: Engine, calls: seq<Call>)
    requires SeqOf(id) <= e.counter && e.counter + |calls| < TWO_32
    ensures PaidInAll(id, e, calls) == 0
    decreases |calls|
  {
    hide PaidIn; hide CallStep; hide SeqOf;
    if calls != [] {
      StepBringsNothing(id, e, calls[0]);
      RunBringsNothing(id, CallStep(e, calls[0]).0, calls[1..]);
    }
  }

  /** An accepted buy order reserves its limit price times its quantity under its new id. */
  lemma SubmissionPays(e: Engine, o: Order)
    requires EngineOk(e) && CanProcess(e, o) && o.side && e.counter + 1 < TWO_32
    ensures var e' := CallStep(e, Place(o)).0;
            && Value(o.price, o.quantity) == PaidOut(NextId(e), e, Place(o)) + ReservedBy(NextId(e), e'.book)
            && SeqOf(NextId(e)) <= e'.counter == e.counter + 1
  {
    hide Process; hide Value; hide PackId; hide SeqOf; hide PaidOut; hide SlotZero; hide ValidOrder; hide SlotsOk;
    PackRoundTrip(e.counter + 1, e.free[|e.free| - 1]);
    NothingYet(NextId(e), true, e.counter, e.book.bids);
    NothingYet(NextId(e), false, e.counter, e.book.asks);
    OkSided(e);
    StepPays(NextId(e), e, Place(o));
  }

  /** At every point after any accepted buy order, whatever is placed or cancelled then short of hitting an
      idle slot: its limit price times its original quantity is what its sellers were paid, plus its
      price improvements and its reject and cancel refunds, plus what it still reserves. */
  lemma EveryCentAccounted(e: Engine, o: Order, calls: seq<Call>)
    requires EngineOk(e) && CanProcess(e, o) && o.side && e.counter + 1 + |calls| < TWO_32
    requires SoundAll(CallStep(e, Place(o)).0, calls)
    ensures var e' := CallStep(e, Place(o)).0;
            Value(o.price, o.quantity)
            == PaidOut(NextId(e), e, Place(o)) + PaidOutAll(NextId(e), e', calls)
               + ReservedBy(NextId(e), CallRun(e', calls).book)
  {
    hide EngineOk; hide PaidOut; hide PaidOutAll; hide ReservedBy; hide CallStep; hide CallRun; hide SoundAll;
    hide Value;
    var e' := CallStep(e, Place(o)).0;
    SubmissionPays(e, o);
    CallKeepsOk(e, Place(o));
    OkSided(e');
    RunBringsNothing(NextId(e), e', calls);
    RunPays(NextId(e), e', calls);
  }

  // ----- the second refund

  /** What cancels refund for this id along a run. */
  function Returned(id: nat, e: Engine, call: Call): nat {
    if call.CancelId? && CallStep(e, call).1.order.Some? then Reserved(id, CallStep(e, call).1.order.value) else 0
  }

  function ReturnedAll(id: nat, e: Engine, calls: seq<Call>): nat
    decreases |calls|
  {
    if calls == [] then 0 else Returned(id, e, calls[0]) + ReturnedAll(id, CallStep(e, calls[0]).0, calls[1..])
  }

  /** The id of the order that rested in slot 0 last, if it was t before. */
  function Tenant(t: nat, e: Engine): nat {
    if 0 in e.free then t else e.slot0.id
  }

  function LastTenant(t: nat, e: Engine, calls: seq<Call>): nat
    decreases |calls|
  {
    if calls == [] then t
    else
      var e' := CallStep(e, calls[0]).0;
      LastTenant(Tenant(t, e'), e', calls[1..])
  }

  /** While an order was the last in slot 0, the slot keeps its owner, price and side; and once it is idle,
      as much as cancelling the order returned. */
  ghost predicate Remains(o: Order, id: nat, t: nat, e: Engine, returned: nat) {
    t == id ==>
      && SlotOf(id) == 0
      && e.slot0.userId == o.userId && e.slot0.price == o.price && e.slot0.side == o.side
      && if 0 in e.free then Value(e.slot0.price, e.slot0.quantity) == returned
         else e.slot0.id == id && returned == 0
  }

  lemma StepRemains(o: Order, id: nat, t: nat, e: Engine, returned: nat, call: Call)
    requires EngineOk(e) && Sound(e, call) && e.counter + 1 < TWO_32 && id != 0 && SeqOf(id) <= e.counter && o.side
    requires Remains(o, id, t, e, returned) && (0 !in e.free ==> t == e.slot0.id)
    ensures var e' := CallStep(e, call).0;
            Remains(o, id, Tenant(t, e'), e', returned + Returned(id, e, call))
  {
    hide EngineOk; hide SeqOf; hide SlotOf; hide Accept; hide CancelStep; hide Value; hide HitsIdle; hide PackId;
    match call
    case Place(order) =>
      if CanProcess(e, order) {
        PackRoundTrip(e.counter + 1, e.free[|e.free| - 1]);
        PlacedInZero(e, order);
        ValueNothing(e.slot0.price);
      }
    case CancelId(cancelled, userId) =>
      CancelledInZero(e, cancelled, userId);
  }

  lemma {:induction false} RunRemains(o: Order, id: nat, t: nat, e: Engine, returned: nat, calls: seq<Call>)
    requires EngineOk(e) && SoundAll(e, calls) && e.counter + |calls| < TWO_32
    requires id != 0 && SeqOf(id) <= e.counter && o.side
    requires Remains(o, id, t, e, returned) && (0 !in e.free ==> t == e.slot0.id)
    ensures Remains(o, id, LastTenant(t, e, calls), CallRun(e, calls), returned + ReturnedAll(id, e, calls))
    decreases |calls|
  {
    hide EngineOk; hide Remains; hide CallStep; hide Sound; hide SeqOf; hide Returned;
    if calls != [] {
      var e' := CallStep(e, calls[0]).0;
      StepRemains(o, id, t, e, returned, calls[0]);
      CallKeepsOk(e, calls[0]);
      RunRemains(o, id, Tenant(t, e'), e', returned + Returned(id, e, calls[0]), calls[1..]);
    }
  }

  lemma PlacedRemains(e: Engine, o: Order)
    requires EngineOk(e) && CanProcess(e, o) && o.side && e.counter + 1 < TWO_32
    ensures var e' := CallStep(e, Place(o)).0; Remains(o, NextId(e), Tenant(0, e'), e', 0) && NextId(e) != 0
  {
    AcceptKeepsOk(e, o);
    PackRoundTrip(e.counter + 1, e.free[|e.free| - 1]);
    var e' := Accept(e, o).engine;
    hide EngineOk; hide SlotOf; hide PackId; hide Accept;
    if 0 !in e'.free && e'.slot0.id == NextId(e) {
      PlacedStored(e, o);
    }
  }

  /** If slot 0 stores an order under the new id, it is what is left of the new order. */
  lemma PlacedStored(e: Engine, o: Order)
    requires EngineOk(e) && CanProcess(e, o) && e.counter + 1 < TWO_32
    requires 0 !in Accept(e, o).engine.free && Accept(e, o).engine.slot0.id == NextId(e)
    ensures SlotOf(NextId(e)) == 0
    ensures var x := Accept(e, o).engine.slot0; x == o.(id := NextId(e), quantity := x.quantity)
  {
    AcceptKeepsOk(e, o);
    PackRoundTrip(e.counter + 1, e.free[|e.free| - 1]);
    var e' := Accept(e, o).engine;
    IdleSlot(e', 0);
    var side := InSlot(e'.book.bids, 0) < |e'.book.bids|;
    var k := InSlot(e'.book.Side(side), 0);
    OkUnspent(e);
    PlaceOrigin(e, o, side, k);
    hide Accept; hide EngineOk; hide SlotOf; hide PackId;
    forall j: nat | j < |e.book.Side(side)| ensures e.book.Side(side)[j].id != NextId(e) { NextIdFresh(e, side, j); }
  }

  /** The value of the remains that a hit on idle slot 0 pays to the owner of this order, if it was the last
      one in the slot. */
  function PaidAgain(id: nat, t: nat, e: Engine): nat {
    if t == id && e.slot0.side then Value(e.slot0.price, e.slot0.quantity) else 0
  }

  lemma TenantStored(t: nat, e: Engine)
    ensures 0 !in e.free ==> Tenant(t, e) == e.slot0.id
  {
  }

  lemma RemainsPaid(o: Order, id: nat, t: nat, e: Engine, returned: nat)
    requires Remains(o, id, t, e, returned) && o.side && 0 in e.free
    ensures PaidAgain(id, t, e) == if t == id then returned else 0
    ensures t == id ==> e.slot0.userId == o.userId && e.slot0.price == o.price && e.slot0.side
  {
  }

  lemma HitAnswered(e: Engine, userId: int)
    requires HitsIdle(e, 0, userId)
    ensures CallStep(e, CancelId(0, userId)).1 == CancelAnswer(Some(e.slot0)) && 0 in e.free && e.slot0.userId == userId
  {
  }

  /** The first hit on idle slot 0, after any accepted buy order and any calls: it is answered with what slot
      0 stores. If the order was the last one in that slot, these are its remains, they go to its owner, and
      are worth exactly what cancelling it returned: the order is then paid for that much beyond its
      reservation. So it is paid again exactly if it was the last one there and was cancelled with a
      value left. */
  lemma HitPaysAgain(e: Engine, o: Order, calls: seq<Call>, userId: int)
    requires EngineOk(e) && CanProcess(e, o) && o.side && e.counter + 1 + |calls| < TWO_32
    requires SoundAll(CallStep(e, Place(o)).0, calls)
    requires HitsIdle(CallRun(CallStep(e, Place(o)).0, calls), 0, userId)
    ensures var id, e' := NextId(e), CallStep(e, Place(o)).0;
            var end, t := CallRun(e', calls), LastTenant(Tenant(0, e'), e', calls);
            && CallStep(end, CancelId(0, userId)).1 == CancelAnswer(Some(end.slot0))
            && (t == id ==> end.slot0.userId == userId == o.userId && end.slot0.price == o.price && end.slot0.side)
            && PaidAgain(id, t, end) == (if t == id then ReturnedAll(id, e', calls) else 0)
            && (PaidAgain(id, t, end) > 0 <==> t == id && ReturnedAll(id, e', calls) > 0)
            && PaidOut(id, e, Place(o)) + PaidOutAll(id, e', calls) + ReservedBy(id, end.book) + PaidAgain(id, t, end)
               == Value(o.price, o.quantity) + (if t == id then ReturnedAll(id, e', calls) else 0)
  {
    hide EngineOk; hide PaidOut; hide PaidOutAll; hide ReservedBy; hide CallStep; hide CallRun; hide SoundAll;
    hide Value;
    hide ReturnedAll; hide LastTenant; hide Tenant; hide SeqOf; hide PackId; hide HitsIdle; hide Remains;
    hide PaidAgain;
    var id, e' := NextId(e), CallStep(e, Place(o)).0;
    HitAnswered(CallRun(e', calls), userId);
    EveryCentAccounted(e, o, calls);
    PlacedRemains(e, o);
    SubmissionPays(e, o);
    CallKeepsOk(e, Place(o));
    TenantStored(0, e');
    RunRemains(o, id, Tenant(0, e'), e', 0, calls);
    RemainsPaid(o, id, LastTenant(Tenant(0, e'), e', calls), CallRun(e', calls), ReturnedAll(id, e', calls));
  }
}
