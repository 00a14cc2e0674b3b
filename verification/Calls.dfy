/** The CURRENT engine under any sequence of calls: orders, whether it has room for them or not, and
    cancellations of any id by anybody. */
module Calls {
  import opened Orders
  import opened PriceTime
  import opened BookLaws
  import opened CurrentEngine

  datatype Call = Place(order: Order) | CancelId(id: nat, userId: int)

  datatype Seen = Matched(trades: seq<Trade>, rejected: uint32) | Refused | CancelAnswer(order: Option<Order>)

  function CallStep(e: Engine, call: Call): (Engine, Seen) {
    match call
    case Place(o) =>
      if CanProcess(e, o) then
        var a := Accept(e, o);
        (a.engine, Matched(a.trades, a.rejected))
      else (e, Refused)
    case CancelId(id, userId) =>
      var c := CancelStep(e, id, userId);
      (c.0, CancelAnswer(c.1))
  }

  /** The call does not cancel id 0 out of an idle slot. */
  predicate Sound(e: Engine, call: Call) {
    call.CancelId? ==> !HitsIdle(e, call.id, call.userId)
  }

  predicate SoundAll(e: Engine, calls: seq<Call>)
    decreases |calls|
  {
    calls == [] || (Sound(e, calls[0]) && SoundAll(CallStep(e, calls[0]).0, calls[1..]))
  }

  function CallRun(e: Engine, calls: seq<Call>): Engine
    decreases |calls|
  {
    if calls == [] then e else CallRun(CallStep(e, calls[0]).0, calls[1..])
  }

  /** The id of the next accepted order. */
  function NextId(e: Engine): nat
    requires e.free != []
  {
    PackId(e.counter + 1, e.free[|e.free| - 1])
  }

  // ----- the slots

  function Times(slots: seq<nat>, x: nat): nat {
    if slots == [] then 0 else (if slots[0] == x then 1 else 0) + Times(slots[1..], x)
  }

  function TimesIn(queue: seq<Order>, x: nat): nat {
    if queue == [] then 0 else (if SlotOf(queue[0].id) == x then 1 else 0) + TimesIn(queue[1..], x)
  }

  /** How often a slot is free or taken by a resting order. */
  function Uses(e: Engine, x: nat): nat {
    Times(e.free, x) + TimesIn(e.book.bids, x) + TimesIn(e.book.asks, x)
  }

  lemma {:induction false} TimesAppend(a: seq<nat>, b: seq<nat>, x: nat)
    ensures Times(a + b, x) == Times(a, x) + Times(b, x)
  {
    if a == [] {
      assert a + b == b;
    } else {
      assert (a + b)[1..] == a[1..] + b;
      TimesAppend(a[1..], b, x);
    }
  }

  lemma TimesOne(y: nat, x: nat)
    ensures Times([y], x) == if y == x then 1 else 0
  {
    assert [y][1..] == [];
  }

  lemma {:induction false} TimesInAppend(xs: seq<Order>, ys: seq<Order>, x: nat)
    ensures TimesIn(xs + ys, x) == TimesIn(xs, x) + TimesIn(ys, x)
  {
    hide SlotOf;
    if xs == [] {
      assert xs + ys == ys;
    } else {
      assert (xs + ys)[1..] == xs[1..] + ys;
      TimesInAppend(xs[1..], ys, x);
    }
  }

  lemma TimesAround(xs: seq<Order>, o: Order, ys: seq<Order>, x: nat)
    ensures TimesIn(xs + [o] + ys, x) == TimesIn(xs + ys, x) + (if SlotOf(o.id) == x then 1 else 0)
  {
    hide SlotOf;
    TimesInAppend(xs + [o], ys, x);
    TimesInAppend(xs, [o], x);
    TimesInAppend(xs, ys, x);
    assert [o][1..] == [];
  }

  /** Matching moves the slots of the orders that it uses up out of the queue. */
  lemma {:induction false} MatchSlots(incoming: Order, resting: seq<Order>, x: nat)
    ensures var m := Match(incoming, resting);
            TimesIn(resting, x) == Times(SlotsOf(m.filled), x) + TimesIn(m.resting, x)
    decreases |resting|
  {
    hide SlotOf; hide Crosses; hide MakeTrade;
    if incoming.quantity > 0 && resting != [] && Crosses(incoming, resting[0].price)
      && incoming.userId != resting[0].userId {
      var head := resting[0];
      var fill := Min(incoming.quantity, head.quantity);
      if head.quantity == fill {
        var incoming' := incoming.(quantity := incoming.quantity - fill);
        MatchSlots(incoming', resting[1..], x);
        FilledFirst(head.id, Match(incoming', resting[1..]).filled, x);
      } else {
        assert ([head.(quantity := head.quantity - fill)] + resting[1..])[1..] == resting[1..];
      }
    }
  }

  lemma FilledFirst(id: nat, filled: seq<nat>, x: nat)
    ensures Times(SlotsOf([id] + filled), x) == (if SlotOf(id) == x then 1 else 0) + Times(SlotsOf(filled), x)
  {
    hide SlotOf;
    assert SlotsOf([id] + filled)[1..] == SlotsOf(filled);
  }

  lemma ProcessSlots(book: Book, o: Order, x: nat)
    ensures var p := Process(book, o);
            TimesIn(p.book.bids, x) + TimesIn(p.book.asks, x) + Times(SlotsOf(p.filled), x)
            == TimesIn(book.bids, x) + TimesIn(book.asks, x)
               + (if p.rest.quantity > 0 && SlotOf(o.id) == x then 1 else 0)
  {
    hide SlotOf; hide Match; hide Insert; hide SlotsOf; hide TimesIn; hide Times;
    var opp, own := book.Side(!o.side), book.Side(o.side);
    var m := Match(o, opp);
    MatchSlots(o, opp, x);
    MatchIncoming(o, opp);
    if m.incoming.quantity > 0 {
      var k := InsertPosition(m.incoming, own);
      TimesAround(own[..k], m.incoming, own[k..], x);
      assert own[..k] + own[k..] == own;
    }
  }

  lemma AcceptSlots(e: Engine, order: Order, x: nat)
    requires e.free != []
    ensures Uses(Accept(e, order).engine, x) == Uses(e, x)
  {
    hide SlotOf; hide PackId; hide Process; hide SlotsOf; hide TimesIn; hide Times; hide SlotZero;
    var n := |e.free| - 1;
    var slot, o := e.free[n], order.(id := NextId(e));
    var p := Process(e.book, o);
    PackRoundTrip(e.counter + 1, slot);
    ProcessSlots(e.book, o, x);
    assert e.free == e.free[..n] + [slot];
    TimesAppend(e.free[..n], [slot], x);
    TimesAppend(e.free[..n], SlotsOf(p.filled), x);
    TimesAppend(e.free[..n] + SlotsOf(p.filled), [slot], x);
    TimesOne(slot, x);
  }

  lemma CancelSlots(e: Engine, id: nat, userId: int, x: nat)
    ensures Uses(CancelStep(e, id, userId).0, x)
         == Uses(e, x) + (if HitsIdle(e, id, userId) && x == 0 then 1 else 0)
  {
    hide SlotOf; hide Find; hide TimesIn; hide Times; hide SlotZero; hide HitsIdle;
    var c := Cancel(e.book, id, userId);
    TimesAppend(e.free, [0], x);
    TimesOne(0, x);
    if !HitsIdle(e, id, userId) && c.order.Some? {
      var side := CancelOn(e.book, true, id, userId).order.Some?;
      var queue := e.book.Side(side);
      var k := Find(queue, id);
      TimesAround(queue[..k], queue[k], queue[k + 1..], x);
      assert queue[..k] + [queue[k]] + queue[k + 1..] == queue;
      TimesAppend(e.free, [SlotOf(id)], x);
      TimesOne(SlotOf(id), x);
    }
  }

  /** No call loses a slot or makes two of one, but for the cancel that hits idle slot 0: that one frees
      slot 0 a second time. */
  lemma StepSlots(e: Engine, call: Call, x: nat)
    ensures Uses(CallStep(e, call).0, x) == Uses(e, x) + (if !Sound(e, call) && x == 0 then 1 else 0)
  {
    hide Uses; hide Accept; hide CancelStep;
    match call
    case Place(o) => if CanProcess(e, o) { AcceptSlots(e, o, x); }
    case CancelId(id, userId) => CancelSlots(e, id, userId, x);
  }

  // ----- what every reachable state keeps

  /** Each slot once; and slot 0 stores the order that rests in it, if one does. */
  ghost predicate SlotsOk(e: Engine) {
    (forall x: nat :: Uses(e, x) == if x < MAX_ORDERS then 1 else 0) && SlotZero(e.book, e.slot0) == e.slot0
  }

  ghost predicate EngineOk(e: Engine) {
    && ValidBook(e.book, e.counter) && SlotsOk(e)
    && |e.free| + |e.book.bids| + |e.book.asks| == MAX_ORDERS
  }

  lemma {:induction false} EachOnce(free: seq<uint32>, n: nat, x: nat)
    requires |free| == n <= MAX_ORDERS && forall k: nat :: k < n ==> free[k] == n - 1 - k
    ensures Times(free, x) == if x < n then 1 else 0
    decreases n
  {
    if n > 0 { EachOnce(free[1..], n - 1, x); }
  }

  lemma InitialOk()
    ensures EngineOk(InitialEngine())
  {
    forall x: nat ensures Uses(InitialEngine(), x) == if x < MAX_ORDERS then 1 else 0 {
      EachOnce(InitialFree(), MAX_ORDERS, x);
    }
  }

  lemma SlotZeroAgain(book: Book, left: Order)
    ensures SlotZero(book, SlotZero(book, left)) == SlotZero(book, left)
  {
    hide SlotOf;
  }

  /** Nothing is lost in number either. */
  lemma AcceptCounts(e: Engine, order: Order)
    requires e.free != [] && Unspent(e.book.Side(!order.side))
    ensures var e' := Accept(e, order).engine;
            |e'.free| + |e'.book.bids| + |e'.book.asks| == |e.free| + |e.book.bids| + |e.book.asks|
  {
    hide SlotOf; hide Match; hide Insert; hide SlotZero; hide PackId;
    var o := order.(id := NextId(e));
    var opp, own := e.book.Side(!o.side), e.book.Side(o.side);
    MatchFills(o, opp);
    var k := InsertPosition(Match(o, opp).incoming, own);
  }

  lemma ProcessShows(book: Book, o: Order)
    requires UnspentBook(book)
    ensures var p, opp := Process(book, o), book.Side(!o.side);
            && p.rest == o.(quantity := p.rest.quantity)
            && |p.filled| == |opp| - |p.book.Side(!o.side)| <= |p.trades| <= |p.filled| + 1 && |p.trades| <= |opp|
            && (forall i: nat :: i < |p.trades| ==> Records(p.trades[i], o, opp[i]))
            && (forall i: nat :: i < |p.filled| ==> p.filled[i] == opp[i].id)
  {
    hide Match; hide Insert; hide Crosses; hide Records; hide RestingId;
    var opp := book.Side(!o.side);
    MatchFromFront(o, opp);
    MatchIncoming(o, opp);
    assert |opp| - |Match(o, opp).resting| == |Match(o, opp).filled|;
  }

  /** What an accepted order does, said of the engine before and after it: it is numbered one up and takes
      the top free slot; under that id it trades with the front of the other side; the slots of those
      it used up are pushed in that order, and its own last if nothing of it rests. */
  lemma AcceptShows(e: Engine, order: Order)
    requires CanProcess(e, order) && UnspentBook(e.book)
    ensures var a, top := Accept(e, order), |e.free| - 1;
            var o := order.(id := PackId(e.counter + 1, e.free[top]));
            var opp, opp', free' := e.book.Side(!o.side), a.engine.book.Side(!o.side), a.engine.free;
            var k := |opp| - |opp'|;
            && a.engine.counter == e.counter + 1
            && a.rest == o.(quantity := a.rest.quantity)
            && |a.trades| <= |opp| && (forall i: nat :: i < |a.trades| ==> Records(a.trades[i], o, opp[i]))
            && 0 <= k <= |a.trades| <= k + 1
            && |free'| == top + k + (if a.rest.quantity > 0 then 0 else 1) && free'[..top] == e.free[..top]
            && (forall i: nat :: i < k ==> free'[top + i] == SlotOf(opp[i].id))
            && (a.rest.quantity == 0 ==> free'[top + k] == e.free[top])
  {
    hide Process; hide SlotZero; hide PackId; hide SlotOf; hide Records; hide UnspentBook;
    ProcessShows(e.book, order.(id := NextId(e)));
  }

  lemma AcceptKeepsOk(e: Engine, order: Order)
    requires EngineOk(e) && CanProcess(e, order) && e.counter + 1 < TWO_32
    ensures EngineOk(Accept(e, order).engine)
  {
    hide Uses; hide SlotOf; hide SeqOf; hide Process; hide ValidBook; hide SlotZero; hide SlotsOf; hide PackId;
    forall x: nat ensures Uses(Accept(e, order).engine, x) == Uses(e, x) { AcceptSlots(e, order, x); }
    var left := if 0 in e.free then e.slot0 else e.slot0.(id := 0, quantity := 0);
    var o := order.(id := NextId(e));
    PackRoundTrip(e.counter + 1, e.free[|e.free| - 1]);
    ProcessKeepsValid(e.book, e.counter, o);
    BookPositive(e.book, e.counter, !o.side);
    AcceptCounts(e, order);
    SlotZeroAgain(Process(e.book, o).book, left);
  }

  lemma CancelKeepsOk(e: Engine, id: nat, userId: int)
    requires EngineOk(e) && !HitsIdle(e, id, userId)
    ensures EngineOk(CancelStep(e, id, userId).0)
  {
    forall x: nat ensures Uses(CancelStep(e, id, userId).0, x) == Uses(e, x) { CancelSlots(e, id, userId, x); }
    hide Uses; hide SlotOf; hide SeqOf; hide ValidBook; hide Find; hide SlotZero; hide HitsIdle;
    CancelKeepsValid(e.book, e.counter, id, userId);
    SlotZeroAgain(Cancel(e.book, id, userId).book, e.slot0.(id := 0));
  }

  lemma CallKeepsOk(e: Engine, call: Call)
    requires EngineOk(e) && Sound(e, call) && e.counter + 1 < TWO_32
    ensures EngineOk(CallStep(e, call).0) && e.counter <= CallStep(e, call).0.counter <= e.counter + 1
  {
    hide EngineOk; hide SlotZero; hide Cancel; hide Process;
    match call
    case Place(o) => if CanProcess(e, o) { AcceptKeepsOk(e, o); }
    case CancelId(id, userId) => CancelKeepsOk(e, id, userId);
  }

  lemma {:induction false} RunKeepsOk(e: Engine, calls: seq<Call>)
    requires EngineOk(e) && SoundAll(e, calls) && e.counter + |calls| < TWO_32
    ensures EngineOk(CallRun(e, calls)) && CallRun(e, calls).counter <= e.counter + |calls|
    decreases |calls|
  {
    hide EngineOk; hide CallStep; hide Sound;
    if calls != [] {
      CallKeepsOk(e, calls[0]);
      RunKeepsOk(CallStep(e, calls[0]).0, calls[1..]);
    }
  }

  /** A slot is idle exactly if no order rests in it. */
  lemma IdleSlot(e: Engine, x: uint32)
    requires EngineOk(e) && x < MAX_ORDERS
    ensures x in e.free <==> InSlot(e.book.bids, x) == |e.book.bids| && InSlot(e.book.asks, x) == |e.book.asks|
  {
    hide SlotOf; hide TimesIn; hide Times; hide ValidBook;
    UsedInQueue(e.book.bids, x);
    UsedInQueue(e.book.asks, x);
    UsedFree(e.free, x);
    assert Uses(e, x) == 1;
  }

  lemma {:induction false} UsedInQueue(queue: seq<Order>, x: uint32)
    ensures TimesIn(queue, x) > 0 <==> InSlot(queue, x) < |queue|
  {
    hide SlotOf;
    if queue != [] { UsedInQueue(queue[1..], x); }
  }

  lemma {:induction false} UsedFree(free: seq<uint32>, x: uint32)
    ensures Times(free, x) > 0 <==> x in free
  {
    if free != [] { UsedFree(free[1..], x); }
  }

  // ----- what slot 0 stores

  lemma {:induction false} UsedTwice(queue: seq<Order>, i: nat, k: nat, x: uint32)
    requires i < k < |queue| && SlotOf(queue[i].id) == SlotOf(queue[k].id) == x
    ensures TimesIn(queue, x) >= 2
  {
    hide SlotOf;
    if i > 0 {
      UsedTwice(queue[1..], i - 1, k - 1, x);
    } else {
      UsedOnce(queue[1..], k - 1, x);
    }
  }

  lemma {:induction false} UsedOnce(queue: seq<Order>, k: nat, x: uint32)
    requires k < |queue| && SlotOf(queue[k].id) == x
    ensures TimesIn(queue, x) >= 1
  {
    hide SlotOf;
    if k > 0 { UsedOnce(queue[1..], k - 1, x); }
  }

  /** Slot 0 stores the one order that rests in it. */
  lemma StoredInZero(e: Engine, side: bool, k: nat)
    requires EngineOk(e) && k < |e.book.Side(side)| && SlotOf(e.book.Side(side)[k].id) == 0
    ensures e.book.Side(side)[k] == e.slot0 && 0 !in e.free
  {
    hide SlotOf; hide TimesIn; hide Times; hide ValidBook;
    var bids, asks := e.book.bids, e.book.asks;
    var i, j := InSlot(bids, 0), InSlot(asks, 0);
    assert Uses(e, 0) == 1;
    UsedFree(e.free, 0);
    UsedOnce(e.book.Side(side), k, 0);
    if side {
      if i < k { UsedTwice(bids, i, k, 0); }
    } else {
      if i < |bids| { UsedOnce(bids, i, 0); }
      if j < k { UsedTwice(asks, j, k, 0); }
    }
  }

  /** Where an order of the book after a match comes from. */
  lemma PlaceOrigin(e: Engine, order: Order, side: bool, k: nat)
    requires UnspentBook(e.book) && CanProcess(e, order) && k < |Accept(e, order).engine.book.Side(side)|
    ensures var y := Accept(e, order).engine.book.Side(side)[k];
            || y == order.(id := NextId(e), quantity := y.quantity)
            || exists j: nat :: j < |e.book.Side(side)| && y == e.book.Side(side)[j].(quantity := y.quantity)
  {
    hide Match; hide Insert; hide SlotsOf; hide SlotZero; hide PackId; hide SlotOf;
    var o := order.(id := NextId(e));
    var opp, own := e.book.Side(!o.side), e.book.Side(o.side);
    var m := Match(o, opp);
    MatchLeavesTail(o, opp);
    MatchIncoming(o, opp);
    var book' := Accept(e, order).engine.book;
    var y := book'.Side(side)[k];
    if side != o.side {
      var n := |opp| - |m.resting| + k;
      assert y == opp[n].(quantity := y.quantity);
    } else if m.incoming.quantity > 0 {
      var p := InsertPosition(m.incoming, own);
      assert book'.Side(side) == own[..p] + [m.incoming] + own[p..];
      if k != p { assert y == own[if k < p then k else k - 1].(quantity := y.quantity); }
    } else {
      assert y == own[k].(quantity := y.quantity);
    }
  }

  /** No resting order has the next id. */
  lemma NextIdFresh(e: Engine, side: bool, j: nat)
    requires EngineOk(e) && e.free != [] && e.counter + 1 < TWO_32 && j < |e.book.Side(side)|
    ensures e.book.Side(side)[j].id != NextId(e)
  {
    hide SeqOf; hide PackId; hide SlotsOk; hide Sorted;
    PackRoundTrip(e.counter + 1, e.free[|e.free| - 1]);
    assert ValidOrder(side, e.counter, e.book.Side(side)[j]);
  }

  lemma OkUnspent(e: Engine)
    requires EngineOk(e)
    ensures UnspentBook(e.book)
  {
    BookPositive(e.book, e.counter, true);
    BookPositive(e.book, e.counter, false);
  }

  /** How placing an order changes what slot 0 stores. */
  lemma PlacedInZero(e: Engine, order: Order)
    requires EngineOk(e) && CanProcess(e, order) && e.counter + 1 < TWO_32
    ensures var e' := Accept(e, order).engine;
            if 0 in e'.free then e'.slot0 == (if 0 in e.free then e.slot0 else e.slot0.(id := 0, quantity := 0))
            else e'.slot0.id == NextId(e) || (0 !in e.free && e'.slot0 == e.slot0.(quantity := e'.slot0.quantity))
  {
    AcceptKeepsOk(e, order);
    OkUnspent(e);
    hide SlotOf; hide Process; hide EngineOk; hide SlotsOf; hide PackId;
    var e' := Accept(e, order).engine;
    IdleSlot(e', 0);
    if 0 !in e'.free {
      var side := InSlot(e'.book.bids, 0) < |e'.book.bids|;
      var k := InSlot(e'.book.Side(side), 0);
      PlaceOrigin(e, order, side, k);
      var y := e'.book.Side(side)[k];
      if y.id != NextId(e) {
        var j: nat :| j < |e.book.Side(side)| && y == e.book.Side(side)[j].(quantity := y.quantity);
        StoredInZero(e, side, j);
      }
    }
  }

  /** Where a cancelled order, and an order of the book after it, come from. */
  lemma CancelOrigin(book: Book, id: nat, userId: int) returns (side: bool, n: nat)
    requires Cancel(book, id, userId).order.Some?
    ensures n < |book.Side(side)| && book.Side(side)[n] == Cancel(book, id, userId).order.value
    ensures book.Side(side)[n].id == id
    ensures Cancel(book, id, userId).book == book.WithSide(side, Without(book.Side(side), n))
  {
    hide Find;
    side := CancelOn(book, true, id, userId).order.Some?;
    n := Find(book.Side(side), id);
  }

  /** How cancelling an order changes what slot 0 stores. */
  lemma CancelledInZero(e: Engine, id: nat, userId: int)
    requires EngineOk(e) && !HitsIdle(e, id, userId)
    ensures var (e', answer) := CancelStep(e, id, userId);
            && (answer.None? ==> e' == e)
            && (answer.Some? ==> answer.value.id == id)
            && (answer.Some? && SlotOf(id) == 0 ==>
                  0 !in e.free && answer.value == e.slot0 && 0 in e'.free && e'.slot0 == e.slot0.(id := 0))
            && (answer.Some? && SlotOf(id) != 0 ==>
                  (0 in e'.free <==> 0 in e.free) && e'.slot0 == (if 0 in e.free then e.slot0.(id := 0) else e.slot0))
  {
    hide EngineOk; hide SlotOf; hide HitsIdle; hide Cancel; hide InSlot;
    CancelKeepsOk(e, id, userId);
    var (e', answer) := CancelStep(e, id, userId);
    IdleSlot(e, 0);
    IdleSlot(e', 0);
    if answer.Some? {
      var side, n := CancelOrigin(e.book, id, userId);
      if SlotOf(id) == 0 {
        StoredInZero(e, side, n);
        assert e'.free[|e.free|] == 0;
      } else if 0 !in e'.free {
        var side' := InSlot(e'.book.bids, 0) < |e'.book.bids|;
        var k := InSlot(e'.book.Side(side'), 0);
        var j := if side' == side && k >= n then k + 1 else k;
        assert e'.book.Side(side')[k] == e.book.Side(side')[j];
        StoredInZero(e, side', j);
      }
    }
  }

  // ----- a hit with nothing left

  /** A hit, whatever is left in the slot, frees slot 0 a second time. */
  lemma HitDoubles(e: Engine, userId: int)
    requires EngineOk(e) && HitsIdle(e, 0, userId)
    ensures Uses(CallStep(e, CancelId(0, userId)).0, 0) == 2
  {
    hide Uses;
    StepSlots(e, CancelId(0, userId), 0);
  }

  lemma FirstBuy(company: nat)
    ensures var e := CallStep(InitialEngine(), Place(Order(0, 7, 0, 10, 5, company, true))).0;
            var bought := Order(TWO_32, 7, 0, 10, 5, company, true);
            e == Engine(Book([bought], []), 1, InitialFree()[..MAX_ORDERS - 2] + [1], bought) && 0 !in e.free
  {
    var e0, bought := InitialEngine(), Order(TWO_32, 7, 0, 10, 5, company, true);
    assert e0.free == e0.free[..MAX_ORDERS - 2] + [1] + [0] && PackId(1, 0) == TWO_32;
    assert e0.free[..MAX_ORDERS - 1] == e0.free[..MAX_ORDERS - 2] + [1];
    assert Process(EMPTY_BOOK, bought) == Processed(Book([bought], []), [], 0, bought, []);
  }

  /** On a new book user 7 buys 5 at 10 and user 8 sells him 5: slot 0 is idle, and nothing is left in it. When
      user 7 then cancels id 0 he is told that it worked; nothing is refunded, but slot 0 is free twice, and
      the next three orders to rest are given slots 0, 1 and 0. */
  lemma WorthlessHit(company: nat)
    ensures var e1 := CallStep(InitialEngine(), Place(Order(0, 7, 0, 10, 5, company, true))).0;
            var e2 := CallStep(e1, Place(Order(0, 8, 0, 10, 5, company, false))).0;
            var (e3, seen) := CallStep(e2, CancelId(0, 7));
            && HitsIdle(e2, 0, 7) && seen == CancelAnswer(Some(e2.slot0)) && e2.slot0.quantity == 0
            && e3.free == InitialFree()[..MAX_ORDERS - 2] + [0, 1, 0]
  {
    hide InitialFree; hide Process;
    FirstBuy(company);
    var bought := Order(TWO_32, 7, 0, 10, 5, company, true);
    var sold := Order(2 * TWO_32 + 1, 8, 0, 10, 5, company, false);
    var e1 := CallStep(InitialEngine(), Place(Order(0, 7, 0, 10, 5, company, true))).0;
    assert PackId(2, 1) == 2 * TWO_32 + 1;
    FullFill(bought, sold);
    var rest := InitialFree()[..MAX_ORDERS - 2];
    var e2 := CallStep(e1, Place(Order(0, 8, 0, 10, 5, company, false))).0;
    assert e2 == Engine(EMPTY_BOOK, 2, rest + [0] + [1], bought.(id := 0, quantity := 0));
    assert e2.free[|rest|] == 0;
  }

  lemma FullFill(bought: Order, sold: Order)
    requires bought.side && !sold.side && bought.price == sold.price && bought.quantity == sold.quantity > 0
    requires bought.userId != sold.userId && SlotOf(bought.id) == 0
    ensures Process(Book([bought], []), sold)
         == Processed(EMPTY_BOOK, [MakeTrade(sold, bought, sold.quantity)], 0, sold.(quantity := 0), [bought.id])
    ensures SlotsOf([bought.id]) == [0]
  {
    assert [bought][1..] == [];
    assert Match(sold.(quantity := 0), []) == Matching([], sold.(quantity := 0), 0, [], []);
  }
}
