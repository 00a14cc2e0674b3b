/** What an order, a trade and a database task are worth to a group of users (any list of them
    without repetition), in cash or in the shares of one company, and how matching moves that
    value around. */
module Ledger {
  import opened Orders
  import opened PriceTime
  import opened Accounts
  import opened CurrentEngine

  /** Cash, or the shares of one company. */
  datatype Asset = Cash | Shares(company: nat)

  // ----- reservations

  /** What an order on a company's book has reserved, if it belongs to one of the users. */
  function OrderValue(us: seq<int>, a: Asset, company: nat, o: Order): nat {
    if o.userId !in us then 0
    else match a
         case Cash => if o.side then Value(o.price, o.quantity) else 0
         case Shares(c) => if !o.side && c == company then o.quantity else 0
  }

  function QueueValue(us: seq<int>, a: Asset, company: nat, queue: seq<Order>): nat {
    if queue == [] then 0 else OrderValue(us, a, company, queue[0]) + QueueValue(us, a, company, queue[1..])
  }

  function BookValue(us: seq<int>, a: Asset, company: nat, book: Book): nat {
    QueueValue(us, a, company, book.bids) + QueueValue(us, a, company, book.asks)
  }

  /** What a trade uses up: the buyer's limit per share, and the seller's shares. */
  function TradeValue(us: seq<int>, a: Asset, company: nat, t: Trade): nat {
    match a
    case Cash => if t.buyerId in us then Value(t.buyerLimitPrice, t.quantity) else 0
    case Shares(c) => if t.sellerId in us && c == company then t.quantity else 0
  }

  function TradesValue(us: seq<int>, a: Asset, company: nat, trades: seq<Trade>): nat {
    if trades == [] then 0 else TradeValue(us, a, company, trades[0]) + TradesValue(us, a, company, trades[1..])
  }

  lemma FillValue(us: seq<int>, a: Asset, company: nat, incoming: Order, head: Order, fill: uint32)
    requires head.side == !incoming.side && fill <= incoming.quantity && fill <= head.quantity
    ensures OrderValue(us, a, company, incoming) + OrderValue(us, a, company, head)
         == TradeValue(us, a, company, MakeTrade(incoming, head, fill))
            + OrderValue(us, a, company, incoming.(quantity := incoming.quantity - fill))
            + OrderValue(us, a, company, head.(quantity := head.quantity - fill))
  {
    hide Value;
    ValueSplits(incoming.price, fill, incoming.quantity - fill);
    ValueSplits(head.price, fill, head.quantity - fill);
  }

  lemma SpentValue(us: seq<int>, a: Asset, company: nat, o: Order)
    requires o.quantity == 0
    ensures OrderValue(us, a, company, o) == 0
  {
    ValueNothing(o.price);
  }

  /** Matching conserves value: what was reserved is traded, rejected, or still reserved. */
  lemma {:induction false} MatchValue(us: seq<int>, a: Asset, company: nat, incoming: Order, resting: seq<Order>)
    requires AllOn(!incoming.side, resting)
    ensures var m := Match(incoming, resting);
            OrderValue(us, a, company, incoming) + QueueValue(us, a, company, resting)
            == TradesValue(us, a, company, m.trades) + OrderValue(us, a, company, incoming.(quantity := m.rejected))
               + OrderValue(us, a, company, m.incoming) + QueueValue(us, a, company, m.resting)
    ensures AllOn(!incoming.side, Match(incoming, resting).resting)
    decreases |resting|
  {
    hide OrderValue; hide TradeValue; hide Crosses; hide MakeTrade;
    MatchSided(incoming, !incoming.side, resting);
    SpentValue(us, a, company, incoming.(quantity := 0));
    if incoming.quantity == 0 || resting == [] || !Crosses(incoming, resting[0].price)
        || incoming.userId == resting[0].userId {
    } else {
      var head := resting[0];
      var fill := Min(incoming.quantity, head.quantity);
      var incoming' := incoming.(quantity := incoming.quantity - fill);
      FillValue(us, a, company, incoming, head, fill);
      if head.quantity == fill {
        SpentValue(us, a, company, head.(quantity := head.quantity - fill));
        MatchValue(us, a, company, incoming', resting[1..]);
        TradesAfter(us, a, company, MakeTrade(incoming, head, fill), Match(incoming', resting[1..]).trades);
        SameReservation(us, a, company, incoming, incoming', Match(incoming', resting[1..]).rejected);
      } else {
        TradesAfter(us, a, company, MakeTrade(incoming, head, fill), []);
        assert ([head.(quantity := head.quantity - fill)] + resting[1..])[1..] == resting[1..];
      }
    }
  }

  lemma SameReservation(us: seq<int>, a: Asset, company: nat, o: Order, o': Order, quantity: uint32)
    requires o' == o.(quantity := o'.quantity)
    ensures OrderValue(us, a, company, o.(quantity := quantity))
      == OrderValue(us, a, company, o'.(quantity := quantity))
  {
  }

  lemma TradesAfter(us: seq<int>, a: Asset, company: nat, t: Trade, trades: seq<Trade>)
    ensures TradesValue(us, a, company, [t] + trades) == TradeValue(us, a, company, t)
      + TradesValue(us, a, company, trades)
  {
    assert ([t] + trades)[1..] == trades;
  }

  lemma {:induction false} QueueAppend(us: seq<int>, a: Asset, company: nat, xs: seq<Order>, ys: seq<Order>)
    ensures QueueValue(us, a, company, xs + ys) == QueueValue(us, a, company, xs) + QueueValue(us, a, company, ys)
  {
    hide OrderValue;
    if xs == [] {
      assert xs + ys == ys;
    } else {
      assert (xs + ys)[1..] == xs[1..] + ys;
      QueueAppend(us, a, company, xs[1..], ys);
    }
  }

  lemma QueueSingle(us: seq<int>, a: Asset, company: nat, o: Order)
    ensures QueueValue(us, a, company, [o]) == OrderValue(us, a, company, o)
  {
  }

  lemma InsertValue(us: seq<int>, a: Asset, company: nat, o: Order, queue: seq<Order>)
    requires AllOn(o.side, queue)
    ensures QueueValue(us, a, company, Insert(o, queue))
      == OrderValue(us, a, company, o) + QueueValue(us, a, company, queue)
    ensures AllOn(o.side, Insert(o, queue))
  {
    hide Insert; hide OrderValue; hide QueueValue;
    var k := InsertPosition(o, queue);
    assert queue == queue[..k] + queue[k..];
    QueueAppend(us, a, company, queue[..k], queue[k..]);
    QueueAppend(us, a, company, queue[..k] + [o], queue[k..]);
    QueueAppend(us, a, company, queue[..k], [o]);
    QueueSingle(us, a, company, o);
  }

  lemma WithoutValue(us: seq<int>, a: Asset, company: nat, queue: seq<Order>, k: nat)
    requires k < |queue|
    ensures QueueValue(us, a, company, queue) == OrderValue(us, a, company, queue[k])
      + QueueValue(us, a, company, Without(queue, k))
  {
    hide OrderValue; hide QueueValue;
    assert queue == queue[..k] + ([queue[k]] + queue[k + 1..]);
    QueueAppend(us, a, company, queue[..k], [queue[k]] + queue[k + 1..]);
    QueueAppend(us, a, company, [queue[k]], queue[k + 1..]);
    QueueAppend(us, a, company, queue[..k], queue[k + 1..]);
    QueueSingle(us, a, company, queue[k]);
  }

  // ----- the engine worker

  datatype EngineTask =
    | OrderTask(company: nat, order: Order)
    | CancelTask(company: nat, orderId: nat, userId: int)

  function SettleTask(t: Trade): DbTask {
    Settle(t.buyerId, t.sellerId, t.quantity, t.price, t.buyerLimitPrice, t.companyId)
  }

  function LogTask(t: Trade): DbTask {
    LogTrade(TradeRow(t.companyId, t.buyerId, t.sellerId, t.price, t.quantity))
  }

  /** on_trade: a settlement and a log entry per trade. */
  function TradeTasks(trades: seq<Trade>): seq<DbTask> {
    if trades == [] then [] else [SettleTask(trades[0]), LogTask(trades[0])] + TradeTasks(trades[1..])
  }

  /** The tasks start with a settlement and a log entry of each trade, in the order of the trades. */
  ghost predicate TwoPerTrade(tasks: seq<DbTask>, trades: seq<Trade>) {
    && 2 * |trades| <= |tasks|
    && forall i: nat :: i < |trades| ==>
         var t := trades[i];
         && tasks[2 * i] == Settle(t.buyerId, t.sellerId, t.quantity, t.price, t.buyerLimitPrice, t.companyId)
         && tasks[2 * i + 1] == LogTrade(TradeRow(t.companyId, t.buyerId, t.sellerId, t.price, t.quantity))
  }

  lemma {:induction false} TasksPerTrade(trades: seq<Trade>)
    ensures |TradeTasks(trades)| == 2 * |trades| && TwoPerTrade(TradeTasks(trades), trades)
  {
    if trades != [] {
      TasksPerTrade(trades[1..]);
      var tasks, rest := TradeTasks(trades), TradeTasks(trades[1..]);
      forall i: nat | 0 < i < |trades|
        ensures trades[i] == trades[1..][i - 1]
        ensures tasks[2 * i] == rest[2 * (i - 1)] && tasks[2 * i + 1] == rest[2 * (i - 1) + 1] {}
    }
  }

  lemma NoTrade(tasks: seq<DbTask>)
    ensures TwoPerTrade(tasks, [])
  {
  }

  lemma TwoAndMore(tasks: seq<DbTask>, more: DbTask, trades: seq<Trade>)
    requires TwoPerTrade(tasks, trades)
    ensures TwoPerTrade(tasks + [more], trades)
  {
  }

  /** Once they are applied, the trade log has grown by one row per trade, in order. */
  lemma {:induction false} TradesLogged(trades: seq<Trade>)
    ensures |LoggedIn(TradeTasks(trades))| == |trades|
    ensures forall i: nat :: i < |trades| ==>
              var t, row := trades[i], LoggedIn(TradeTasks(trades))[i];
              && row.company == t.companyId && row.buyer == t.buyerId && row.seller == t.sellerId
              && row.price == t.price && row.quantity == t.quantity
  {
    if trades != [] {
      TradesLogged(trades[1..]);
      LoggedAppend([SettleTask(trades[0]), LogTask(trades[0])], TradeTasks(trades[1..]));
      LoggedAppend([SettleTask(trades[0])], [LogTask(trades[0])]);
      LoggedOne(SettleTask(trades[0]));
      LoggedOne(LogTask(trades[0]));
      assert [SettleTask(trades[0])] + [LogTask(trades[0])] == [SettleTask(trades[0]), LogTask(trades[0])];
    }
  }

  function RefundTask(user: int, side: bool, quantity: uint32, price: uint32, company: nat): DbTask {
    if side then RefundCash(user, quantity, price) else RefundShares(user, quantity, company)
  }

  datatype Served = Served(engine: Engine, tasks: seq<DbTask>, trades: seq<Trade>)

  /** One ORDER or CANCEL task on the book of its company. */
  function Serve(e: Engine, task: EngineTask): Served {
    match task
    case OrderTask(company, o) =>
      if !CanProcess(e, o) then Served(e, [RefundTask(o.userId, o.side, o.quantity, o.price, company)], [])
      else
        var s := Accept(e, o);
        var refund := if s.rejected > 0 then [RefundTask(o.userId, o.side, s.rejected, o.price, company)] else [];
        Served(s.engine, TradeTasks(s.trades) + refund, s.trades)
    case CancelTask(company, orderId, userId) =>
      var (e', answer) := CancelStep(e, orderId, userId);
      match answer
      case Some(o) => Served(e', [RefundTask(userId, o.side, o.quantity, o.price, company)], [])
      case None => Served(e', [], [])
  }

  /** The task is a cancel that hits an idle slot 0: it frees the slot again, and how the book goes on
      from there is not modelled. */
  predicate Hits(e: Engine, task: EngineTask) {
    task.CancelTask? && HitsIdle(e, task.orderId, task.userId)
  }

  /** The task gives this much of an order's reservation back to its owner. */
  predicate Refunds(task: DbTask, o: Order, quantity: uint32, company: nat) {
    if o.side then task.RefundCash? && task.user == o.userId && task.quantity == quantity && task.price == o.price
    else task.RefundShares? && task.user == o.userId && task.quantity == quantity && task.company == company
  }

  /** What serving emits, in every case: two tasks per trade and a refund of what was rejected, the refund
      of a refused order, or that of a cancelled one. */
  lemma ServeEmits(e: Engine, task: EngineTask)
    ensures var s := Serve(e, task);
            match task
            case OrderTask(company, o) =>
              if o.price >= MAX_PRICE || e.free == [] then
                s.engine == e && s.trades == [] && |s.tasks| == 1 && Refunds(s.tasks[0], o, o.quantity, company)
              else
                var a := Accept(e, o);
                && s.engine == a.engine && s.trades == a.trades && TwoPerTrade(s.tasks, s.trades)
                && |s.tasks| == 2 * |s.trades| + (if a.rejected > 0 then 1 else 0)
                && (a.rejected > 0 ==> Refunds(s.tasks[2 * |s.trades|], o, a.rejected, company))
            case CancelTask(company, orderId, userId) =>
              var (e', answer) := CancelStep(e, orderId, userId);
              && s.engine == e' && s.trades == []
              && |s.tasks| == (if answer.Some? then 1 else 0)
              && (answer.Some? ==>
                    Refunds(s.tasks[0], answer.value.(userId := userId), answer.value.quantity, company))
  {
    hide Accept; hide CancelStep; hide TradeTasks; hide TwoPerTrade;
    if task.OrderTask? && CanProcess(e, task.order) {
      var a := Accept(e, task.order);
      TasksPerTrade(a.trades);
      var refund := RefundTask(task.order.userId, task.order.side, a.rejected, task.order.price, task.company);
      TwoAndMore(TradeTasks(a.trades), refund, a.trades);
      assert TradeTasks(a.trades) + [] == TradeTasks(a.trades);
    } else if task.CancelTask? {
      var answer := CancelStep(e, task.orderId, task.userId).1;
      assert answer == None || answer == Some(answer.value);
    }
  }

  // ----- pending database tasks

  function TaskValue(us: seq<int>, a: Asset, task: DbTask): nat {
    match task
    case Settle(buyer, seller, quantity, price, limit, company) =>
      (match a
       case Cash => (if seller in us then Value(price, quantity) else 0)
                    + (if buyer in us && limit > price then Value(limit - price, quantity) else 0)
       case Shares(c) => if buyer in us && c == company then quantity else 0)
    case RefundCash(user, quantity, price) => if user in us && a.Cash? then Value(price, quantity) else 0
    case RefundShares(user, quantity, company) => if user in us && a == Shares(company) then quantity else 0
    case LogTrade(_) => 0
  }

  function TasksValue(us: seq<int>, a: Asset, tasks: seq<DbTask>): nat {
    if tasks == [] then 0 else TaskValue(us, a, tasks[0]) + TasksValue(us, a, tasks[1..])
  }

  lemma {:induction false} TasksAppend(us: seq<int>, a: Asset, xs: seq<DbTask>, ys: seq<DbTask>)
    ensures TasksValue(us, a, xs + ys) == TasksValue(us, a, xs) + TasksValue(us, a, ys)
  {
    hide TaskValue;
    if xs == [] {
      assert xs + ys == ys;
    } else {
      assert (xs + ys)[1..] == xs[1..] + ys;
      TasksAppend(us, a, xs[1..], ys);
    }
  }

  lemma TasksSingle(us: seq<int>, a: Asset, task: DbTask)
    ensures TasksValue(us, a, [task]) == TaskValue(us, a, task)
  {
  }

  lemma RefundValue(us: seq<int>, a: Asset, o: Order, quantity: uint32, company: nat)
    ensures TaskValue(us, a, RefundTask(o.userId, o.side, quantity, o.price, company))
         == OrderValue(us, a, company, o.(quantity := quantity))
  {
    hide Value;
  }

  /** What a trade moves into the users' hands from outside them: the cash that other buyers pay
      them less what they pay, and the shares that they buy less those that they sell. */
  function Flow(us: seq<int>, a: Asset, t: Trade): int {
    match a
    case Cash => (if t.sellerId in us then Value(t.price, t.quantity) else 0)
                 - (if t.buyerId in us then Value(t.price, t.quantity) else 0)
    case Shares(c) => if c != t.companyId then 0
                      else (if t.buyerId in us then t.quantity else 0) - (if t.sellerId in us then t.quantity else 0)
  }

  function Flows(us: seq<int>, a: Asset, trades: seq<Trade>): int {
    if trades == [] then 0 else Flow(us, a, trades[0]) + Flows(us, a, trades[1..])
  }

  lemma {:induction false} FlowsAppend(us: seq<int>, a: Asset, xs: seq<Trade>, ys: seq<Trade>)
    ensures Flows(us, a, xs + ys) == Flows(us, a, xs) + Flows(us, a, ys)
  {
    hide Flow;
    if xs == [] {
      assert xs + ys == ys;
    } else {
      assert (xs + ys)[1..] == xs[1..] + ys;
      FlowsAppend(us, a, xs[1..], ys);
    }
  }

  /** Every trade is within the buyer's limit and belongs to the incoming order's company. */
  ghost predicate WithinLimit(trades: seq<Trade>, company: nat) {
    forall i: nat :: i < |trades| ==> trades[i].price <= trades[i].buyerLimitPrice && trades[i].companyId == company
  }

  lemma {:induction false} MatchWithinLimit(incoming: Order, resting: seq<Order>)
    ensures WithinLimit(Match(incoming, resting).trades, incoming.companyId)
    decreases |resting|
  {
    if incoming.quantity > 0 && resting != [] && Crosses(incoming, resting[0].price)
        && incoming.userId != resting[0].userId {
      var fill := Min(incoming.quantity, resting[0].quantity);
      if resting[0].quantity == fill {
        MatchWithinLimit(incoming.(quantity := incoming.quantity - fill), resting[1..]);
      }
    }
  }

  /** A settlement pays out what the trade used up, plus what it moves. */
  lemma {:induction false} TradeTasksValue(us: seq<int>, a: Asset, company: nat, trades: seq<Trade>)
    requires WithinLimit(trades, company)
    ensures TasksValue(us, a, TradeTasks(trades)) == TradesValue(us, a, company, trades) + Flows(us, a, trades)
    decreases |trades|
  {
    hide TaskValue; hide TradeValue; hide Flow;
    if trades != [] {
      var t := trades[0];
      TradeTasksValue(us, a, company, trades[1..]);
      SettleValue(us, a, company, t);
      TasksAppend(us, a, [SettleTask(t), LogTask(t)], TradeTasks(trades[1..]));
      TasksAppend(us, a, [SettleTask(t)], [LogTask(t)]);
      assert [SettleTask(t)] + [LogTask(t)] == [SettleTask(t), LogTask(t)];
      TasksSingle(us, a, SettleTask(t));
      TasksSingle(us, a, LogTask(t));
    }
  }

  lemma SettleValue(us: seq<int>, a: Asset, company: nat, t: Trade)
    requires t.price <= t.buyerLimitPrice && t.companyId == company
    ensures TaskValue(us, a, SettleTask(t)) == TradeValue(us, a, company, t) + Flow(us, a, t)
    ensures TaskValue(us, a, LogTask(t)) == 0
  {
    hide Value;
    ValueImproved(t.buyerLimitPrice, t.price, t.quantity);
  }

  // ----- one engine step

  function EngineTaskValue(us: seq<int>, a: Asset, task: EngineTask): nat {
    if task.OrderTask? then OrderValue(us, a, task.company, task.order) else 0
  }

  /** What a cancel refunds without any reservation behind it: all that was left in idle slot 0. */
  function Conjured(us: seq<int>, a: Asset, e: Engine, task: EngineTask): nat {
    if Hits(e, task) then OrderValue(us, a, task.company, e.slot0) else 0
  }

  /** Serving a task turns the value of the task and of the book, and what is conjured up, into that of
      the new book and of the emitted database tasks, but for what the trades move. */
  lemma ServeValue(us: seq<int>, a: Asset, e: Engine, task: EngineTask)
    requires Sided(e.book) && (task.OrderTask? ==> task.order.companyId == task.company)
    ensures var s := Serve(e, task);
            EngineTaskValue(us, a, task) + BookValue(us, a, task.company, e.book) + Conjured(us, a, e, task)
            == TasksValue(us, a, s.tasks) - Flows(us, a, s.trades) + BookValue(us, a, task.company, s.engine.book)
    ensures Sided(Serve(e, task).engine.book)
  {
    hide OrderValue; hide QueueValue; hide TaskValue; hide Match; hide Insert; hide Find; hide AllOn; hide PackId;
    hide SlotsOf; hide SlotZero; hide HitsIdle;
    match task
    case OrderTask(company, o) =>
      if CanProcess(e, o) {
        AcceptValue(us, a, e, o, company);
      } else {
        RefundValue(us, a, o, o.quantity, company);
        TasksSingle(us, a, RefundTask(o.userId, o.side, o.quantity, o.price, company));
      }
    case CancelTask(company, orderId, userId) =>
      CancelValue(us, a, e, company, orderId, userId);
  }

  lemma ProcessValue(us: seq<int>, a: Asset, company: nat, book: Book, o: Order)
    requires Sided(book)
    ensures var p := Process(book, o);
            OrderValue(us, a, company, o) + BookValue(us, a, company, book)
            == TradesValue(us, a, company, p.trades) + OrderValue(us, a, company, o.(quantity := p.rejected))
               + BookValue(us, a, company, p.book)
    ensures Sided(Process(book, o).book) && WithinLimit(Process(book, o).trades, o.companyId)
  {
    hide OrderValue; hide QueueValue; hide TradesValue; hide Match; hide Insert; hide AllOn; hide WithinLimit;
    var opp, own := book.Side(!o.side), book.Side(o.side);
    var m := Match(o, opp);
    MatchValue(us, a, company, o, opp);
    MatchIncoming(o, opp);
    MatchWithinLimit(o, opp);
    if m.incoming.quantity > 0 {
      InsertValue(us, a, company, m.incoming, own);
    } else {
      SpentValue(us, a, company, m.incoming);
    }
  }

  lemma RejectedValue(us: seq<int>, a: Asset, company: nat, o: Order, rejected: uint32)
    ensures TasksValue(us, a, if rejected > 0 then [RefundTask(o.userId, o.side, rejected, o.price, company)] else [])
         == OrderValue(us, a, company, o.(quantity := rejected))
  {
    hide OrderValue; hide TaskValue; hide RefundTask;
    if rejected > 0 {
      RefundValue(us, a, o, rejected, company);
    } else {
      SpentValue(us, a, company, o.(quantity := 0));
    }
  }

  lemma AnyId(us: seq<int>, a: Asset, company: nat, o: Order, id: nat)
    ensures OrderValue(us, a, company, o.(id := id)) == OrderValue(us, a, company, o)
  {
  }

  lemma AcceptValue(us: seq<int>, a: Asset, e: Engine, o: Order, company: nat)
    requires Sided(e.book) && o.companyId == company && CanProcess(e, o)
    ensures var s := Serve(e, OrderTask(company, o));
            OrderValue(us, a, company, o) + BookValue(us, a, company, e.book)
            == TasksValue(us, a, s.tasks) - Flows(us, a, s.trades) + BookValue(us, a, company, s.engine.book)
    ensures Sided(Serve(e, OrderTask(company, o)).engine.book)
  {
    hide OrderValue; hide BookValue; hide TasksValue; hide TradesValue; hide Process; hide Sided; hide PackId;
    hide SlotsOf; hide Flows; hide SlotZero;
    var id := PackId(e.counter + 1, e.free[|e.free| - 1]);
    var order := o.(id := id);
    var p := Process(e.book, order);
    ProcessValue(us, a, company, e.book, order);
    AnyId(us, a, company, o, id);
    AnyId(us, a, company, o.(quantity := p.rejected), id);
    TradeTasksValue(us, a, company, p.trades);
    RejectedValue(us, a, company, o, p.rejected);
    TasksAppend(us, a, TradeTasks(p.trades),
                if p.rejected > 0 then [RefundTask(o.userId, o.side, p.rejected, o.price, company)] else []);
  }

  lemma CancelValue(us: seq<int>, a: Asset, e: Engine, company: nat, orderId: nat, userId: int)
    requires Sided(e.book)
    ensures var s := Serve(e, CancelTask(company, orderId, userId));
            && BookValue(us, a, company, e.book) + Conjured(us, a, e, CancelTask(company, orderId, userId))
               == TasksValue(us, a, s.tasks) + BookValue(us, a, company, s.engine.book)
            && s.trades == []
    ensures Sided(Serve(e, CancelTask(company, orderId, userId)).engine.book)
  {
    hide OrderValue; hide QueueValue; hide TaskValue; hide Find; hide SlotOf; hide SlotZero;
    var c := Cancel(e.book, orderId, userId);
    if HitsIdle(e, orderId, userId) {
      RefundValue(us, a, e.slot0, e.slot0.quantity, company);
      TasksSingle(us, a, RefundTask(userId, e.slot0.side, e.slot0.quantity, e.slot0.price, company));
    } else if c.order.Some? {
      var o := c.order.value;
      RefundValue(us, a, o, o.quantity, company);
      TasksSingle(us, a, RefundTask(userId, o.side, o.quantity, o.price, company));
      var side := CancelOn(e.book, true, orderId, userId).order.Some?;
      WithoutValue(us, a, company, e.book.Side(side), Find(e.book.Side(side), orderId));
    }
  }

  /** An order that the book has no room for, or whose price it does not list, is refunded whole. */
  lemma RefusedRefunded(e: Engine, company: nat, o: Order, a: Asset)
    requires !CanProcess(e, o)
    ensures var s := Serve(e, OrderTask(company, o));
            s.engine == e && s.trades == [] && TasksValue([o.userId], a, s.tasks)
                == OrderValue([o.userId], a, company, o)
  {
    RefundValue([o.userId], a, o, o.quantity, company);
    TasksSingle([o.userId], a, RefundTask(o.userId, o.side, o.quantity, o.price, company));
  }

  // ----- everybody concerned is registered

  ghost predicate UsersIn(users: set<int>, queue: seq<Order>) {
    forall k: nat :: k < |queue| ==> queue[k].userId in users
  }

  predicate TaskUsersIn(users: set<int>, task: DbTask) {
    match task
    case Settle(buyer, seller, _, _, _, _) => buyer in users && seller in users
    case RefundCash(user, _, _) => user in users
    case RefundShares(user, _, _) => user in users
    case LogTrade(_) => true
  }

  ghost predicate TasksUsersIn(users: set<int>, tasks: seq<DbTask>) {
    forall k: nat :: k < |tasks| ==> TaskUsersIn(users, tasks[k])
  }

  lemma {:induction false} MatchUsers(users: set<int>, incoming: Order, resting: seq<Order>)
    requires incoming.userId in users && UsersIn(users, resting)
    ensures UsersIn(users, Match(incoming, resting).resting)
    ensures TasksUsersIn(users, TradeTasks(Match(incoming, resting).trades))
    ensures forall k: nat :: k < |Match(incoming, resting).trades| ==>
              Match(incoming, resting).trades[k].buyerId in users
                  && Match(incoming, resting).trades[k].sellerId in users
    decreases |resting|
  {
    if incoming.quantity > 0 && resting != [] && Crosses(incoming, resting[0].price)
        && incoming.userId != resting[0].userId {
      var fill := Min(incoming.quantity, resting[0].quantity);
      var t := MakeTrade(incoming, resting[0], fill);
      assert t.buyerId in users && t.sellerId in users;
      if resting[0].quantity == fill {
        var incoming' := incoming.(quantity := incoming.quantity - fill);
        MatchUsers(users, incoming', resting[1..]);
        TaskUsersFirst(users, t, Match(incoming', resting[1..]).trades);
      } else {
        TaskUsersFirst(users, t, []);
      }
    }
  }

  lemma TaskUsersFirst(users: set<int>, t: Trade, trades: seq<Trade>)
    requires t.buyerId in users && t.sellerId in users && TasksUsersIn(users, TradeTasks(trades))
    ensures TasksUsersIn(users, TradeTasks([t] + trades))
  {
    assert ([t] + trades)[1..] == trades;
  }

  ghost predicate BookUsersIn(users: set<int>, book: Book) {
    UsersIn(users, book.bids) && UsersIn(users, book.asks)
  }

  lemma ServeUsers(users: set<int>, e: Engine, task: EngineTask)
    requires BookUsersIn(users, e.book) && (if task.OrderTask? then task.order.userId else task.userId) in users
    ensures var s := Serve(e, task); BookUsersIn(users, s.engine.book) && TasksUsersIn(users, s.tasks)
    ensures forall k: nat :: k < |Serve(e, task).trades| ==>
              Serve(e, task).trades[k].buyerId in users && Serve(e, task).trades[k].sellerId in users
  {
    hide Match; hide Insert; hide Find; hide PackId; hide SlotsOf; hide TradeTasks; hide SlotZero;
    match task
    case OrderTask(company, o) =>
      if CanProcess(e, o) {
        var order := o.(id := PackId(e.counter + 1, e.free[|e.free| - 1]));
        var opp, own := e.book.Side(!o.side), e.book.Side(o.side);
        MatchUsers(users, order, opp);
        MatchIncoming(order, opp);
        var k := InsertPosition(Match(order, opp).incoming, own);
      }
    case CancelTask(company, orderId, userId) =>
  }
}
