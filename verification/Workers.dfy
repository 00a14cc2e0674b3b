/** The server's threads on the real objects: the reservation of the I/O thread on the database,
    the ORDER and CANCEL branches of the engine worker on a CURRENT book, and one round of the
    database worker. Each does what its step of the pipeline says. */
module Workers {
  import opened Orders
  import opened PriceTime
  import opened Accounts
  import opened CurrentEngine
  import opened Ledger
  import opened Pipeline

  // The "order" message of a registered user, up to the push on the engine queue. A stress order is queued
  // for a negative user without any reservation.
  method SubmitOrder(db: Database, o: Order, stress: bool, syntheticId: int) returns (task: Option<EngineTask>)
    modifies db`balances, db`portfolios
    ensures o.price >= MAX_PRICE ==> task == None && db.Rows() == old(db.Rows())
    ensures o.price < MAX_PRICE && stress ==>
              && db.Rows() == old(db.Rows()) && task.Some? && task.value.OrderTask?
              && var user := task.value.order.userId;
                 user < 0 && (syntheticId < 0 ==> user == syntheticId)
                 && task == Some(OrderTask(o.companyId, o.(userId := user)))
    ensures o.price < MAX_PRICE && !stress ==>
              forall x: Exchange :: x.wallets == old(db.Rows()) && x.hand == [] ==>
                var y := Pipeline.SubmitOrder(x, o);
                db.Rows() == y.wallets && y.hand == (if task.Some? then [task.value] else [])
  {
    if o.price >= MAX_PRICE {
      return None;
    }
    if stress {
      return Some(OrderTask(o.companyId, o.(userId := if syntheticId < 0 then syntheticId else -1)));
    }
    var reply: Reply;
    if o.side {
      reply := db.ReserveCash(o.userId, Value(o.price, o.quantity));
    } else {
      reply := db.ReserveShares(o.userId, o.companyId, o.quantity);
    }
    task := if reply.Accepted? then Some(OrderTask(o.companyId, o)) else None;
  }

  // The ORDER branch of run_engine_worker; on_trade turns each trade into its database tasks.
  method ServeOrder(book: OrderBook, company: nat, o: Order) returns (tasks: seq<DbTask>)
    requires book.Valid()
    modifies book.Footprint()
    ensures book.Valid()
    ensures var s := Serve(old(book.State()), OrderTask(company, o));
            book.State() == s.engine && tasks == s.tasks && book.trades == old(book.trades) + s.trades
    ensures TwoPerTrade(tasks, book.trades[|old(book.trades)|..])
  {
    hide OrderBook.Sound; hide Process; hide SlotsOf; hide TradeTasks; hide RefundTask; hide SlotZero;
    hide TwoPerTrade;
    if !book.CanProcessOrder(o) {
      NoTrade([RefundTask(o.userId, o.side, o.quantity, o.price, company)]);
      return [RefundTask(o.userId, o.side, o.quantity, o.price, company)];
    }
    var before := |book.trades|;
    var rest: Order, rejected: uint32;
    if o.side {
      rest, rejected := book.ProcessBuyOrder(o);
    } else {
      rest, rejected := book.ProcessSellOrder(o);
    }
    tasks := TradeTasks(book.trades[before..]);
    TasksPerTrade(book.trades[before..]);
    assert book.trades[before..] == Accept(old(book.State()), o).trades;
    if rejected > 0 {
      TwoAndMore(tasks, RefundTask(o.userId, o.side, rejected, o.price, company), book.trades[before..]);
      tasks := tasks + [RefundTask(o.userId, o.side, rejected, o.price, company)];
    } else {
      assert tasks + [] == tasks;
    }
  }

  // The CANCEL branch, whatever id the request names.
  method ServeCancel(book: OrderBook, company: nat, orderId: nat, userId: int) returns (tasks: seq<DbTask>)
    requires book.Valid()
    modifies book.Footprint()
    ensures book.Valid() <==> !Hits(old(book.State()), CancelTask(company, orderId, userId))
    ensures var s := Serve(old(book.State()), CancelTask(company, orderId, userId));
            tasks == s.tasks && (book.Valid() ==> book.State() == s.engine)
  {
    hide OrderBook.Sound; hide CancelStep; hide RefundTask; hide HitsIdle;
    var cancelled := book.CancelOrder(orderId, userId);
    match cancelled {
      case Some(order) => tasks := [RefundTask(userId, order.side, order.quantity, order.price, company)];
      case None => tasks := [];
    }
  }

  // ----- the database worker

  /** The steps of one round of the database worker over a batch of n tasks. */
  function Applies(n: nat): seq<Step> {
    if n == 0 then [Unlock, Clear] else [ApplyTask] + Applies(n - 1)
  }

  function Round(n: nat): seq<Step> {
    [Swap] + ([Lock] + Applies(n))
  }

  lemma {:induction false} AppliesRun(x: Exchange)
    requires !x.over && x.worker.Settling? && x.applied <= |x.back|
    ensures var steps := Applies(|x.back| - x.applied);
            && EnabledAll(x, steps)
            && Run(x, steps) == x.(wallets := ApplyAll(x.wallets, x.back[x.applied..]), back := [], applied := 0,
                                   worker := Waiting, events := x.events + [Batch(x.back)])
    decreases |x.back| - x.applied
  {
    hide Apply;
    if x.applied == |x.back| {
      var x1 := Next(x, Unlock);
      RunOne([], Cash, x1, Clear, []);
      RunOne([], Cash, x, Unlock, [Clear]);
      assert [Unlock] + [Clear] == [Unlock, Clear] && [Clear] + [] == [Clear];
    } else {
      var x1 := Next(x, ApplyTask);
      AppliesRun(x1);
      RunOne([], Cash, x, ApplyTask, Applies(|x1.back| - x1.applied));
      assert x.back[x.applied..][0] == x.back[x.applied] && x.back[x.applied..][1..] == x1.back[x1.applied..];
    }
  }

  /** A round settles the whole front buffer as one batch, and leaves both buffers empty. */
  lemma RoundRuns(x: Exchange)
    requires !x.over && x.worker.Waiting? && x.back == [] && x.applied == 0 && x.front != []
    ensures var steps := Round(|x.front|);
            && EnabledAll(x, steps)
            && Run(x, steps) == x.(wallets := ApplyAll(x.wallets, x.front), front := [],
                events := x.events + [Batch(x.front)])
  {
    hide Applies; hide ApplyAll;
    var x1 := Next(x, Swap);
    var x2 := Next(x1, Lock);
    assert x2.back[0..] == x.front;
    AppliesRun(x2);
    RunOne([], Cash, x1, Lock, Applies(|x.front|));
    RunOne([], Cash, x, Swap, [Lock] + Applies(|x.front|));
  }

  /** db_queue_front_ and db_queue_back_. */
  class SettlementQueue {
    var front: seq<DbTask>
    var back: seq<DbTask>

    constructor ()
      ensures front == back == []
    {
      front, back := [], [];
    }

    // What the engine worker pushes under one hold of the queue's mutex.
    method Push(tasks: seq<DbTask>)
      modifies this`front
      ensures front == old(front) + tasks
    {
      front := front + tasks;
    }

    // One round of run_db_worker, once something was pushed: it is the transition system's.
    method SettleRound(db: Database)
      requires front != [] && back == []
      modifies this, db
      ensures forall x: Exchange ::
                !x.over && x.worker.Waiting? && x.applied == 0 && x.front == old(front) && x.back == old(back)
                    && x.wallets == old(db.Rows()) ==>
                  && EnabledAll(x, Round(|old(front)|))
                  && var y := Run(x, Round(|old(front)|));
                     db.Rows() == y.wallets && front == y.front && back == y.back && y.worker.Waiting?
      ensures old(Solvent(db.Rows())) ==> Solvent(db.Rows())
      ensures db.log == old(db.log) + LoggedIn(old(front))
    {
      front, back := back, front;
      if back != [] {
        db.ApplyBatch(back);
        back := [];
      }
      forall x: Exchange |
        !x.over && x.worker.Waiting? && x.applied == 0 && x.front == old(front) && x.back == old(back)
            && x.wallets == old(db.Rows())
        ensures EnabledAll(x, Round(|old(front)|))
        ensures var y := Run(x, Round(|old(front)|));
                db.Rows() == y.wallets && front == y.front && back == y.back && y.worker.Waiting?
      {
        RoundRuns(x);
      }
    }
  }
}
