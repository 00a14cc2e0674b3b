/** In what order the pipeline works: requests are served one at a time as they were taken, whatever the
    threads do in between, and what a trade emits is never split over two batches. */
module Services {
  import opened Orders
  import opened PriceTime
  import opened Accounts
  import opened CurrentEngine
  import opened Ledger
  import opened Pipeline

  // ----- a server without threads

  datatype Service = Service(
    books: seq<Option<Engine>>, emitted: seq<DbTask>, trades: seq<Trade>, dropped: seq<EngineTask>)

  function ServeNext(s: Service, task: EngineTask): Service {
    if task.company < |s.books| && s.books[task.company].Some? then
      var r := Serve(s.books[task.company].value, task);
      Service(s.books[task.company := Some(r.engine)], s.emitted + r.tasks, s.trades + r.trades, s.dropped)
    else s.(dropped := s.dropped + [task])
  }

  /** Serving the tasks one after the other on these books. */
  function ServeInOrder(books: seq<Option<Engine>>, tasks: seq<EngineTask>): Service {
    if tasks == [] then Service(books, [], [], [])
    else ServeNext(ServeInOrder(books, tasks[..|tasks| - 1]), tasks[|tasks| - 1])
  }

  /** What a step of the I/O thread adds to the requests: an order whose reservation is covered, or a
      cancellation. */
  function Taken(x: Exchange, step: Step): seq<EngineTask> {
    match step
    case Submit(o) => if Covered(x, o) then [OrderTask(o.companyId, o)] else []
    case RequestCancel(company, orderId, userId) => [CancelTask(company, orderId, userId)]
    case _ => []
  }

  /** All requests taken in a run, in order. */
  function TakenAll(x: Exchange, steps: seq<Step>): seq<EngineTask>
    requires EnabledAll(x, steps)
    decreases |steps|
  {
    if steps == [] then [] else Taken(x, steps[0]) + TakenAll(Next(x, steps[0]), steps[1..])
  }

  /** The requests not yet served are those queued and the one in hand; books, trades, emitted and
      dropped tasks are what serving the others in order gives. */
  ghost predicate InOrder(books: seq<Option<Engine>>, taken: seq<EngineTask>, x: Exchange) {
    var n := |taken| - |x.queue| - |x.hand|;
    && 0 <= n && taken == taken[..n] + x.queue + x.hand
    && ServeInOrder(books, taken[..n]) == Service(x.books, x.emitted + x.outgoing, x.trades, x.dropped)
  }

  lemma ServedOneMore(books: seq<Option<Engine>>, tasks: seq<EngineTask>, task: EngineTask)
    ensures ServeInOrder(books, tasks + [task]) == ServeNext(ServeInOrder(books, tasks), task)
  {
    assert (tasks + [task])[..|tasks|] == tasks;
  }

  lemma ServeKeepsOrder(books: seq<Option<Engine>>, taken: seq<EngineTask>, x: Exchange)
    requires InOrder(books, taken, x) && Enabled(x, ServeTask)
    ensures InOrder(books, taken, Next(x, ServeTask))
  {
    hide Serve; hide ServeInOrder; hide Hits;
    var n := |taken| - |x.queue| - |x.hand|;
    assert taken[..n + 1] == taken[..n] + [x.queue[0]];
    ServedOneMore(books, taken[..n], x.queue[0]);
    assert x.emitted + [] == x.emitted;
    var y := Next(x, ServeTask);
    assert taken == taken[..n + 1] + y.queue + y.hand;
    assert y.emitted + y.outgoing == ServeInOrder(books, taken[..n + 1]).emitted;
  }

  lemma StepKeepsOrder(books: seq<Option<Engine>>, taken: seq<EngineTask>, x: Exchange, step: Step)
    requires InOrder(books, taken, x) && Enabled(x, step)
    ensures InOrder(books, taken + Taken(x, step), Next(x, step))
  {
    hide ServeInOrder; hide Value; hide Apply; hide TakeCash; hide TakeShares; hide CashOf; hide SharesOf;
    var n := |taken| - |x.queue| - |x.hand|;
    assert (taken + Taken(x, step))[..n] == taken[..n] && taken + [] == taken;
    match step
    case Submit(o) =>
    case RequestCancel(_, _, _) =>
    case Push => assert taken[..n] + (x.queue + x.hand) + [] == taken[..n] + x.queue + x.hand;
    case ServeTask => ServeKeepsOrder(books, taken, x);
    case Emit =>
      var k := PushedTogether(x.outgoing);
      assert x.emitted + x.outgoing[..k] + x.outgoing[k..] == x.emitted + x.outgoing;
    case Swap =>
    case Lock =>
    case ApplyTask =>
    case Unlock =>
    case Clear =>
  }

  lemma {:induction false} RunKeepsOrder(
      books: seq<Option<Engine>>, taken: seq<EngineTask>, x: Exchange, steps: seq<Step>)
    requires InOrder(books, taken, x) && EnabledAll(x, steps)
    ensures InOrder(books, taken + TakenAll(x, steps), Run(x, steps))
    decreases |steps|
  {
    hide Next; hide Enabled; hide InOrder; hide Taken;
    if steps == [] {
      assert taken + [] == taken;
    } else {
      StepKeepsOrder(books, taken, x, steps[0]);
      RunKeepsOrder(books, taken + Taken(x, steps[0]), Next(x, steps[0]), steps[1..]);
      Assoc(taken, Taken(x, steps[0]), TakenAll(Next(x, steps[0]), steps[1..]));
    }
  }

  /** For every interleaving: the requests taken are, in order, those served, those queued and the one in
      hand; and the books, the trades, the dropped tasks, and the database tasks emitted or about to be
      are those of a server without threads that serves the first ones one after the other. */
  lemma ServedInOrder(x: Exchange, steps: seq<Step>)
    requires Initial(x) && EnabledAll(x, steps)
    ensures var y, taken := Run(x, steps), TakenAll(x, steps);
            var n := |taken| - |y.queue| - |y.hand|;
            && 0 <= n && taken == taken[..n] + y.queue + y.hand
            && var s := ServeInOrder(x.books, taken[..n]);
               && y.books == s.books && y.trades == s.trades && y.dropped == s.dropped
               && y.emitted + y.outgoing == s.emitted
  {
    hide Run; hide EnabledAll; hide TakenAll;
    RunKeepsOrder(x.books, [], x, steps);
    assert [] + TakenAll(x, steps) == TakenAll(x, steps);
  }

  // ----- a trade is never split

  predicate Logs(settlement: DbTask, entry: DbTask) {
    && settlement.Settle? && entry.LogTrade?
    && entry.row.company == settlement.company && entry.row.buyer == settlement.buyer
    && entry.row.seller == settlement.seller && entry.row.price == settlement.price
    && entry.row.quantity == settlement.quantity
  }

  /** Every settlement is followed at once by its log entry, and there are no other log entries. */
  predicate Whole(tasks: seq<DbTask>) {
    if tasks == [] then true
    else if tasks[0].Settle? then |tasks| > 1 && Logs(tasks[0], tasks[1]) && Whole(tasks[2..])
    else !tasks[0].LogTrade? && Whole(tasks[1..])
  }

  lemma {:induction false} WholeAppend(a: seq<DbTask>, b: seq<DbTask>)
    requires Whole(a) && Whole(b)
    ensures Whole(a + b)
    decreases |a|
  {
    if a == [] {
      assert a + b == b;
    } else {
      var k := if a[0].Settle? then 2 else 1;
      assert (a + b)[k..] == a[k..] + b;
      WholeAppend(a[k..], b);
    }
  }

  lemma {:induction false} TradeTasksWhole(trades: seq<Trade>)
    ensures Whole(TradeTasks(trades))
  {
    if trades != [] {
      TradeTasksWhole(trades[1..]);
      assert TradeTasks(trades)[2..] == TradeTasks(trades[1..]);
    }
  }

  lemma ServeWhole(e: Engine, task: EngineTask)
    ensures Whole(Serve(e, task).tasks)
  {
    hide Accept; hide CancelStep; hide TradeTasks;
    match task
    case OrderTask(company, o) =>
      if CanProcess(e, o) {
        var s := Accept(e, o);
        TradeTasksWhole(s.trades);
        var refund := if s.rejected > 0 then [RefundTask(o.userId, o.side, s.rejected, o.price, company)] else [];
        WholeAppend(TradeTasks(s.trades), refund);
      }
    case CancelTask(_, _, _) =>
  }

  /** What is pushed under one hold of the mutex is whole, and so is the rest. */
  lemma PushedWhole(outgoing: seq<DbTask>)
    requires Whole(outgoing) && outgoing != []
    ensures var n := PushedTogether(outgoing); Whole(outgoing[..n]) && Whole(outgoing[n..])
  {
    hide Logs;
    var n := PushedTogether(outgoing);
    assert outgoing[..n][n..] == [];
  }

  ghost predicate AllWhole(x: Exchange) {
    && Whole(x.outgoing) && Whole(x.front) && Whole(x.back)
    && forall k: nat :: k < |x.events| && x.events[k].Batch? ==> Whole(x.events[k].tasks)
  }

  lemma StepKeepsWhole(x: Exchange, step: Step)
    requires AllWhole(x) && Enabled(x, step)
    ensures AllWhole(Next(x, step))
  {
    hide Serve; hide Apply; hide Value; hide TakeCash; hide TakeShares; hide PushedTogether;
    match step
    case ServeTask =>
      var task := x.queue[0];
      if Known(x, task.company) { ServeWhole(x.books[task.company].value, task); }
    case Emit =>
      PushedWhole(x.outgoing);
      WholeAppend(x.front, x.outgoing[..PushedTogether(x.outgoing)]);
    case _ =>
  }

  lemma {:induction false} RunKeepsWhole(x: Exchange, steps: seq<Step>)
    requires AllWhole(x) && EnabledAll(x, steps)
    ensures AllWhole(Run(x, steps))
    decreases |steps|
  {
    hide Next; hide Enabled; hide AllWhole;
    if steps != [] {
      StepKeepsWhole(x, steps[0]);
      RunKeepsWhole(Next(x, steps[0]), steps[1..]);
    }
  }

  /** Wherever the database worker swaps the buffers, every batch has each settlement together with its
      log entry. */
  lemma BatchesWhole(x: Exchange, steps: seq<Step>, k: nat)
    requires Initial(x) && EnabledAll(x, steps)
    requires k < |Run(x, steps).events| && Run(x, steps).events[k].Batch?
    ensures Whole(Run(x, steps).events[k].tasks)
  {
    hide Run; hide EnabledAll;
    RunKeepsWhole(x, steps);
  }
}
