/** Reserve, match, settle: the I/O thread, the engine worker and the database worker as one
    transition system whose steps interleave freely, and what every run of it conserves. */
module Pipeline {
  import opened Orders
  import opened PriceTime
  import opened Accounts
  import opened CurrentEngine
  import opened Ledger

  // ----- the state

  /** What changes the wallets atomically for everybody else: a reservation, or a whole batch. */
  datatype WalletEvent =
    | TookCash(user: int, amount: nat)
    | TookShares(user: int, company: nat, quantity: nat)
    | Batch(tasks: seq<DbTask>)

  /** Where the database worker stands in its loop. */
  datatype Worker =
    | Waiting     // for the front buffer to fill
    | Swapped     // before taking the database mutex
    | Settling    // a batch, under the mutex
    | Settled     // before clearing the back buffer

  /** hand is the task that the I/O thread has reserved for and not yet queued. books is indexed by
      company id. over says that a cancel has hit an idle slot, which ends the run. outgoing is what the
      engine worker has still to push on front for the task that it serves. The first applied tasks
      of back are done. The last four fields record the run. */
  datatype Exchange = Exchange(
    wallets: Wallets, hand: seq<EngineTask>, queue: seq<EngineTask>, books: seq<Option<Engine>>, over: bool,
    outgoing: seq<DbTask>, front: seq<DbTask>, back: seq<DbTask>, applied: nat, worker: Worker,
    trades: seq<Trade>, dropped: seq<EngineTask>, emitted: seq<DbTask>, events: seq<WalletEvent>)

  datatype Step =
    | Submit(order: Order)
    | RequestCancel(company: nat, orderId: nat, userId: int)
    | Push
    | ServeTask
    | Emit
    | Swap
    | Lock
    | ApplyTask
    | Unlock
    | Clear

  predicate Known(x: Exchange, company: nat) {
    company < |x.books| && x.books[company].Some?
  }

  /** Requests come from registered users; submissions have a price below the maximum, and wait for the
      database mutex. Cancellations may name any id. Nothing is said about how the exchange goes on
      after a cancel has hit an idle slot. */
  predicate Enabled(x: Exchange, step: Step) {
    !x.over &&
    match step
    case Submit(o) => x.hand == [] && !x.worker.Settling? && o.price < MAX_PRICE && o.userId in x.wallets.cash
    case RequestCancel(_, _, userId) => x.hand == [] && userId in x.wallets.cash
    case Push => x.hand != []
    case ServeTask => x.outgoing == [] && x.queue != []
    case Emit => x.outgoing != []
    case Swap => x.worker.Waiting? && x.front != []
    case Lock => x.worker.Swapped? && x.back != []
    case ApplyTask => x.worker.Settling? && x.applied < |x.back|
    case Unlock => x.worker.Settling? && x.applied == |x.back|
    case Clear => x.worker.Settled?
  }

  function SubmitOrder(x: Exchange, o: Order): Exchange {
    if o.side then
      var amount := Value(o.price, o.quantity);
      if CashOf(x.wallets, o.userId) < amount then x
      else x.(wallets := TakeCash(x.wallets, o.userId, amount), hand := [OrderTask(o.companyId, o)],
              events := x.events + [TookCash(o.userId, amount)])
    else
      if SharesOf(x.wallets, o.userId, o.companyId) < o.quantity then x
      else x.(wallets := TakeShares(x.wallets, o.userId, o.companyId, o.quantity), hand := [OrderTask(o.companyId, o)],
              events := x.events + [TookShares(o.userId, o.companyId, o.quantity)])
  }

  function ServeFirst(x: Exchange): Exchange
    requires x.queue != []
  {
    var task := x.queue[0];
    if !Known(x, task.company) then
      x.(queue := x.queue[1..], dropped := x.dropped + [task])
    else
      var s := Serve(x.books[task.company].value, task);
      x.(queue := x.queue[1..], books := x.books[task.company := Some(s.engine)],
         over := Hits(x.books[task.company].value, task),
         outgoing := s.tasks, trades := x.trades + s.trades)
  }

  /** The next task cancels id 0 and hits an idle slot of its book. */
  predicate HitsHead(x: Exchange) {
    x.queue != [] && Known(x, x.queue[0].company) && Hits(x.books[x.queue[0].company].value, x.queue[0])
  }

  /** What is pushed under one hold of the queue's mutex: a trade's settlement and its log entry, or
      a refund. */
  function PushedTogether(outgoing: seq<DbTask>): (n: nat)
    requires outgoing != []
    ensures 0 < n <= |outgoing|
  {
    if outgoing[0].Settle? && |outgoing| > 1 then 2 else 1
  }

  function Next(x: Exchange, step: Step): Exchange
    requires Enabled(x, step)
  {
    match step
    case Submit(o) => SubmitOrder(x, o)
    case RequestCancel(company, orderId, userId) => x.(hand := [CancelTask(company, orderId, userId)])
    case Push => x.(hand := [], queue := x.queue + x.hand)
    case ServeTask => ServeFirst(x)
    case Emit =>
      var n := PushedTogether(x.outgoing);
      x.(outgoing := x.outgoing[n..], front := x.front + x.outgoing[..n], emitted := x.emitted + x.outgoing[..n])
    case Swap => x.(front := x.back, back := x.front, worker := Swapped)
    case Lock => x.(worker := Settling)
    case ApplyTask => x.(wallets := Apply(x.wallets, x.back[x.applied]), applied := x.applied + 1)
    case Unlock => x.(worker := Settled, events := x.events + [Batch(x.back)])
    case Clear => x.(back := [], applied := 0, worker := Waiting)
  }

  predicate EnabledAll(x: Exchange, steps: seq<Step>)
    decreases |steps|
  {
    steps == [] || (Enabled(x, steps[0]) && EnabledAll(Next(x, steps[0]), steps[1..]))
  }

  function Run(x: Exchange, steps: seq<Step>): Exchange
    requires EnabledAll(x, steps)
    decreases |steps|
  {
    if steps == [] then x else Run(Next(x, steps[0]), steps[1..])
  }

  /** Nothing in flight: registered users with wallets, and books with nothing in them. */
  ghost predicate Initial(x: Exchange) {
    && Solvent(x.wallets) && x.hand == [] && x.queue == [] && x.outgoing == [] && x.front == [] && x.back == []
        && x.applied == 0 && x.worker == Waiting
    && x.trades == [] && !x.over && x.dropped == [] && x.emitted == [] && x.events == []
    && forall c: nat :: Known(x, c) ==> x.books[c].value.book == EMPTY_BOOK
  }

  // ----- the total

  function Holding(a: Asset, w: Wallets, user: int): int {
    match a
    case Cash => CashOf(w, user)
    case Shares(c) => SharesOf(w, user, c)
  }

  function WalletsValue(us: seq<int>, a: Asset, w: Wallets): int {
    if us == [] then 0 else Holding(a, w, us[0]) + WalletsValue(us[1..], a, w)
  }

  ghost predicate NoRepeats(us: seq<int>) {
    forall i: nat, j: nat :: i < j < |us| ==> us[i] != us[j]
  }

  function QueuedValue(us: seq<int>, a: Asset, tasks: seq<EngineTask>): nat {
    if tasks == [] then 0 else EngineTaskValue(us, a, tasks[0]) + QueuedValue(us, a, tasks[1..])
  }

  function BooksValue(us: seq<int>, a: Asset, books: seq<Option<Engine>>): nat {
    if books == [] then 0
    else
      var last := |books| - 1;
      BooksValue(us, a, books[..last])
      + (match books[last] case Some(e) => BookValue(us, a, last, e.book) case None => 0)
  }

  /** Everything that belongs to these users: in their wallets, reserved in a queued or resting
      order, or on its way to a wallet. */
  function Total(us: seq<int>, a: Asset, x: Exchange): int
    requires x.applied <= |x.back|
  {
    WalletsValue(us, a, x.wallets) + QueuedValue(us, a, x.hand) + QueuedValue(us, a, x.queue)
    + BooksValue(us, a, x.books) + TasksValue(us, a, x.outgoing) + TasksValue(us, a, x.front)
        + TasksValue(us, a, x.back[x.applied..])
  }

  /** The total, less what trades have moved to these users, plus what was dropped. It does not change
      but for refunds that are conjured up. */
  function Balance(us: seq<int>, a: Asset, x: Exchange): int
    requires x.applied <= |x.back|
  {
    Total(us, a, x) - Flows(us, a, x.trades) + QueuedValue(us, a, x.dropped)
  }

  // ----- sums

  /** If only one user's holding changes, the sum changes by as much. */
  lemma {:induction false} WalletsChanged(us: seq<int>, a: Asset, w: Wallets, w': Wallets, user: int)
    requires NoRepeats(us) && forall u :: u != user ==> Holding(a, w', u) == Holding(a, w, u)
    ensures WalletsValue(us, a, w')
         == WalletsValue(us, a, w) + (if user in us then Holding(a, w', user) - Holding(a, w, user) else 0)
  {
    hide Holding;
    if us != [] {
      assert user in us <==> us[0] == user || user in us[1..];
      WalletsChanged(us[1..], a, w, w', user);
    }
  }

  lemma CashAdded(us: seq<int>, a: Asset, w: Wallets, user: int, amount: int)
    requires NoRepeats(us) && user in w.cash
    ensures WalletsValue(us, a, AddCash(w, user, amount))
         == WalletsValue(us, a, w) + (if user in us && a.Cash? then amount else 0)
  {
    hide WalletsValue;
    WalletsChanged(us, a, w, AddCash(w, user, amount), user);
  }

  lemma SharesAdded(us: seq<int>, a: Asset, w: Wallets, user: int, company: nat, quantity: int)
    requires NoRepeats(us)
    ensures WalletsValue(us, a, AddShares(w, user, company, quantity))
         == WalletsValue(us, a, w) + (if user in us && a == Shares(company) then quantity else 0)
  {
    hide WalletsValue;
    WalletsChanged(us, a, w, AddShares(w, user, company, quantity), user);
  }

  lemma {:induction false} QueuedAppend(us: seq<int>, a: Asset, xs: seq<EngineTask>, ys: seq<EngineTask>)
    ensures QueuedValue(us, a, xs + ys) == QueuedValue(us, a, xs) + QueuedValue(us, a, ys)
  {
    hide EngineTaskValue;
    if xs == [] {
      assert xs + ys == ys;
    } else {
      assert (xs + ys)[1..] == xs[1..] + ys;
      QueuedAppend(us, a, xs[1..], ys);
    }
  }

  lemma {:induction false} BookReplaced(us: seq<int>, a: Asset, books: seq<Option<Engine>>, c: nat, e: Engine)
    requires c < |books| && books[c].Some?
    ensures BooksValue(us, a, books[c := Some(e)]) - BookValue(us, a, c, e.book)
         == BooksValue(us, a, books) - BookValue(us, a, c, books[c].value.book)
    decreases |books|
  {
    hide BookValue;
    var last := |books| - 1;
    var books' := books[c := Some(e)];
    if c == last {
      assert books'[..last] == books[..last];
    } else {
      assert books'[..last] == books[..last][c := Some(e)];
      BookReplaced(us, a, books[..last], c, e);
    }
  }

  // ----- what every state keeps

  predicate GoodTask(x: Exchange, task: EngineTask) {
    match task
    case OrderTask(company, o) => o.companyId == company && o.userId in x.wallets.cash
    case CancelTask(_, _, userId) => userId in x.wallets.cash
  }

  /** The back buffer is empty whenever the worker waits, so also when it swaps. */
  predicate InRound(x: Exchange) {
    && x.applied <= |x.back|
    && (x.worker.Waiting? ==> x.back == [])
    && (x.worker.Swapped? ==> x.back != [] && x.applied == 0)
    && (x.worker.Settling? ==> x.back != [])
    && (x.worker.Settled? ==> x.applied == |x.back|)
  }

  /** Orders know their company and side, everybody concerned is registered, and the worker's
      position is within its buffer. */
  ghost predicate Good(x: Exchange) {
    && InRound(x)
    && (forall k: nat :: k < |x.hand| ==> GoodTask(x, x.hand[k]))
    && (forall k: nat :: k < |x.queue| ==> GoodTask(x, x.queue[k]))
    && (forall c: nat :: Known(x, c) ==>
          Sided(x.books[c].value.book) && BookUsersIn(x.wallets.cash.Keys, x.books[c].value.book))
    && TasksUsersIn(x.wallets.cash.Keys, x.outgoing) && TasksUsersIn(x.wallets.cash.Keys, x.front)
    && TasksUsersIn(x.wallets.cash.Keys, x.back)
    && (forall k: nat :: k < |x.trades| ==>
          x.trades[k].buyerId in x.wallets.cash && x.trades[k].sellerId in x.wallets.cash)
    && Solvent(x.wallets)
  }

  lemma ReserveKeepsGood(x: Exchange, o: Order)
    requires Good(x) && Enabled(x, Submit(o))
    ensures Good(SubmitOrder(x, o)) && SubmitOrder(x, o).wallets.cash.Keys == x.wallets.cash.Keys
  {
    hide Sided; hide BookUsersIn; hide TasksUsersIn; hide Value;
    assert SubmitOrder(x, o).wallets.cash.Keys == x.wallets.cash.Keys;
  }

  lemma ServeKeepsGood(x: Exchange)
    requires Good(x) && x.queue != []
    ensures Good(ServeFirst(x))
  {
    hide Sided; hide BookUsersIn; hide Serve; hide TaskUsersIn; hide Hits;
    var task := x.queue[0];
    if Known(x, task.company) {
      var e := x.books[task.company].value;
      ServeUsers(x.wallets.cash.Keys, e, task);
      ServeValue([], Cash, e, task);
    }
  }

  lemma ApplyKeepsGood(x: Exchange)
    requires Good(x) && Enabled(x, ApplyTask)
    ensures Good(Next(x, ApplyTask))
  {
    hide Sided; hide BookUsersIn; hide Apply; hide Solvent; hide TasksUsersIn;
    ApplyKeepsSolvent(x.wallets, x.back[x.applied]);
  }

  lemma StepKeepsGood(x: Exchange, step: Step)
    requires Good(x) && Enabled(x, step)
    ensures Good(Next(x, step))
  {
    match step
    case Submit(o) => ReserveKeepsGood(x, o);
    case ServeTask => ServeKeepsGood(x);
    case Emit =>
    case ApplyTask => ApplyKeepsGood(x);
    case RequestCancel(_, _, _) =>
    case Push =>
    case Swap =>
    case Lock =>
    case Unlock =>
    case Clear =>
  }

  // ----- every step keeps the balance

  lemma SubmitBalance(us: seq<int>, a: Asset, x: Exchange, o: Order)
    requires NoRepeats(us) && Good(x) && Enabled(x, Submit(o))
    ensures Balance(us, a, SubmitOrder(x, o)) == Balance(us, a, x)
  {
    hide Good; hide WalletsValue; hide BooksValue; hide TasksValue; hide Flows; hide Value;
    GoodRound(x);
    CashAdded(us, a, x.wallets, o.userId, -(Value(o.price, o.quantity) as int));
    SharesAdded(us, a, x.wallets, o.userId, o.companyId, -(o.quantity as int));
    assert QueuedValue(us, a, [OrderTask(o.companyId, o)]) == OrderValue(us, a, o.companyId, o);
  }

  lemma GoodRound(x: Exchange)
    requires Good(x)
    ensures InRound(x)
  {
  }

  /** What serving the next task conjures up: the whole of an order that was cancelled out of slot 0
      before, refunded again. */
  function ConjuredBy(us: seq<int>, a: Asset, x: Exchange): nat {
    if HitsHead(x) then OrderValue(us, a, x.queue[0].company, x.books[x.queue[0].company].value.slot0) else 0
  }

  lemma ServeBalance(us: seq<int>, a: Asset, x: Exchange)
    requires Good(x) && x.queue != [] && x.outgoing == []
    ensures Balance(us, a, ServeFirst(x)) == Balance(us, a, x) + ConjuredBy(us, a, x)
  {
    hide WalletsValue; hide BooksValue; hide TaskValue; hide Flows; hide Serve; hide EngineTaskValue; hide BookValue;
    hide Sided;
    hide BookUsersIn; hide TasksUsersIn; hide Solvent; hide Hits; hide OrderValue;
    var task := x.queue[0];
    if Known(x, task.company) {
      var e := x.books[task.company].value;
      var s := Serve(e, task);
      ServeValue(us, a, e, task);
      BookReplaced(us, a, x.books, task.company, s.engine);
      assert TasksValue(us, a, []) == 0;
      FlowsAppend(us, a, x.trades, s.trades);
    } else {
      QueuedAppend(us, a, x.dropped, [task]);
      assert QueuedValue(us, a, [task]) == EngineTaskValue(us, a, task);
    }
  }

  /** Serving a cancel changes what any users have in total by exactly the value that was left in the idle
      slot it hits, if it hits one; so it keeps the total exactly if it hits none, or nothing of value to
      them was left. */
  lemma CancelServed(us: seq<int>, a: Asset, x: Exchange)
    requires Good(x) && Enabled(x, ServeTask) && x.queue[0].CancelTask?
    ensures var c, x' := x.queue[0].company, Next(x, ServeTask);
            && x'.over == HitsHead(x)
            && x'.applied <= |x'.back| && x.applied <= |x.back|
            && Balance(us, a, x') == Balance(us, a, x)
                 + (if HitsHead(x) then OrderValue(us, a, c, x.books[c].value.slot0) else 0)
            && Total(us, a, x') - Total(us, a, x) == Balance(us, a, x') - Balance(us, a, x)
            && (Balance(us, a, x') == Balance(us, a, x)
                <==> !HitsHead(x) || OrderValue(us, a, c, x.books[c].value.slot0) == 0)
  {
    hide Good; hide OrderValue; hide Hits; hide WalletsValue; hide BooksValue; hide TasksValue; hide QueuedValue;
    GoodRound(x);
    ServeBalance(us, a, x);
    if Known(x, x.queue[0].company) { CancelTradesNothing(x); }
    QueuedAppend(us, a, x.dropped, [x.queue[0]]);
    CancelWorthless(us, a, x.queue[0]);
  }

  lemma CancelTradesNothing(x: Exchange)
    requires x.queue != [] && x.queue[0].CancelTask? && Known(x, x.queue[0].company)
    ensures ServeFirst(x).trades == x.trades && ServeFirst(x).dropped == x.dropped
  {
    hide CancelStep;
  }

  lemma ApplyValue(us: seq<int>, a: Asset, w: Wallets, task: DbTask)
    requires NoRepeats(us) && TaskUsersIn(w.cash.Keys, task)
    ensures WalletsValue(us, a, Apply(w, task)) == WalletsValue(us, a, w) + TaskValue(us, a, task)
  {
    hide WalletsValue; hide Value;
    match task
    case Settle(buyer, seller, quantity, price, limit, company) =>
      SharesAdded(us, a, w, buyer, company, quantity);
      var w1 := AddShares(w, buyer, company, quantity);
      CashAdded(us, a, w1, seller, Value(price, quantity));
      if limit > price { CashAdded(us, a, AddCash(w1, seller, Value(price, quantity)), buyer,
          Value(limit - price, quantity)); }
    case RefundCash(user, quantity, price) => CashAdded(us, a, w, user, Value(price, quantity));
    case RefundShares(user, quantity, company) => SharesAdded(us, a, w, user, company, quantity);
    case LogTrade(_) =>
  }

  lemma ApplyBalance(us: seq<int>, a: Asset, x: Exchange)
    requires NoRepeats(us) && Good(x) && Enabled(x, ApplyTask)
    ensures Balance(us, a, Next(x, ApplyTask)) == Balance(us, a, x)
  {
    hide WalletsValue; hide BooksValue; hide Flows; hide TaskValue; hide Apply; hide Sided; hide BookUsersIn;
    hide Solvent; hide TaskUsersIn;
    ApplyValue(us, a, x.wallets, x.back[x.applied]);
    assert x.back[x.applied..][0] == x.back[x.applied] && x.back[x.applied..][1..] == x.back[x.applied + 1..];
  }

  lemma CancelWorthless(us: seq<int>, a: Asset, task: EngineTask)
    requires task.CancelTask?
    ensures QueuedValue(us, a, [task]) == 0
  {
  }

  /** What a step conjures up. */
  function ConjuredIn(us: seq<int>, a: Asset, x: Exchange, step: Step): nat {
    if step.ServeTask? then ConjuredBy(us, a, x) else 0
  }

  lemma StepBalance(us: seq<int>, a: Asset, x: Exchange, step: Step)
    requires NoRepeats(us) && Good(x) && Enabled(x, step)
    ensures Good(Next(x, step))
    ensures Balance(us, a, Next(x, step)) == Balance(us, a, x) + ConjuredIn(us, a, x, step)
  {
    hide WalletsValue; hide BooksValue; hide Flows; hide EngineTaskValue; hide TaskValue; hide Apply; hide Serve;
    hide Good;
    hide ConjuredBy;
    StepKeepsGood(x, step);
    GoodRound(x);
    match step
    case Submit(o) => SubmitBalance(us, a, x, o);
    case ServeTask => ServeBalance(us, a, x);
    case Emit =>
      var n := PushedTogether(x.outgoing);
      TasksAppend(us, a, x.outgoing[..n], x.outgoing[n..]);
      TasksAppend(us, a, x.front, x.outgoing[..n]);
      assert x.outgoing[..n] + x.outgoing[n..] == x.outgoing;
    case ApplyTask => ApplyBalance(us, a, x);
    case RequestCancel(company, orderId, userId) => CancelWorthless(us, a, CancelTask(company, orderId, userId));
    case Push => QueuedAppend(us, a, x.queue, x.hand);
    case Swap => assert x.back[x.applied..] == [] && x.front[0..] == x.front;
    case Lock =>
    case Unlock =>
    case Clear => assert x.back[x.applied..] == [];
  }

  /** What a run conjures up. */
  function ConjuredAll(us: seq<int>, a: Asset, x: Exchange, steps: seq<Step>): nat
    requires EnabledAll(x, steps)
    decreases |steps|
  {
    if steps == [] then 0 else ConjuredIn(us, a, x, steps[0]) + ConjuredAll(us, a, Next(x, steps[0]), steps[1..])
  }

  lemma {:induction false} RunBalance(us: seq<int>, a: Asset, x: Exchange, steps: seq<Step>)
    requires NoRepeats(us) && Good(x) && EnabledAll(x, steps)
    ensures Good(Run(x, steps)) && Run(x, steps).applied <= |Run(x, steps).back|
    ensures Balance(us, a, Run(x, steps)) == Balance(us, a, x) + ConjuredAll(us, a, x, steps)
    decreases |steps|
  {
    hide Balance; hide Next; hide Enabled; hide ConjuredIn;
    if steps != [] {
      StepBalance(us, a, x, steps[0]);
      RunBalance(us, a, Next(x, steps[0]), steps[1..]);
    }
  }

  // ----- conservation

  lemma InitialGood(x: Exchange)
    requires Initial(x)
    ensures Good(x)
  {
  }

  lemma {:induction false} EmptyBooks(us: seq<int>, a: Asset, books: seq<Option<Engine>>)
    requires forall c: nat :: c < |books| && books[c].Some? ==> books[c].value.book == EMPTY_BOOK
    ensures BooksValue(us, a, books) == 0
  {
    if books != [] {
      EmptyBooks(us, a, books[..|books| - 1]);
    }
  }

  /** For any group of users and any asset: what they have after a run is what they had, plus what
      trades moved to them, plus what was conjured up, less what was dropped. */
  lemma RunAccounts(us: seq<int>, a: Asset, x: Exchange, steps: seq<Step>)
    requires NoRepeats(us) && Initial(x) && EnabledAll(x, steps)
    ensures var y := Run(x, steps);
            && y.applied <= |y.back|
            && Total(us, a, y) + QueuedValue(us, a, y.dropped)
               == WalletsValue(us, a, x.wallets) + Flows(us, a, y.trades) + ConjuredAll(us, a, x, steps)
  {
    hide Run; hide Good; hide WalletsValue; hide ConjuredAll;
    InitialGood(x);
    RunBalance(us, a, x, steps);
    forall c: nat | c < |x.books| && x.books[c].Some? ensures x.books[c].value.book == EMPTY_BOOK {
      assert Known(x, c);
    }
    EmptyBooks(us, a, x.books);
  }

  lemma {:induction false} FlowsCancel(us: seq<int>, a: Asset, trades: seq<Trade>)
    requires forall k: nat :: k < |trades| ==> trades[k].buyerId in us && trades[k].sellerId in us
    ensures Flows(us, a, trades) == 0
  {
    if trades != [] {
      FlowsCancel(us, a, trades[1..]);
    }
  }

  lemma {:induction false} RunKeepsUsers(x: Exchange, steps: seq<Step>)
    requires Good(x) && EnabledAll(x, steps)
    ensures Good(Run(x, steps)) && Run(x, steps).wallets.cash.Keys == x.wallets.cash.Keys
    decreases |steps|
  {
    hide Good; hide Next; hide Enabled;
    if steps != [] {
      StepKeepsGood(x, steps[0]);
      StepKeepsUsers(x, steps[0]);
      RunKeepsUsers(Next(x, steps[0]), steps[1..]);
    }
  }

  lemma StepKeepsUsers(x: Exchange, step: Step)
    requires Good(x) && Enabled(x, step)
    ensures Next(x, step).wallets.cash.Keys == x.wallets.cash.Keys
  {
    match step
    case Submit(o) => ReserveKeepsGood(x, o);
    case ApplyTask => ApplyKeepsSolvent(x.wallets, x.back[x.applied]);
    case ServeTask =>
    case Emit =>
    case RequestCancel(_, _, _) =>
    case Push =>
    case Swap =>
    case Lock =>
    case Unlock =>
    case Clear =>
  }

  /** Over all registered users, the cash, and the shares of each company, in wallets, reserved
      and pending add up to the same after every run, but for the tasks that were dropped and, if the
      run ended with a cancel that hit an idle slot, the refund conjured up by that. No wallet is ever
      overdrawn. */
  lemma Conservation(us: seq<int>, a: Asset, x: Exchange, steps: seq<Step>)
    requires NoRepeats(us) && Initial(x) && EnabledAll(x, steps)
    requires forall u :: u in us <==> u in x.wallets.cash
    ensures var y := Run(x, steps);
            && y.applied <= |y.back| && Solvent(y.wallets)
            && Total(us, a, y) + QueuedValue(us, a, y.dropped) == Total(us, a, x) + ConjuredAll(us, a, x, steps)
            && (!y.over ==> ConjuredAll(us, a, x, steps) == 0)
  {
    hide Run; hide WalletsValue; hide EnabledAll; hide Sided; hide BookUsersIn; hide TasksUsersIn; hide ConjuredAll;
    InitialGood(x);
    RunAccounts(us, a, x, steps);
    RunNothing(us, a, x);
    RunAccounts(us, a, x, []);
    RunKeepsUsers(x, steps);
    FlowsCancel(us, a, Run(x, steps).trades);
    OverOnlyByHit(us, a, x, steps);
  }

  /** No cancel that is served hits an idle slot: at each of them the guard can be looked up in the book. */
  predicate NoHits(x: Exchange, steps: seq<Step>)
    requires EnabledAll(x, steps)
    decreases |steps|
  {
    steps == [] || ((steps[0].ServeTask? ==> !HitsHead(x)) && NoHits(Next(x, steps[0]), steps[1..]))
  }

  lemma {:induction false} OverOnlyByHit(us: seq<int>, a: Asset, x: Exchange, steps: seq<Step>)
    requires EnabledAll(x, steps) && !x.over
    ensures NoHits(x, steps) <==> !Run(x, steps).over
    ensures NoHits(x, steps) ==> ConjuredAll(us, a, x, steps) == 0
    decreases |steps|
  {
    hide Serve; hide Apply; hide Value; hide Hits; hide OrderValue;
    if steps != [] {
      var x' := Next(x, steps[0]);
      assert x'.over <==> steps[0].ServeTask? && HitsHead(x);
      if !x'.over {
        OverOnlyByHit(us, a, x', steps[1..]);
      }
    }
  }

  lemma RunNothing(us: seq<int>, a: Asset, x: Exchange)
    ensures EnabledAll(x, []) && Run(x, []) == x && ConjuredAll(us, a, x, []) == 0
  {
  }

  // ----- orders for companies that are not listed

  /** The reservation for an order succeeds. */
  predicate Covered(x: Exchange, o: Order) {
    if o.side then Value(o.price, o.quantity) <= CashOf(x.wallets, o.userId)
    else o.quantity <= SharesOf(x.wallets, o.userId, o.companyId)
  }

  /** What a submission reserves for an order that no book will ever get. */
  function StrayedIn(us: seq<int>, a: Asset, x: Exchange, step: Step): nat {
    if step.Submit? && !Known(x, step.order.companyId) && Covered(x, step.order)
    then OrderValue(us, a, step.order.companyId, step.order) else 0
  }

  function StrayedAll(us: seq<int>, a: Asset, x: Exchange, steps: seq<Step>): nat
    requires EnabledAll(x, steps)
    decreases |steps|
  {
    if steps == [] then 0 else StrayedIn(us, a, x, steps[0]) + StrayedAll(us, a, Next(x, steps[0]), steps[1..])
  }

  /** The value of the tasks that name no listed company. */
  function Strays(us: seq<int>, a: Asset, x: Exchange, tasks: seq<EngineTask>): nat {
    if tasks == [] then 0
    else (if Known(x, tasks[0].company) then 0 else EngineTaskValue(us, a, tasks[0])) + Strays(us, a, x, tasks[1..])
  }

  /** Stray reservations that were dropped or will be. */
  function Strayed(us: seq<int>, a: Asset, x: Exchange): nat {
    QueuedValue(us, a, x.dropped) + Strays(us, a, x, x.hand) + Strays(us, a, x, x.queue)
  }

  lemma {:induction false} StraysAppend(us: seq<int>, a: Asset, x: Exchange, ts: seq<EngineTask>, ts': seq<EngineTask>)
    ensures Strays(us, a, x, ts + ts') == Strays(us, a, x, ts) + Strays(us, a, x, ts')
  {
    hide EngineTaskValue; hide Known;
    if ts == [] {
      assert ts + ts' == ts';
    } else {
      assert (ts + ts')[1..] == ts[1..] + ts';
      StraysAppend(us, a, x, ts[1..], ts');
    }
  }

  lemma {:induction false} SameStrays(us: seq<int>, a: Asset, x: Exchange, x': Exchange, tasks: seq<EngineTask>)
    requires forall c: nat :: Known(x', c) <==> Known(x, c)
    ensures Strays(us, a, x', tasks) == Strays(us, a, x, tasks)
  {
    hide EngineTaskValue; hide Known;
    if tasks != [] { SameStrays(us, a, x, x', tasks[1..]); }
  }

  lemma StepKeepsKnown(x: Exchange, step: Step)
    requires Enabled(x, step)
    ensures forall c: nat :: Known(Next(x, step), c) <==> Known(x, c)
  {
    hide Serve; hide Apply; hide Value; hide Hits;
  }

  lemma ServeStrays(us: seq<int>, a: Asset, x: Exchange)
    requires x.queue != []
    ensures Strayed(us, a, ServeFirst(x)) == Strayed(us, a, x)
  {
    hide Serve; hide Hits; hide OrderValue; hide QueuedValue;
    var x' := ServeFirst(x);
    SameStrays(us, a, x, x', x'.hand);
    SameStrays(us, a, x, x', x'.queue);
    QueuedAppend(us, a, x.dropped, [x.queue[0]]);
    SingleQueued(us, a, x.queue[0]);
  }

  lemma StepStrays(us: seq<int>, a: Asset, x: Exchange, step: Step)
    requires Enabled(x, step)
    ensures Strayed(us, a, Next(x, step)) == Strayed(us, a, x) + StrayedIn(us, a, x, step)
  {
    hide ServeFirst; hide Apply; hide Value; hide OrderValue; hide QueuedValue; hide Known;
    if step.ServeTask? {
      ServeStrays(us, a, x);
    } else {
      var x' := Next(x, step);
      StepKeepsKnown(x, step);
      SameStrays(us, a, x, x', x'.hand);
      SameStrays(us, a, x, x', x'.queue);
      match step
      case Push => StraysAppend(us, a, x, x.queue, x.hand);
      case Submit(o) => assert Strays(us, a, x, [OrderTask(o.companyId, o)][1..]) == 0;
      case RequestCancel(company, orderId, userId) =>
        assert Strays(us, a, x, [CancelTask(company, orderId, userId)][1..]) == 0;
      case _ =>
    }
  }

  lemma SingleQueued(us: seq<int>, a: Asset, task: EngineTask)
    ensures QueuedValue(us, a, [task]) == EngineTaskValue(us, a, task)
  {
  }

  lemma {:induction false} RunStrays(us: seq<int>, a: Asset, x: Exchange, steps: seq<Step>)
    requires EnabledAll(x, steps)
    ensures Strayed(us, a, Run(x, steps)) == Strayed(us, a, x) + StrayedAll(us, a, x, steps)
    decreases |steps|
  {
    hide Strayed; hide StrayedIn; hide Next; hide Enabled;
    if steps != [] {
      StepStrays(us, a, x, steps[0]);
      RunStrays(us, a, Next(x, steps[0]), steps[1..]);
    }
  }

  /** While no served cancel hits an idle slot, and once every request has been served, the total differs
      by exactly what was reserved for unlisted companies. */
  lemma ExactConservation(us: seq<int>, a: Asset, x: Exchange, steps: seq<Step>)
    requires NoRepeats(us) && Initial(x) && EnabledAll(x, steps) && NoHits(x, steps)
    requires forall u :: u in us <==> u in x.wallets.cash
    requires Run(x, steps).hand == [] && Run(x, steps).queue == []
    ensures var y := Run(x, steps);
            && y.applied <= |y.back|
            && Total(us, a, y) + StrayedAll(us, a, x, steps) == Total(us, a, x)
            && (Total(us, a, y) == Total(us, a, x) <==> StrayedAll(us, a, x, steps) == 0)
  {
    hide Run; hide Total; hide EnabledAll; hide ConjuredAll; hide StrayedAll; hide NoHits;
    OverOnlyByHit(us, a, x, steps);
    Conservation(us, a, x, steps);
    RunStrays(us, a, x, steps);
  }

  predicate SubmitsListed(x: Exchange, step: Step) {
    step.Submit? ==> Known(x, step.order.companyId)
  }

  lemma {:induction false} NothingStrays(us: seq<int>, a: Asset, x: Exchange, steps: seq<Step>)
    requires EnabledAll(x, steps) && forall k: nat :: k < |steps| ==> SubmitsListed(x, steps[k])
    ensures StrayedAll(us, a, x, steps) == 0
    decreases |steps|
  {
    hide Next; hide Enabled; hide Known; hide Covered;
    if steps != [] {
      assert SubmitsListed(x, steps[0]);
      StepKeepsKnown(x, steps[0]);
      var x' := Next(x, steps[0]);
      forall k: nat | k < |steps[1..]| ensures SubmitsListed(x', steps[1..][k]) {
        assert SubmitsListed(x, steps[k + 1]);
      }
      NothingStrays(us, a, x', steps[1..]);
    }
  }

  /** While no served cancel hits an idle slot, and if every submission names a listed company, everything
      is conserved. */
  lemma ListedConservation(us: seq<int>, a: Asset, x: Exchange, steps: seq<Step>)
    requires NoRepeats(us) && Initial(x) && EnabledAll(x, steps) && NoHits(x, steps)
    requires forall u :: u in us <==> u in x.wallets.cash
    requires forall k: nat :: k < |steps| ==> SubmitsListed(x, steps[k])
    ensures var y := Run(x, steps); y.applied <= |y.back| && Total(us, a, y) == Total(us, a, x)
  {
    hide Run; hide Total; hide EnabledAll; hide Known; hide ConjuredAll; hide StrayedAll; hide NoHits;
    OverOnlyByHit(us, a, x, steps);
    NothingStrays(us, a, x, steps);
    RunStrays(us, a, x, steps);
    Conservation(us, a, x, steps);
  }

  // ----- cancels of id 0

  /** A queued cancel names an id that an engine may have issued. */
  predicate Named(task: EngineTask) {
    task.CancelTask? ==> task.orderId != 0
  }

  predicate NamesId(step: Step) {
    step.RequestCancel? ==> step.orderId != 0
  }

  /** A run in which no cancel names id 0 never hits an idle slot, so it may go on for ever. */
  lemma {:induction false} NamedNeverHits(x: Exchange, steps: seq<Step>)
    requires EnabledAll(x, steps) && forall k: nat :: k < |steps| ==> NamesId(steps[k])
    requires (forall task :: task in x.hand ==> Named(task)) && forall task :: task in x.queue ==> Named(task)
    ensures NoHits(x, steps)
    decreases |steps|
  {
    hide Serve; hide Apply; hide Value;
    if steps != [] {
      assert NamesId(steps[0]);
      forall k: nat | k < |steps[1..]| ensures NamesId(steps[1..][k]) { assert NamesId(steps[k + 1]); }
      if steps[0].ServeTask? { assert Named(x.queue[0]); }
      NamedNeverHits(Next(x, steps[0]), steps[1..]);
    }
  }

  /** Without cancels of id 0 and without orders for unlisted companies, everything is conserved. */
  lemma PlainConservation(us: seq<int>, a: Asset, x: Exchange, steps: seq<Step>)
    requires NoRepeats(us) && Initial(x) && EnabledAll(x, steps)
    requires forall u :: u in us <==> u in x.wallets.cash
    requires forall k: nat :: k < |steps| ==> SubmitsListed(x, steps[k]) && NamesId(steps[k])
    ensures var y := Run(x, steps); y.applied <= |y.back| && Total(us, a, y) == Total(us, a, x)
  {
    hide Run; hide Total; hide EnabledAll; hide Known; hide NoHits;
    NamedNeverHits(x, steps);
    ListedConservation(us, a, x, steps);
  }

  // ----- two runs that do not conserve

  /** Registered user 7 has ten cents, and company 1 is listed. */
  function Opening(): Exchange {
    Exchange(Wallets(map[7 := 10], map[]), [], [], [None, Some(InitialEngine())], false,
             [], [], [], 0, Waiting, [], [], [], [])
  }

  lemma OpeningInitial()
    ensures Initial(Opening()) && Total([7], Cash, Opening()) == 10
  {
    assert forall c: nat :: Known(Opening(), c) <==> c == 1;
    EmptyBooks([7], Cash, Opening().books);
    assert WalletsValue([7][1..], Cash, Opening().wallets) == 0;
  }

  lemma RunOne(us: seq<int>, a: Asset, x: Exchange, step: Step, steps: seq<Step>)
    requires Enabled(x, step) && EnabledAll(Next(x, step), steps)
    ensures EnabledAll(x, [step] + steps) && Run(x, [step] + steps) == Run(Next(x, step), steps)
    ensures ConjuredAll(us, a, x, [step] + steps) == ConjuredIn(us, a, x, step)
      + ConjuredAll(us, a, Next(x, step), steps)
  {
    hide Next; hide Enabled; hide ConjuredIn;
    assert ([step] + steps)[1..] == steps;
  }

  /** The order path does not check the company, and the engine worker drops the task of an unlisted one
      with its reservation: five cents go missing. */
  lemma UnlistedCompanyLoses()
    ensures var steps := [Submit(Order(0, 7, 0, 1, 5, 3, true)), Push, ServeTask];
            && Initial(Opening()) && EnabledAll(Opening(), steps)
            && var y := Run(Opening(), steps);
               y.hand == y.queue == [] && y.applied <= |y.back|
                   && Total([7], Cash, y) == 5 < Total([7], Cash, Opening())
  {
    hide Total;
    OpeningInitial();
    var o := Order(0, 7, 0, 1, 5, 3, true);
    var x1 := Next(Opening(), Submit(o));
    var x2 := Next(x1, Push);
    RunOne([7], Cash, x2, ServeTask, []);
    RunOne([7], Cash, x1, Push, [ServeTask]);
    RunOne([7], Cash, Opening(), Submit(o), [Push, ServeTask]);
    assert [Push] + [ServeTask] == [Push, ServeTask];
    assert [Submit(o)] + [Push, ServeTask] == [Submit(o), Push, ServeTask];
    Conservation([7], Cash, Opening(), [Submit(o), Push, ServeTask]);
    assert QueuedValue([7], Cash, Next(x2, ServeTask).dropped) == 5;
  }

  /** The first order of a book rests in slot 0, and leaves itself there when it is cancelled. */
  lemma FirstOrderCancelled(o: Order)
    requires o.price < MAX_PRICE && o.quantity > 0 && o.id == 0
    ensures var placed := Serve(InitialEngine(), OrderTask(o.companyId, o));
            var cancelled := Serve(placed.engine, CancelTask(o.companyId, TWO_32, o.userId));
            && placed.tasks == [] && placed.trades == [] && cancelled.trades == []
            && cancelled.tasks == [RefundTask(o.userId, o.side, o.quantity, o.price, o.companyId)]
            && cancelled.engine.slot0 == o
            && HitsIdle(cancelled.engine, 0, o.userId) && !HitsIdle(placed.engine, TWO_32, o.userId)
  {
    hide RefundTask;
    var e := InitialEngine();
    var o1 := o.(id := TWO_32);
    assert e.free[|e.free| - 1] == 0 && PackId(1, 0) == TWO_32;
    assert Process(EMPTY_BOOK, o1) == Processed(EMPTY_BOOK.WithSide(o.side, [o1]), [], 0, o1, []);
    var placed := Serve(e, OrderTask(o.companyId, o));
    assert placed.engine.book == EMPTY_BOOK.WithSide(o.side, [o1]) && placed.engine.slot0 == o1;
    assert Cancel(placed.engine.book, TWO_32, o.userId) == Cancelled(EMPTY_BOOK, Some(o1)) by {
      assert Find([o1], TWO_32) == 0 && Without([o1], 0) == [] && Find([], TWO_32) == 0;
    }
  }

  /** A registered user cancels his order in slot 0 and then id 0: the reservation is refunded twice. */
  function TwoCancels(): seq<Step> {
    [Submit(Order(0, 7, 0, 1, 5, 1, true)), Push, ServeTask]
    + ([RequestCancel(1, TWO_32, 7), Push, ServeTask] + [Emit, RequestCancel(1, 0, 7), Push, ServeTask])
  }

  lemma RunThen(us: seq<int>, a: Asset, x: Exchange, s: Step, t: Step, u: Step, steps: seq<Step>)
    requires Enabled(x, s) && Enabled(Next(x, s), t) && Enabled(Next(Next(x, s), t), u)
    requires EnabledAll(Next(Next(Next(x, s), t), u), steps)
    ensures EnabledAll(x, [s, t, u] + steps) && Run(x, [s, t, u] + steps) == Run(Next(Next(Next(x, s), t), u), steps)
    ensures ConjuredAll(us, a, x, [s, t, u] + steps)
         == ConjuredIn(us, a, x, s) + ConjuredIn(us, a, Next(x, s), t) + ConjuredIn(us, a, Next(Next(x, s), t), u)
            + ConjuredAll(us, a, Next(Next(Next(x, s), t), u), steps)
  {
    hide Next; hide Enabled; hide ConjuredIn;
    RunOne(us, a, Next(Next(x, s), t), u, steps);
    RunOne(us, a, Next(x, s), t, [u] + steps);
    RunOne(us, a, x, s, [t] + ([u] + steps));
    assert [s, t, u] + steps == [s] + ([t] + ([u] + steps));
  }

  /** Nothing is under way between the I/O thread and the engine worker, and the book of this company is
      served. */
  predicate Quiet(x: Exchange, company: nat) {
    x.hand == x.queue == [] && x.outgoing == [] && Known(x, company) && !x.over
  }

  lemma OrderThrough(x: Exchange, o: Order)
    requires Quiet(x, o.companyId) && Covered(x, o) && Enabled(x, Submit(o))
    ensures var x1 := Next(x, Submit(o));
            Enabled(x1, Push) && Enabled(Next(x1, Push), ServeTask) && !HitsHead(Next(x1, Push))
    ensures var s := Serve(x.books[o.companyId].value, OrderTask(o.companyId, o));
            var y := Next(Next(Next(x, Submit(o)), Push), ServeTask);
            && y.hand == y.queue == [] && y.outgoing == s.tasks && y.wallets.cash.Keys == x.wallets.cash.Keys
            && Known(y, o.companyId) && y.books[o.companyId].value == s.engine && y.dropped == x.dropped
            && !y.over
  {
    hide Serve; hide Value;
    var x2 := Next(Next(x, Submit(o)), Push);
    assert x2.queue == [OrderTask(o.companyId, o)];
  }

  lemma CancelThrough(x: Exchange, company: nat, id: nat, user: int)
    requires Quiet(x, company) && user in x.wallets.cash
    ensures var x1 := Next(x, RequestCancel(company, id, user));
            Enabled(x, RequestCancel(company, id, user)) && Enabled(x1, Push) && Enabled(Next(x1, Push), ServeTask)
    ensures var x2 := Next(Next(x, RequestCancel(company, id, user)), Push);
            var s := Serve(x.books[company].value, CancelTask(company, id, user));
            var y := Next(x2, ServeTask);
            && y.hand == y.queue == [] && y.outgoing == s.tasks && y.wallets == x.wallets && y.dropped == x.dropped
            && Known(y, company) && y.books[company].value == s.engine
            && y.over == HitsHead(x2) && (HitsHead(x2) <==> HitsIdle(x.books[company].value, id, user))
            && x2.books == x.books && x2.queue == [CancelTask(company, id, user)]
  {
    hide Serve; hide HitsIdle;
    var x2 := Next(Next(x, RequestCancel(company, id, user)), Push);
    assert x2.queue == [CancelTask(company, id, user)];
  }

  lemma DoubleRefund()
    ensures Initial(Opening()) && EnabledAll(Opening(), TwoCancels())
    ensures var y := Run(Opening(), TwoCancels());
            y.applied <= |y.back| && Total([7], Cash, y) == 15 && Total([7], Cash, Opening()) == 10
  {
    hide Total; hide Serve; hide HitsIdle; hide Hits; hide Next;
    var o := Order(0, 7, 0, 1, 5, 1, true);
    var first, again := RequestCancel(1, TWO_32, 7), RequestCancel(1, 0, 7);
    FirstOrderCancelled(o);
    OpeningInitial();
    var x0 := Opening();
    assert Covered(x0, o);
    OrderThrough(x0, o);
    var x3 := Next(Next(Next(x0, Submit(o)), Push), ServeTask);
    CancelThrough(x3, 1, TWO_32, 7);
    var x6 := Next(Next(Next(x3, first), Push), ServeTask);
    EmitOne(x6);
    var x7 := Next(x6, Emit);
    CancelThrough(x7, 1, 0, 7);
    RunOne([7], Cash, Next(Next(x7, again), Push), ServeTask, []);
    RunThen([7], Cash, x6, Emit, again, Push, [ServeTask]);
    assert [Emit, again, Push] + [ServeTask] == [Emit, again, Push, ServeTask];
    RunThen([7], Cash, x3, first, Push, ServeTask, [Emit, again, Push, ServeTask]);
    RunThen([7], Cash, x0, Submit(o), Push, ServeTask, [first, Push, ServeTask] + [Emit, again, Push, ServeTask]);
    Conservation([7], Cash, x0, TwoCancels());
    assert OrderValue([7], Cash, 1, o) == 5;
    assert ConjuredAll([7], Cash, Next(Next(Next(x7, again), Push), ServeTask), []) == 0;
    assert ConjuredIn([7], Cash, Next(Next(x7, again), Push), ServeTask) == 5;
  }

  lemma EmitOne(x: Exchange)
    requires |x.outgoing| == 1 && !x.over
    ensures Enabled(x, Emit)
    ensures var y := Next(x, Emit);
            && y.outgoing == [] && y.hand == x.hand && y.queue == x.queue && y.books == x.books
                && !y.over
            && y.wallets == x.wallets && y.dropped == x.dropped
  {
  }

  // ----- double buffering

  function Batches(events: seq<WalletEvent>): seq<DbTask> {
    if events == [] then []
    else
      var last := events[|events| - 1];
      Batches(events[..|events| - 1]) + (if last.Batch? then last.tasks else [])
  }

  function Happen(w: Wallets, event: WalletEvent): Wallets {
    match event
    case TookCash(user, amount) => TakeCash(w, user, amount)
    case TookShares(user, company, quantity) => TakeShares(w, user, company, quantity)
    case Batch(tasks) => ApplyAll(w, tasks)
  }

  /** The wallets after reservations and whole batches, one after the other. */
  function Replay(w: Wallets, events: seq<WalletEvent>): Wallets {
    if events == [] then w else Happen(Replay(w, events[..|events| - 1]), events[|events| - 1])
  }

  /** The swapped batch, until it is committed. */
  function Unsettled(x: Exchange): seq<DbTask> {
    if x.worker.Swapped? || x.worker.Settling? then x.back else []
  }

  ghost predicate Buffered(w0: Wallets, x: Exchange) {
    && InRound(x)
    && x.emitted == Batches(x.events) + Unsettled(x) + x.front
    && x.wallets == (if x.worker.Settling? then ApplyAll(Replay(w0, x.events), x.back[..x.applied])
        else Replay(w0, x.events))
  }

  lemma EventAdded(w: Wallets, events: seq<WalletEvent>, event: WalletEvent)
    ensures Replay(w, events + [event]) == Happen(Replay(w, events), event)
    ensures Batches(events + [event]) == Batches(events) + (if event.Batch? then event.tasks else [])
  {
    hide Happen;
    assert (events + [event])[..|events|] == events;
  }

  lemma StepKeepsBuffered(w0: Wallets, x: Exchange, step: Step)
    requires Buffered(w0, x) && Enabled(x, step)
    ensures Buffered(w0, Next(x, step))
  {
    hide Batches; hide Replay; hide Apply; hide Serve; hide Value; hide AddCash; hide TakeShares;
    match step
    case Submit(o) =>
      EventAdded(w0, x.events, TookCash(o.userId, Value(o.price, o.quantity)));
      EventAdded(w0, x.events, TookShares(o.userId, o.companyId, o.quantity));
      assert Batches(x.events) + [] == Batches(x.events);
    case ServeTask =>
    case Emit =>
      Assoc(Batches(x.events) + Unsettled(x), x.front, x.outgoing[..PushedTogether(x.outgoing)]);
    case Swap =>
      assert x.front + [] == x.front && Batches(x.events) + [] == Batches(x.events);
    case Lock =>
      assert x.back[..0] == [];
    case ApplyTask =>
      assert x.back[..x.applied + 1] == x.back[..x.applied] + [x.back[x.applied]];
      ApplyAppend(Replay(w0, x.events), x.back[..x.applied], [x.back[x.applied]]);
    case Unlock =>
      EventAdded(w0, x.events, Batch(x.back));
      assert x.back[..|x.back|] == x.back;
      assert Batches(x.events) + x.back + [] == Batches(x.events) + x.back;
    case Clear =>
    case Push =>
    case RequestCancel(_, _, _) =>
  }

  lemma {:induction false} RunKeepsBuffered(w0: Wallets, x: Exchange, steps: seq<Step>)
    requires Buffered(w0, x) && EnabledAll(x, steps)
    ensures Buffered(w0, Run(x, steps))
    decreases |steps|
  {
    hide Next; hide Enabled; hide Buffered;
    if steps != [] {
      StepKeepsBuffered(w0, x, steps[0]);
      RunKeepsBuffered(w0, Next(x, steps[0]), steps[1..]);
    }
  }

  /** For any choice of swap points: the tasks settled so far are, in order and each once, a prefix
      of those emitted; the back buffer is empty at every swap; and whenever the mutex is free, the
      wallets are the outcome of whole batches and reservations alone. */
  lemma DoubleBuffering(x: Exchange, steps: seq<Step>)
    requires Initial(x) && EnabledAll(x, steps)
    ensures var y := Run(x, steps);
            && Batches(y.events) <= y.emitted && y.emitted == Batches(y.events) + Unsettled(y) + y.front
            && (Enabled(y, Swap) ==> y.back == [])
            && (!y.worker.Settling? ==> y.wallets == Replay(x.wallets, y.events))
  {
    hide Run; hide EnabledAll; hide Batches; hide Replay;
    InitialBuffered(x);
    RunKeepsBuffered(x.wallets, x, steps);
  }

  lemma InitialBuffered(x: Exchange)
    requires Initial(x)
    ensures Buffered(x.wallets, x)
  {
    assert Replay(x.wallets, []) == x.wallets && Batches([]) == [];
  }
}
