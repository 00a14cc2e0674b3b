/** The wallet tables: cash balances and share portfolios, the statements that reserve, settle and
    release them, and the batch loop of the database worker. */
module Accounts {
  import opened Orders

  /** The rows of balances and of portfolios. */
  datatype Wallets = Wallets(cash: map<int, int>, shares: map<(int, nat), int>)

  function CashOf(w: Wallets, user: int): int {
    if user in w.cash then w.cash[user] else 0
  }

  function SharesOf(w: Wallets, user: int, company: nat): int {
    if (user, company) in w.shares then w.shares[(user, company)] else 0
  }

  /** UPDATE balances SET cash = cash + amount: no row, no effect. */
  function AddCash(w: Wallets, user: int, amount: int): Wallets {
    if user in w.cash then w.(cash := w.cash[user := w.cash[user] + amount]) else w
  }

  /** UPDATE balances SET cash = cash - amount. */
  function TakeCash(w: Wallets, user: int, amount: int): Wallets {
    AddCash(w, user, -amount)
  }

  /** INSERT INTO portfolios ... ON CONFLICT DO UPDATE SET shares = shares + quantity. */
  function AddShares(w: Wallets, user: int, company: nat, quantity: int): Wallets {
    w.(shares := w.shares[(user, company) := SharesOf(w, user, company) + quantity])
  }

  /** UPDATE portfolios SET shares = shares - quantity: no row, no effect. */
  function TakeShares(w: Wallets, user: int, company: nat, quantity: int): Wallets {
    if (user, company) in w.shares then AddShares(w, user, company, -quantity) else w
  }

  /** A row of the trade log. */
  datatype TradeRow = TradeRow(company: nat, buyer: int, seller: int, price: uint32, quantity: uint32)

  /** The tasks of the database worker. */
  datatype DbTask =
    | Settle(buyer: int, seller: int, quantity: uint32, price: uint32, limit: uint32, company: nat)
    | RefundCash(user: int, quantity: uint32, price: uint32)
    | RefundShares(user: int, quantity: uint32, company: nat)
    | LogTrade(row: TradeRow)

  function SettleTrade(w: Wallets, buyer: int, seller: int, company: nat, quantity: uint32, price: uint32,
      limit: uint32): Wallets {
    var credited := AddCash(AddShares(w, buyer, company, quantity), seller, Value(price, quantity));
    if limit > price then AddCash(credited, buyer, Value(limit - price, quantity)) else credited
  }

  function Apply(w: Wallets, task: DbTask): Wallets {
    match task
    case Settle(buyer, seller, quantity, price, limit, company) => SettleTrade(w, buyer, seller, company, quantity,
        price, limit)
    case RefundCash(user, quantity, price) => AddCash(w, user, Value(price, quantity))
    case RefundShares(user, quantity, company) => AddShares(w, user, company, quantity)
    case LogTrade(_) => w
  }

  function ApplyAll(w: Wallets, tasks: seq<DbTask>): Wallets
    decreases |tasks|
  {
    if tasks == [] then w else ApplyAll(Apply(w, tasks[0]), tasks[1..])
  }

  lemma {:induction false} ApplyAppend(w: Wallets, a: seq<DbTask>, b: seq<DbTask>)
    ensures ApplyAll(w, a + b) == ApplyAll(ApplyAll(w, a), b)
    decreases |a|
  {
    hide Apply;
    if a == [] {
      assert a + b == b;
    } else {
      assert (a + b)[1..] == a[1..] + b;
      ApplyAppend(Apply(w, a[0]), a[1..], b);
    }
  }

  /** The rows that some tasks add to the trade log, in order. */
  function LoggedIn(tasks: seq<DbTask>): seq<TradeRow> {
    if tasks == [] then []
    else (if tasks[0].LogTrade? then [tasks[0].row] else []) + LoggedIn(tasks[1..])
  }

  lemma {:induction false} LoggedAppend(a: seq<DbTask>, b: seq<DbTask>)
    ensures LoggedIn(a + b) == LoggedIn(a) + LoggedIn(b)
  {
    if a == [] {
      assert a + b == b;
    } else {
      assert (a + b)[1..] == a[1..] + b && (a + b)[0] == a[0];
      LoggedAppend(a[1..], b);
      var first := if a[0].LogTrade? then [a[0].row] else [];
      assert first + (LoggedIn(a[1..]) + LoggedIn(b)) == first + LoggedIn(a[1..]) + LoggedIn(b);
    }
  }

  lemma LoggedOne(task: DbTask)
    ensures LoggedIn([task]) == if task.LogTrade? then [task.row] else []
  {
    assert [task][1..] == [];
  }

  /** No wallet is overdrawn. */
  ghost predicate Solvent(w: Wallets) {
    && (forall user :: user in w.cash ==> 0 <= w.cash[user])
    && (forall key :: key in w.shares ==> 0 <= w.shares[key])
  }

  lemma AddKeepsSolvent(w: Wallets, user: int, company: nat, amount: nat)
    requires Solvent(w)
    ensures Solvent(AddCash(w, user, amount)) && AddCash(w, user, amount).cash.Keys == w.cash.Keys
    ensures Solvent(AddShares(w, user, company, amount))
  {
  }

  lemma ApplyKeepsSolvent(w: Wallets, task: DbTask)
    requires Solvent(w)
    ensures Solvent(Apply(w, task)) && Apply(w, task).cash.Keys == w.cash.Keys
  {
    hide Solvent; hide AddCash; hide Value;
    match task
    case Settle(buyer, seller, quantity, price, limit, company) =>
      var w1 := AddShares(w, buyer, company, quantity);
      AddKeepsSolvent(w, buyer, company, quantity);
      AddKeepsSolvent(w1, seller, company, Value(price, quantity));
      if limit > price { AddKeepsSolvent(AddCash(w1, seller, Value(price, quantity)), buyer, company,
          Value(limit - price, quantity)); }
    case RefundCash(user, quantity, price) => AddKeepsSolvent(w, user, 0, Value(price, quantity));
    case RefundShares(user, quantity, company) => AddKeepsSolvent(w, user, company, quantity);
    case LogTrade(_) =>
  }

  // ----- the database object

  datatype Reply = Accepted | Rejected(error: string)

  class Database {
    var balances: map<int, int>
    var portfolios: map<(int, nat), int>
    var log: seq<TradeRow>

    function Rows(): Wallets
      reads this
    {
      Wallets(balances, portfolios)
    }

    // Succeeds exactly if the balance covers the amount, and then takes it.
    method ReserveCash(user: int, amount: nat) returns (reply: Reply)
      modifies this`balances
      ensures reply.Accepted? <==> amount <= CashOf(old(Rows()), user)
      ensures Rows() == if reply.Accepted? then TakeCash(old(Rows()), user, amount) else old(Rows())
      ensures forall u :: CashOf(Rows(), u) == CashOf(old(Rows()), u)
                - (if u == user && reply.Accepted? then amount else 0)
      ensures old(Solvent(Rows())) ==> Solvent(Rows())
    {
      var current := if user in balances then balances[user] else 0;
      if current < amount {
        return Rejected("Insufficient funds.");
      }
      if user in balances {
        balances := balances[user := balances[user] - amount];
      }
      return Accepted;
    }

    method ReserveShares(user: int, company: nat, quantity: uint32) returns (reply: Reply)
      modifies this`portfolios
      ensures reply.Accepted? <==> quantity <= SharesOf(old(Rows()), user, company)
      ensures Rows() == if reply.Accepted? then TakeShares(old(Rows()), user, company, quantity) else old(Rows())
      ensures forall u, c: nat :: SharesOf(Rows(), u, c) == SharesOf(old(Rows()), u, c)
                - (if u == user && c == company && reply.Accepted? then quantity else 0)
      ensures old(Solvent(Rows())) ==> Solvent(Rows())
    {
      var current := if (user, company) in portfolios then portfolios[(user, company)] else 0;
      if current < quantity {
        return Rejected("Insufficient shares.");
      }
      if (user, company) in portfolios {
        portfolios := portfolios[(user, company) := portfolios[(user, company)] - quantity];
      }
      return Accepted;
    }

    method CreditCash(user: int, amount: nat)
      modifies this`balances
      ensures Rows() == AddCash(old(Rows()), user, amount)
    {
      if user in balances {
        balances := balances[user := balances[user] + amount];
      }
    }

    method CreditShares(user: int, company: nat, quantity: uint32)
      modifies this`portfolios
      ensures Rows() == AddShares(old(Rows()), user, company, quantity)
    {
      var current := if (user, company) in portfolios then portfolios[(user, company)] else 0;
      portfolios := portfolios[(user, company) := current + quantity];
    }

    method SettleTradeUnlocked(buyer: int, seller: int, company: nat, quantity: uint32, price: uint32, limit: uint32)
      modifies this`balances, this`portfolios
      ensures Rows() == SettleTrade(old(Rows()), buyer, seller, company, quantity, price, limit)
      ensures forall user :: CashOf(Rows(), user) == CashOf(old(Rows()), user) +
                (if user == seller && user in old(balances) then Value(price, quantity) else 0) +
                (if user == buyer && user in old(balances) && limit > price then Value(limit - price, quantity) else 0)
      ensures forall user, c: nat :: SharesOf(Rows(), user, c) == SharesOf(old(Rows()), user, c) +
                (if user == buyer && c == company then quantity else 0)
    {
      hide Value;
      CreditShares(buyer, company, quantity);
      CreditCash(seller, Value(price, quantity));
      if limit > price {
        CreditCash(buyer, Value(limit - price, quantity));
      }
    }

    // The loop of run_db_worker over the swapped buffer.
    method ApplyBatch(batch: seq<DbTask>)
      modifies this
      ensures Rows() == ApplyAll(old(Rows()), batch) && log == old(log) + LoggedIn(batch)
      ensures old(Solvent(Rows())) ==> Solvent(Rows())
    {
      hide Solvent; hide SettleTrade;
      var i := 0;
      assert batch[..0] == [];
      while i < |batch|
        invariant i <= |batch| && Rows() == ApplyAll(old(Rows()), batch[..i]) && log == old(log) + LoggedIn(batch[..i])
        invariant old(Solvent(Rows())) ==> Solvent(Rows())
      {
        ghost var before := Rows();
        match batch[i] {
          case Settle(buyer, seller, quantity, price, limit, company) =>
            SettleTradeUnlocked(buyer, seller, company, quantity, price, limit);
          case RefundCash(user, quantity, price) =>
            CreditCash(user, Value(price, quantity));
          case RefundShares(user, quantity, company) =>
            CreditShares(user, company, quantity);
          case LogTrade(row) =>
            log := log + [row];
        }
        assert batch[..i + 1] == batch[..i] + [batch[i]];
        ApplyAppend(old(Rows()), batch[..i], [batch[i]]);
        LoggedAppend(batch[..i], [batch[i]]);
        LoggedOne(batch[i]);
        if Solvent(before) { ApplyKeepsSolvent(before, batch[i]); }
        i := i + 1;
      }
      assert batch[..i] == batch;
    }
  }
}
