/**
  The services that move money, as they work: a query runner stages writes on a copy of the store, the copy is
  committed or dropped, and a failure is recorded afterwards. Each public method is proved to be one step of Ledger.
 */
module Services {
  import opened Outcomes
  import opened Ledger
  import opened Fees
  import opened FeeCache

  class Database {
    var store: Store

    constructor ()
      ensures store == Store([], [])
    {
      store := Store([], []);
    }
  }

  /** One database transaction: its own view of the store until it is committed. */
  class QueryRunner {
    const db: Database
    var staged: Store
    var active: bool

    constructor (db: Database)
      ensures this.db == db && !active
    {
      this.db := db;
      staged, active := Store([], []), false;
    }

    method StartTransaction(env: Env) returns (r: Result<()>)
      modifies this
      ensures r == if AtBegin in env.faults then Err(Outage(AtBegin)) else Ok(())
      ensures r.Ok? ==> active && staged == db.store
      ensures r.Err? ==> unchanged(this)
    {
      if AtBegin in env.faults {
        return Err(Outage(AtBegin));
      }
      staged, active := db.store, true;
      return Ok(());
    }

    method Save(tx: Tx, at: Fault, env: Env) returns (r: Result<Tx>)
      modifies this`staged
      ensures at in env.faults ==> r == Err(Outage(at))
      ensures at !in env.faults && SaveRow(old(staged).rows, tx, env.txId).Err? ==> r == Err(UniqueViolation)
      ensures at !in env.faults && SaveRow(old(staged).rows, tx, env.txId).Ok? ==>
                && r == Ok(tx.(id := Some(Or(tx.id, env.txId))))
                && staged == old(staged).(rows := SaveRow(old(staged).rows, tx, env.txId).value)
      ensures r.Err? ==> unchanged(this)
    {
      if at in env.faults {
        return Err(Outage(at));
      }
      match SaveRow(staged.rows, tx, env.txId) {
        case Err(e) => return Err(e);
        case Ok(rows) => staged := staged.(rows := rows);
      }
      return Ok(tx.(id := Some(Or(tx.id, env.txId))));
    }

    method SaveAccount(id: AccountId, account: Account)
      requires id < |staged.accounts|
      modifies this`staged
      ensures staged == old(staged).(accounts := old(staged).accounts[id := account])
    {
      staged := staged.(accounts := staged.accounts[id := account]);
    }

    method CommitTransaction(env: Env) returns (r: Result<()>)
      requires active
      modifies this, db
      ensures r == if AtCommit in env.faults then Err(Outage(AtCommit)) else Ok(())
      ensures r.Ok? ==> db.store == old(staged) && !active
      ensures r.Err? ==> unchanged(this) && unchanged(db)
    {
      if AtCommit in env.faults {
        return Err(Outage(AtCommit));
      }
      db.store := staged;
      active := false;
      return Ok(());
    }

    method RollbackTransaction(env: Env) returns (r: Result<()>)
      modifies this
      ensures r == if !old(active) then Err(TransactionNotStarted)
                   else if AtRollback in env.faults then Err(Outage(AtRollback)) else Ok(())
    {
      if !active {
        return Err(TransactionNotStarted);
      }
      active := false;
      return if AtRollback in env.faults then Err(Outage(AtRollback)) else Ok(());
    }
  }

  class AccountsService {
    const db: Database

    constructor (db: Database)
      ensures this.db == db
    {
      this.db := db;
    }

    method Create(owner: string, number: string, currency: Currency) returns (r: Result<AccountId>)
      modifies db
      ensures r.Ok? <==> forall i :: 0 <= i < |old(db.store).accounts| ==> old(db.store).accounts[i].number != number
      ensures r.Ok? ==> db.store == old(db.store).(accounts := old(db.store).accounts
                                                               + [Account(number, owner, currency, Active, 0, 0)])
      ensures r.Err? ==> r == Err(UniqueViolation) && db.store == old(db.store)
      ensures var step := CreateStep(old(db.store), owner, number, currency);
              && (step.Ok? ==> db.store == step.value && r == Ok(|old(db.store).accounts|))
              && (step.Err? ==> db.store == old(db.store) && r == Err(step.error))
    {
      if FindByNumber(db.store.accounts, number).Some? {
        return Err(UniqueViolation);
      }
      r := Ok(|db.store.accounts|);
      db.store := db.store.(accounts := db.store.accounts + [Account(number, owner, currency, Active, 0, 0)]);
    }

    method Freeze(id: AccountId, user: string) returns (r: Result<Account>)
      modifies db
      ensures r.Ok? <==> && id < |old(db.store).accounts| && old(db.store).accounts[id].owner == user
                         && old(db.store).accounts[id].status != Frozen
      ensures r.Ok? ==> db.store == old(db.store).(accounts := old(db.store).accounts[id := r.value])
                        && r.value == old(db.store).accounts[id].(status := Frozen)
      ensures r.Err? ==> db.store == old(db.store)
      ensures r.Err? ==> r == Err(if id >= |old(db.store).accounts| then AccountNotFound
                                  else if old(db.store).accounts[id].owner != user then AccessDenied else AlreadyFrozen)
      ensures var step := FreezeStep(old(db.store), id, user);
              && (step.Ok? ==> db.store == step.value && r == Ok(db.store.accounts[id]))
              && (step.Err? ==> db.store == old(db.store) && r == Err(step.error))
    {
      var account :- FindOne(db.store, id, Some(user));
      if account.status == Frozen {
        return Err(AlreadyFrozen);
      }
      account := account.(status := Frozen);
      db.store := db.store.(accounts := db.store.accounts[id := account]);
      return Ok(account);
    }

    method Unfreeze(id: AccountId) returns (r: Result<Account>)
      modifies db
      ensures r.Ok? <==> id < |old(db.store).accounts|
      ensures r.Ok? ==> db.store == old(db.store).(accounts := old(db.store).accounts[id := r.value])
                        && r.value == old(db.store).accounts[id].(status := Active)
      ensures r.Err? ==> r == Err(AccountNotFound) && db.store == old(db.store)
      ensures var step := UnfreezeStep(old(db.store), id);
              && (step.Ok? ==> db.store == step.value && r == Ok(db.store.accounts[id]))
              && (step.Err? ==> db.store == old(db.store) && r == Err(step.error))
    {
      var account :- FindOne(db.store, id, None);
      account := account.(status := Active);
      db.store := db.store.(accounts := db.store.accounts[id := account]);
      return Ok(account);
    }

    method DebitAccount(accountId: AccountId, amount: int, qr: QueryRunner, env: Env) returns (r: Result<()>)
      modifies qr`staged
      ensures var failure := DebitFailure(old(qr.staged).accounts, accountId, amount, env);
              && (failure.Some? ==> r == Err(failure.value) && qr.staged == old(qr.staged))
              && (failure.None? ==>
                    && r == Ok(())
                    && qr.staged == old(qr.staged).(accounts := Adjust(old(qr.staged).accounts, accountId, -amount)))
    {
      if AtDebit in env.faults {
        return Err(Outage(AtDebit));
      }
      if accountId >= |qr.staged.accounts| {
        return Err(AccountNotFound);
      }
      var account := qr.staged.accounts[accountId];
      if account.status != Active {
        return Err(AccountNotActive);
      }
      if account.balance < amount {
        return Err(InsufficientFunds);
      }
      account := account.(balance := account.balance - amount);
      account := account.(ledgerBalance := account.ledgerBalance - amount);
      qr.SaveAccount(accountId, account);
      return Ok(());
    }

    method CreditAccount(accountId: AccountId, amount: int, qr: QueryRunner, env: Env) returns (r: Result<()>)
      modifies qr`staged
      ensures r == if AtCredit in env.faults then Err(Outage(AtCredit))
                   else if accountId >= |old(qr.staged).accounts| then Err(DestinationNotFound) else Ok(())
      ensures r.Ok? ==> qr.staged == old(qr.staged).(accounts := Adjust(old(qr.staged).accounts, accountId, amount))
      ensures r.Err? ==> qr.staged == old(qr.staged)
    {
      if AtCredit in env.faults {
        return Err(Outage(AtCredit));
      }
      if accountId >= |qr.staged.accounts| {
        return Err(DestinationNotFound);
      }
      var account := qr.staged.accounts[accountId];
      account := account.(balance := account.balance + amount);
      account := account.(ledgerBalance := account.ledgerBalance + amount);
      qr.SaveAccount(accountId, account);
      return Ok(());
    }
  }

  /**
    What a `try` block that started on `s` with the entity `tx0` leaves behind: the store, whether the database
    transaction is still open, how it ended, and the entity as far as it got.
   */
  predicate Attempted(s: Store, tx0: Tx, env: Env, s': Store, open: bool, r: Result<Tx>, tx: Tx) {
    var failure := Failure(s, tx0, env);
    && tx == tx0.(id := tx.id, status := tx.status)
    && (tx.id.None? || (tx.id == Some(env.txId) && !Taken(s.rows, env.txId, tx0.reference)))
    && (failure.Some? ==> r == Err(failure.value) && open && s' == s)
    && (failure.None? ==> !open && s' == Settle(s, tx0, env).store)
    && (failure.None? && AtNotify !in env.faults ==> r == Settle(s, tx0, env).reply)
    && (failure.None? && AtNotify in env.faults ==> r.Err?)
  }

  /** What the `catch` block makes of a store, and the error it reports, given whether a transaction is still open. */
  function Recovered(s: Store, open: bool, tx: Tx, err: Error, env: Env): (Store, Error) {
    if !open then (s, TransactionNotStarted)
    else if AtRollback in env.faults then (s, Outage(AtRollback))
    else if AtSaveFailed in env.faults then (s, Outage(AtSaveFailed))
    else
      match SaveRow(s.rows, tx.(status := FailedTx, failure := Some(err)), env.txId)
      case Ok(rows) => (s.(rows := rows), err)
      case Err(violation) => (s, violation)
  }

  class TransactionsService {
    const db: Database
    const accounts: AccountsService
    const fees: FeesService

    constructor (db: Database, accounts: AccountsService, fees: FeesService)
      ensures this.db == db && this.accounts == accounts && this.fees == fees
    {
      this.db, this.accounts, this.fees := db, accounts, fees;
    }

    method TryTransfer(qr: QueryRunner, tx0: Tx, totalDebit: int, env: Env) returns (r: Result<Tx>, tx: Tx)
      requires qr.db == db && qr.active && qr.staged == db.store && AtBegin !in env.faults && tx0.id.None?
      requires tx0.source.Some? && tx0.destination.Some? && totalDebit == tx0.amount + tx0.fee
      modifies qr, db
      ensures Attempted(old(db.store), tx0, env, db.store, qr.active, r, tx)
    {
      tx := tx0;
      tx :- qr.Save(tx, AtSave, env);
      var _ :- accounts.DebitAccount(tx.source.value, totalDebit, qr, env);
      var _ :- accounts.CreditAccount(tx.destination.value, tx.amount, qr, env);
      tx := tx.(status := Completed);
      var _ :- qr.Save(tx, AtMark, env);
      var _ :- qr.CommitTransaction(env);
      var _ :- Notify(env);
      return Ok(tx), tx;
    }

    method TryDeposit(qr: QueryRunner, tx0: Tx, env: Env) returns (r: Result<Tx>, tx: Tx)
      requires qr.db == db && qr.active && qr.staged == db.store && AtBegin !in env.faults && tx0.id.None?
      requires tx0.source.None? && tx0.destination.Some?
      modifies qr, db
      ensures Attempted(old(db.store), tx0, env, db.store, qr.active, r, tx)
    {
      tx := tx0;
      tx :- qr.Save(tx, AtSave, env);
      var _ :- accounts.CreditAccount(tx.destination.value, tx.amount, qr, env);
      tx := tx.(status := Completed);
      var _ :- qr.Save(tx, AtMark, env);
      var _ :- qr.CommitTransaction(env);
      var _ :- Notify(env);
      return Ok(tx), tx;
    }

    method TryWithdrawal(qr: QueryRunner, tx0: Tx, env: Env) returns (r: Result<Tx>, tx: Tx)
      requires qr.db == db && qr.active && qr.staged == db.store && AtBegin !in env.faults && tx0.id.None?
      requires tx0.source.Some? && tx0.destination.None? && tx0.fee == 0
      modifies qr, db
      ensures Attempted(old(db.store), tx0, env, db.store, qr.active, r, tx)
    {
      tx := tx0;
      tx :- qr.Save(tx, AtSave, env);
      var _ :- accounts.DebitAccount(tx.source.value, tx.amount, qr, env);
      tx := tx.(status := Completed);
      var _ :- qr.Save(tx, AtMark, env);
      var _ :- qr.CommitTransaction(env);
      var _ :- Notify(env);
      return Ok(tx), tx;
    }

    /** The event listeners that run after the commit, still inside the `try`. */
    method Notify(env: Env) returns (r: Result<()>)
      ensures r.Err? <==> AtNotify in env.faults
    {
      return if AtNotify in env.faults then Err(Outage(AtNotify)) else Ok(());
    }

    /** The `catch` block shared by the three operations: roll back, record the failure, report an error. */
    method Recover(qr: QueryRunner, tx: Tx, err: Error, env: Env) returns (e: Error)
      modifies qr, db
      ensures (db.store, e) == Recovered(old(db.store), old(qr.active), tx, err, env)
    {
      var rolledBack := qr.RollbackTransaction(env);
      if rolledBack.Err? {
        return rolledBack.error;
      }
      var failed := tx.(status := FailedTx);
      failed := failed.(failure := Some(err));
      if AtSaveFailed in env.faults {
        return Outage(AtSaveFailed);
      }
      match SaveRow(db.store.rows, failed, env.txId) {
        case Err(violation) => return violation;
        case Ok(rows) => db.store := db.store.(rows := rows);
      }
      return err;
    }

    method Transfer(user: string, req: TransferRequest, key: Option<string>, env: Env) returns (r: Result<Tx>)
      modifies db, fees
      ensures var rules := old(fees.State()).RulesAt(AppClock(env.now));
              var fee := Calculation(rules, TxType.Transfer, req.amount).feeInKobo;
              Settlement(db.store, r) == TransferStep(old(db.store), user, req, fee, key, env)
      ensures fees.State() == if TransferParties(old(db.store), user, req).Ok?
                              then old(fees.State()).Fetched(AppClock(env.now)) else old(fees.State())
    {
      var src :- FindOne(db.store, req.source, Some(user));
      var dest := FindByNumber(db.store.accounts, req.destinationNumber);
      if dest.None? {
        return Err(DestinationNotFound);
      }
      if req.source == dest.value {
        return Err(SameAccount);
      }
      if src.currency != db.store.accounts[dest.value].currency {
        return Err(CrossCurrency);
      }
      var feeCalc := fees.Calculate(TxType.Transfer, req.amount, AppClock(env.now));
      var totalDebit := req.amount + feeCalc.feeInKobo;
      var qr := new QueryRunner(db);
      var _ :- qr.StartTransaction(env);
      var tx := TransferRow(req, dest.value, src.currency, feeCalc.feeInKobo, key, env);
      var attempt, entity := TryTransfer(qr, tx, totalDebit, env);
      if attempt.Ok? {
        return attempt;
      }
      RecoverySettles(old(db.store), tx, env, db.store, qr.active, attempt, entity);
      var e := Recover(qr, entity, attempt.error, env);
      return Err(e);
    }

    method Deposit(req: DepositRequest, env: Env) returns (r: Result<Tx>)
      modifies db
      ensures Settlement(db.store, r) == DepositStep(old(db.store), req, env)
    {
      var account :- FindOne(db.store, req.account, None);
      var qr := new QueryRunner(db);
      var _ :- qr.StartTransaction(env);
      var tx := DepositRow(req, account.currency, env);
      var attempt, entity := TryDeposit(qr, tx, env);
      if attempt.Ok? {
        return attempt;
      }
      RecoverySettles(old(db.store), tx, env, db.store, qr.active, attempt, entity);
      var e := Recover(qr, entity, attempt.error, env);
      return Err(e);
    }

    method Withdraw(user: string, req: WithdrawalRequest, key: Option<string>, env: Env) returns (r: Result<Tx>)
      modifies db
      ensures Settlement(db.store, r) == WithdrawStep(old(db.store), user, req, key, env)
    {
      var account :- FindOne(db.store, req.account, Some(user));
      var qr := new QueryRunner(db);
      var _ :- qr.StartTransaction(env);
      var tx := WithdrawalRow(req, account.currency, key, env);
      var attempt, entity := TryWithdrawal(qr, tx, env);
      if attempt.Ok? {
        return attempt;
      }
      RecoverySettles(old(db.store), tx, env, db.store, qr.active, attempt, entity);
      var e := Recover(qr, entity, attempt.error, env);
      return Err(e);
    }
  }

  /**
    Storing the failed entity inserts it: under the identifier the rolled-back insert gave it, or a fresh one when
    even that insert failed - and a collision then strikes a second time.
   */
  lemma {:induction false} FailedRowIsSettled(s: Store, tx: Tx, entity: Tx, e: Error, env: Env)
    requires tx.id.None? && (entity.id.None? || entity.id == Some(env.txId))
    requires entity == tx.(id := entity.id, status := entity.status)
    requires entity.id.Some? ==> !Taken(s.rows, env.txId, tx.reference)
    ensures SaveRow(s.rows, entity.(status := FailedTx, failure := Some(e)), env.txId)
            == if Taken(s.rows, env.txId, tx.reference) then Err(UniqueViolation)
               else Ok(s.rows + [tx.(id := Some(env.txId), status := FailedTx, failure := Some(e))])
  {
  }

  /** Whatever an attempt that failed left behind, the `catch` block makes it the indivisible step. */
  lemma {:induction false} RecoverySettles(s: Store, tx: Tx, env: Env, s': Store, open: bool, r: Result<Tx>, entity: Tx)
    requires AtBegin !in env.faults && tx.id.None? && Attempted(s, tx, env, s', open, r, entity) && r.Err?
    ensures var (store, e) := Recovered(s', open, entity, r.error, env); Settlement(store, Err(e)) == Settle(s, tx, env)
  {
    FailedRowIsSettled(s, tx, entity, r.error, env);
  }

  class SchedulerService {
    const db: Database

    constructor (db: Database)
      ensures this.db == db
    {
      this.db := db;
    }

    method ExpireStuckTransactions(now: Time)
      modifies db
      ensures db.store == old(db.store).(rows := Expired(old(db.store).rows, now))
      ensures |db.store.rows| == |old(db.store).rows|
      ensures forall i :: 0 <= i < |db.store.rows| ==>
                var tx := old(db.store).rows[i];
                db.store.rows[i] == if tx.status == Pending && tx.createdAt < (now / 1000 - 1_800_000) * 1000
                                    then tx.(status := FailedTx, failure := Some(TimedOut)) else tx
    {
      forall i: nat | i < |db.store.rows| {
        ExpiryIsExact(db.store.rows, now, i);
      }
      db.store := db.store.(rows := Expired(db.store.rows, now));
    }
  }
}
