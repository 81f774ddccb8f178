/**
  Two movements whose database steps interleave. Each reads a row without locking it, computes, and writes the
  result; writes stay private until the commit and lock the row until then. This is READ COMMITTED isolation.
 */
module Interleaving {
  import opened Outcomes
  import opened Ledger

  /** A movement to be carried out: its row, and what the surroundings contribute to it. */
  datatype Job = Job(tx: Tx, env: Env)

  datatype Pc =
    | Begin | Insert | ReadSource | WriteSource | ReadDest | WriteDest | Mark | Commit
    | Rollback(error: Error) | RecordFailure(error: Error) | Finished

  /** Where a movement is, the account it last read, and the accounts it has written but not committed. */
  datatype Proc = Proc(pc: Pc, read: Option<Account>, staged: map<AccountId, Account>)

  datatype Config = Config(proc: Proc, store: Store)

  const FRESH := Proc(Begin, None, map[])

  ghost predicate Feasible(job: Job) {
    job.tx.source.Some? ==> job.tx.source != job.tx.destination
  }

  function Footprint(job: Job): set<AccountId> {
    (if job.tx.source.Some? then {job.tx.source.value} else {})
    + (if job.tx.destination.Some? then {job.tx.destination.value} else {})
  }

  function Overlay(accounts: seq<Account>, staged: map<AccountId, Account>): (r: seq<Account>)
    ensures |r| == |accounts|
    ensures forall i :: 0 <= i < |r| ==> r[i] == if i in staged then staged[i] else accounts[i]
  {
    seq(|accounts|, i requires 0 <= i < |accounts| => if i in staged then staged[i] else accounts[i])
  }

  function Changed(a: Account, delta: int): Account {
    a.(balance := a.balance + delta, ledgerBalance := a.ledgerBalance + delta)
  }

  /** What a transaction sees of an account: its own uncommitted write, or the committed row. */
  function Seen(p: Proc, s: Store, id: AccountId): Account
    requires id < |s.accounts|
  {
    if id in p.staged then p.staged[id] else s.accounts[id]
  }

  /** One database step. `locked` are the accounts another transaction has written; writing those has to wait. */
  function Step(job: Job, p: Proc, s: Store, locked: set<AccountId>): Config {
    var Job(tx, env) := job;
    var stay := Config(p, s);
    match p.pc
    case Begin => Config(p.(pc := if AtBegin in env.faults then Finished else Insert), s)
    case Insert =>
      Config(p.(pc := if AtSave in env.faults then Rollback(Outage(AtSave))
                      else if Taken(s.rows, env.txId, tx.reference) then Rollback(UniqueViolation)
                      else if tx.source.Some? then ReadSource else AfterDebit(job)), s)
    case ReadSource =>
      if tx.source.None? then stay
      else
        var failure := if AtDebit in env.faults then Some(Outage(AtDebit))
                       else if tx.source.value >= |s.accounts| then Some(AccountNotFound)
                       else CannotPay(Seen(p, s, tx.source.value), tx.amount + tx.fee);
        if failure.Some? then Config(p.(pc := Rollback(failure.value)), s)
        else if tx.source.value >= |s.accounts| then stay
        else Config(p.(pc := WriteSource, read := Some(Seen(p, s, tx.source.value))), s)
    case WriteSource =>
      if tx.source.None? || p.read.None? || tx.source.value in locked then stay
      else
        var written := Changed(p.read.value, -(tx.amount + tx.fee));
        Config(p.(pc := AfterDebit(job), staged := p.staged[tx.source.value := written]), s)
    case ReadDest =>
      if tx.destination.None? then stay
      else if AtCredit in env.faults then Config(p.(pc := Rollback(Outage(AtCredit))), s)
      else if tx.destination.value >= |s.accounts| then Config(p.(pc := Rollback(DestinationNotFound)), s)
      else Config(p.(pc := WriteDest, read := Some(Seen(p, s, tx.destination.value))), s)
    case WriteDest =>
      if tx.destination.None? || p.read.None? || tx.destination.value in locked then stay
      else
        var written := Changed(p.read.value, tx.amount);
        Config(p.(pc := Mark, staged := p.staged[tx.destination.value := written]), s)
    case Mark => Config(p.(pc := if AtMark in env.faults then Rollback(Outage(AtMark)) else Commit), s)
    case Commit =>
      if AtCommit in env.faults then Config(p.(pc := Rollback(Outage(AtCommit))), s)
      else Config(Proc(Finished, None, map[]),
                  Store(Overlay(s.accounts, p.staged), s.rows + [tx.(id := Some(env.txId), status := Completed)]))
    case Rollback(e) =>
      Config(Proc(if AtRollback in env.faults then Finished else RecordFailure(e), None, map[]), s)
    case RecordFailure(e) =>
      Config(p.(pc := Finished),
             if AtSaveFailed in env.faults || Taken(s.rows, env.txId, tx.reference) then s
             else s.(rows := s.rows + [tx.(id := Some(env.txId), status := FailedTx, failure := Some(e))]))
    case Finished => stay
  }

  function AfterDebit(job: Job): Pc {
    if job.tx.destination.Some? then ReadDest else Mark
  }

  function CannotPay(a: Account, amount: int): Option<Error> {
    if a.status != Active then Some(AccountNotActive) else if a.balance < amount then Some(InsufficientFunds) else None
  }

  /** The movement holds what its next step needs. */
  predicate Able(job: Job, p: Proc) {
    && (p.pc == ReadSource || p.pc == WriteSource ==> job.tx.source.Some?)
    && (p.pc == ReadDest || p.pc == WriteDest ==> job.tx.destination.Some?)
    && (p.pc == WriteSource || p.pc == WriteDest ==> p.read.Some?)
  }

  // ---- One movement alone ----

  function Solo(job: Job, c: Config, n: nat): Config
    decreases n
  {
    if n == 0 then c else Solo(job, Step(job, c.proc, c.store, {}), n - 1)
  }

  lemma {:induction false} SoloAdds(job: Job, c: Config, m: nat, n: nat)
    ensures Solo(job, c, m + n) == Solo(job, Solo(job, c, m), n)
    decreases m
  {
    if m > 0 {
      SoloAdds(job, Step(job, c.proc, c.store, {}), m - 1, n);
    }
  }

  lemma {:induction false} FinishedStays(job: Job, c: Config, n: nat)
    requires c.proc.pc == Finished
    ensures Solo(job, c, n) == c
    decreases n
  {
    if n > 0 {
      FinishedStays(job, c, n - 1);
    }
  }

  ghost predicate Ends(job: Job, c: Config, n: nat, store: Store) {
    var end := Solo(job, c, n);
    end.proc.pc == Finished && end.proc.staged == map[] && end.store == store
  }

  function Recorded(job: Job, s: Store, e: Error): Store {
    if AtRollback in job.env.faults || AtSaveFailed in job.env.faults || Taken(s.rows, job.env.txId, job.tx.reference)
    then s
    else s.(rows := s.rows + [job.tx.(id := Some(job.env.txId), status := FailedTx, failure := Some(e))])
  }

  function Committed(job: Job, accounts: seq<Account>, s: Store): Store {
    if AtMark in job.env.faults then Recorded(job, s, Outage(AtMark))
    else if AtCommit in job.env.faults then Recorded(job, s, Outage(AtCommit))
    else Store(accounts, s.rows + [job.tx.(id := Some(job.env.txId), status := Completed)])
  }

  /** A failed movement ends by recording its failure, if it can. */
  lemma {:induction false} RollbackEnds(job: Job, p: Proc, s: Store, n: nat)
    requires p.pc.Rollback? && n >= 2
    ensures Ends(job, Config(p, s), n, Recorded(job, s, p.pc.error))
  {
    var c1 := Step(job, p, s, {});
    if c1.proc.pc == Finished {
      FinishedStays(job, c1, n - 1);
    } else {
      var c2 := Step(job, c1.proc, c1.store, {});
      assert Solo(job, c1, n - 1) == Solo(job, c2, n - 2);
      FinishedStays(job, c2, n - 2);
    }
  }

  lemma {:induction false} MarkEnds(job: Job, p: Proc, s: Store, n: nat)
    requires p.pc == Mark && n >= 4
    ensures Ends(job, Config(p, s), n, Committed(job, Overlay(s.accounts, p.staged), s))
  {
    var c1 := Step(job, p, s, {});
    assert Solo(job, Config(p, s), n) == Solo(job, c1, n - 1);
    if c1.proc.pc.Rollback? {
      RollbackEnds(job, c1.proc, s, n - 1);
    } else {
      var c2 := Step(job, c1.proc, s, {});
      assert Solo(job, c1, n - 1) == Solo(job, c2, n - 2);
      if c2.proc.pc.Rollback? {
        RollbackEnds(job, c2.proc, s, n - 2);
      } else {
        FinishedStays(job, c2, n - 2);
      }
    }
  }

  /** The accounts after the credit, for a movement that has staged its debit. */
  function Credited(job: Job, p: Proc, s: Store): (r: seq<Account>)
    requires job.tx.destination.Some? ==> job.tx.destination.value < |s.accounts|
  {
    if job.tx.destination.None? then Overlay(s.accounts, p.staged)
    else
      var id := job.tx.destination.value;
      Overlay(s.accounts, p.staged)[id := Changed(Seen(p, s, id), job.tx.amount)]
  }

  function AfterCredit(job: Job, p: Proc, s: Store): Store {
    var to := job.tx.destination;
    if to.Some? && AtCredit in job.env.faults then Recorded(job, s, Outage(AtCredit))
    else if to.Some? && to.value >= |s.accounts| then Recorded(job, s, DestinationNotFound)
    else Committed(job, Credited(job, p, s), s)
  }

  lemma {:induction false} CreditEnds(job: Job, p: Proc, s: Store, n: nat)
    requires p.pc == AfterDebit(job) && n >= 6
    ensures Ends(job, Config(p, s), n, AfterCredit(job, p, s))
  {
    if job.tx.destination.None? {
      MarkEnds(job, p, s, n);
    } else {
      var c1 := Step(job, p, s, {});
      assert Solo(job, Config(p, s), n) == Solo(job, c1, n - 1);
      if c1.proc.pc.Rollback? {
        RollbackEnds(job, c1.proc, s, n - 1);
      } else {
        WriteDestEnds(job, c1.proc, s, n - 1);
        var id := job.tx.destination.value;
        assert Overlay(s.accounts, p.staged[id := Changed(Seen(p, s, id), job.tx.amount)]) == Credited(job, p, s);
      }
    }
  }

  lemma {:induction false} WriteDestEnds(job: Job, p: Proc, s: Store, n: nat)
    requires p.pc == WriteDest && job.tx.destination.Some? && p.read.Some? && n >= 5
    ensures Ends(job, Config(p, s), n, Committed(job,
              Overlay(s.accounts, p.staged[job.tx.destination.value := Changed(p.read.value, job.tx.amount)]), s))
  {
    var c := Step(job, p, s, {});
    assert Solo(job, Config(p, s), n) == Solo(job, c, n - 1);
    MarkEnds(job, c.proc, s, n - 1);
  }

  lemma {:induction false} WriteSourceEnds(job: Job, p: Proc, s: Store, n: nat)
    requires p.pc == WriteSource && job.tx.source.Some? && p.read.Some? && n >= 7
    ensures Ends(job, Config(p, s), n, AfterCredit(job,
              p.(staged := p.staged[job.tx.source.value := Changed(p.read.value, -(job.tx.amount + job.tx.fee))]), s))
  {
    var c := Step(job, p, s, {});
    assert Solo(job, Config(p, s), n) == Solo(job, c, n - 1);
    CreditEnds(job, c.proc, s, n - 1);
    var q := p.(staged := p.staged[job.tx.source.value := Changed(p.read.value, -(job.tx.amount + job.tx.fee))]);
    assert AfterCredit(job, c.proc, s) == AfterCredit(job, q, s);
  }

  function DebitStaged(job: Job, s: Store): map<AccountId, Account>
    requires job.tx.source.Some? ==> job.tx.source.value < |s.accounts|
  {
    if job.tx.source.None? then map[]
    else map[job.tx.source.value := Changed(s.accounts[job.tx.source.value], -(job.tx.amount + job.tx.fee))]
  }

  lemma {:induction false} CreditedIsMoved(job: Job, p: Proc, s: Store)
    requires Feasible(job) && RefersTo(s.accounts, job.tx) && p.staged == DebitStaged(job, s)
    ensures Credited(job, p, s) == Moved(s.accounts, job.tx)
  {
  }

  /** Once the debit is staged, what is left of the movement makes it the ledger's step. */
  lemma {:induction false} CreditSettles(job: Job, p: Proc, s: Store)
    requires Feasible(job) && (job.tx.source.Some? ==> job.tx.source.value < |s.accounts|)
    requires p.staged == DebitStaged(job, s)
    requires AtBegin !in job.env.faults && AtSave !in job.env.faults && !Taken(s.rows, job.env.txId, job.tx.reference)
    requires job.tx.source.Some? ==>
               DebitFailure(s.accounts, job.tx.source.value, job.tx.amount + job.tx.fee, job.env).None?
    ensures AfterCredit(job, p, s) == Settle(s, job.tx, job.env).store
  {
    if RefersTo(s.accounts, job.tx) {
      CreditedIsMoved(job, p, s);
    }
  }

  lemma {:induction false} InsertedEnds(job: Job, p: Proc, s: Store, n: nat)
    requires Feasible(job) && n >= 8 && p.staged == map[]
    requires p.pc == if job.tx.source.Some? then ReadSource else AfterDebit(job)
    requires AtBegin !in job.env.faults && AtSave !in job.env.faults && !Taken(s.rows, job.env.txId, job.tx.reference)
    ensures Ends(job, Config(p, s), n, Settle(s, job.tx, job.env).store)
  {
    if job.tx.source.None? {
      CreditEnds(job, p, s, n);
      CreditSettles(job, p, s);
    } else {
      var c := Step(job, p, s, {});
      assert Solo(job, Config(p, s), n) == Solo(job, c, n - 1);
      if c.proc.pc.Rollback? {
        RollbackEnds(job, c.proc, s, n - 1);
      } else {
        WriteSourceEnds(job, c.proc, s, n - 1);
        CreditSettles(job, c.proc.(staged := DebitStaged(job, s)), s);
      }
    }
  }

  /** A movement that runs alone, step by step, is the one indivisible step of the ledger. */
  lemma {:induction false} SoloIsSettle(job: Job, s: Store)
    requires Feasible(job)
    ensures Ends(job, Config(FRESH, s), 10, Settle(s, job.tx, job.env).store)
  {
    var c1 := Step(job, FRESH, s, {});
    assert Solo(job, Config(FRESH, s), 10) == Solo(job, c1, 9);
    if c1.proc.pc == Finished {
      FinishedStays(job, c1, 9);
    } else {
      var c2 := Step(job, c1.proc, s, {});
      assert Solo(job, c1, 9) == Solo(job, c2, 8);
      if c2.proc.pc.Rollback? {
        RollbackEnds(job, c2.proc, s, 8);
      } else {
        InsertedEnds(job, c2.proc, s, 8);
      }
    }
  }
}
