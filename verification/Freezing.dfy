/**
  Freezing and unfreezing while a movement is under way. Both read an account and save the whole of it, without a
  lock; so does the movement, which can write back the status it read as they can write back a balance.
 */
module Freezing {
  import opened Outcomes
  import opened Ledger
  import opened Interleaving
  import opened Serializability
  import History

  // ---- A freeze at one moment ----

  /**
    A freeze that commits while a movement is between reading the account and writing it back is undone: the
    movement writes the whole account as it read it. Run before or after the movement, the freeze would stay.
   */
  lemma {:induction false} FreezeCanBeUndone(r: Job, s: Store) returns (k: nat, x: AccountId)
    requires Feasible(r) && Succeeds(s, r) && Footprint(r) != {}
    ensures x in Footprint(r) && x < |s.accounts|
    ensures var c := Solo(r, Config(FRESH, s), k);
            && c.store == s && x !in c.proc.staged
            && var freeze := FreezeStep(s, x, s.accounts[x].owner);
               freeze.Ok? ==>
                 var end, after := Solo(r, Config(c.proc, freeze.value), 10), Settle(freeze.value, r.tx, r.env).store;
                 && end.proc.pc == Finished && x < |end.store.accounts| && end.store.accounts[x].status != Frozen
                 && after.accounts[x].status == Frozen
  {
    k, x := HasReadShared(r, r, s);
    SucceededRow(s, r);
    var freeze := FreezeStep(s, x, s.accounts[x].owner);
    if freeze.Ok? {
      WritesWhatItRead(r, Solo(r, Config(FRESH, s), k).proc, freeze.value, x, s.accounts[x]);
      SettleConfined(r, freeze.value);
      SettleKeepsStatus(r, freeze.value, x);
    }
  }

  lemma {:induction false} SettleKeepsStatus(job: Job, s: Store, x: AccountId)
    requires Feasible(job) && x < |s.accounts|
    ensures |Settle(s, job.tx, job.env).store.accounts| == |s.accounts|
    ensures Settle(s, job.tx, job.env).store.accounts[x].status == s.accounts[x].status
  {
    if Succeeds(s, job) {
      SucceededRow(s, job);
      MovedPointwise(s.accounts, job.tx, x);
    }
  }

  /** The movement has read the account and not yet written it. */
  predicate InGap(job: Job, p: Proc, x: AccountId) {
    (p.pc == WriteSource && job.tx.source == Some(x)) || (p.pc == WriteDest && job.tx.destination == Some(x))
  }

  /** What the movement holds of an account it is about to write is what it saw in the store it started on. */
  ghost predicate ReadsTheStore(job: Job, s0: Store, c: Config) {
    && (c.proc.pc != Finished ==> c.store == s0)
    && (c.proc.pc == WriteSource ==>
          && job.tx.source.Some? && job.tx.source.value < |s0.accounts|
          && c.proc.read == Some(Seen(c.proc, s0, job.tx.source.value)))
    && (c.proc.pc == ReadSource ==> job.tx.source.Some?)
    && (c.proc.pc == ReadDest ==> job.tx.destination.Some?)
    && (c.proc.pc == WriteDest ==>
          && job.tx.destination.Some? && job.tx.destination.value < |s0.accounts|
          && c.proc.read == Some(Seen(c.proc, s0, job.tx.destination.value)))
  }

  lemma {:induction false} SoloReadsTheStore(job: Job, s0: Store, c: Config, n: nat)
    requires ReadsTheStore(job, s0, c)
    ensures ReadsTheStore(job, s0, Solo(job, c, n))
    decreases n
  {
    if n > 0 {
      SoloReadsTheStore(job, s0, Step(job, c.proc, c.store, {}), n - 1);
    }
  }

  /** The account is frozen, and nothing the movement holds of it says otherwise. */
  ghost predicate StaysFrozen(job: Job, c: Config, x: AccountId) {
    && x < |c.store.accounts| && c.store.accounts[x].status == Frozen
    && (x in c.proc.staged ==> c.proc.staged[x].status == Frozen)
    && (InGap(job, c.proc, x) ==> c.proc.read.Some? && c.proc.read.value.status == Frozen)
  }

  lemma {:induction false} SoloStaysFrozen(job: Job, c: Config, x: AccountId, n: nat)
    requires StaysFrozen(job, c, x)
    ensures StaysFrozen(job, Solo(job, c, n), x)
    decreases n
  {
    if n > 0 {
      SoloStaysFrozen(job, Step(job, c.proc, c.store, {}), x, n - 1);
    }
  }

  /** An upper bound on the steps a movement still takes. */
  function StepsLeft(pc: Pc): nat {
    match pc
    case Begin => 10
    case Insert => 9
    case ReadSource => 8
    case WriteSource => 7
    case ReadDest => 6
    case WriteDest => 5
    case Mark => 4
    case Commit => 3
    case Rollback(_) => 2
    case RecordFailure(_) => 1
    case Finished => 0
  }

  lemma {:induction false} SoloFinishes(job: Job, c: Config, n: nat)
    requires Able(job, c.proc) && n >= StepsLeft(c.proc.pc)
    ensures Solo(job, c, n).proc.pc == Finished
    decreases n
  {
    if c.proc.pc == Finished {
      FinishedStays(job, c, n);
    } else {
      SoloFinishes(job, Step(job, c.proc, c.store, {}), n - 1);
    }
  }

  /**
    A freeze of any account, accepted at any moment of a movement that would succeed, is undone if and only if the
    movement has just read that account and not yet written it. The freeze waits for an account written already.
   */
  lemma {:induction false} FreezeIsUndoneIff(r: Job, s: Store, k: nat, x: AccountId)
    requires Feasible(r) && Succeeds(s, r) && x < |s.accounts| && s.accounts[x].status != Frozen
    requires var c := Solo(r, Config(FRESH, s), k); c.proc.pc != Finished && x !in c.proc.staged
    ensures var c := Solo(r, Config(FRESH, s), k);
            var freeze := FreezeStep(c.store, x, s.accounts[x].owner);
            && c.store == s && freeze.Ok?
            && var end := Solo(r, Config(c.proc, freeze.value), 10);
               && end.proc.pc == Finished && x < |end.store.accounts|
               && (end.store.accounts[x].status != Frozen <==> InGap(r, c.proc, x))
  {
    SoloReadsTheStore(r, s, Config(FRESH, s), k);
    var p, frozen := Solo(r, Config(FRESH, s), k).proc, WithStatus(s, x, Frozen);
    SoloFinishes(r, Config(p, frozen), 10);
    if InGap(r, p, x) {
      SucceededRow(s, r);
      WritesWhatItRead(r, p, frozen, x, s.accounts[x]);
    } else {
      SoloStaysFrozen(r, Config(p, frozen), x, 10);
    }
  }

  // ---- A freeze or unfreeze in two steps ----

  /** Only freezing what is frozen already is refused, and saves nothing. */
  predicate Refused(a: Account, status: AccountStatus) {
    status == Frozen && a.status == Frozen
  }

  /** The account read after `i` steps of a movement, and saved whole with a new status after `j` more. */
  function SavedLate(job: Job, s: Store, x: AccountId, status: AccountStatus, i: nat, j: nat): Config
    requires x < |s.accounts|
  {
    var c := Solo(job, Config(FRESH, s), i);
    var d := Solo(job, c, j);
    if x >= |c.store.accounts| || x >= |d.store.accounts| || Refused(c.store.accounts[x], status) then d
    else Config(d.proc, d.store.(accounts := d.store.accounts[x := c.store.accounts[x].(status := status)]))
  }

  /** Read and saved at one moment, it is the freeze or unfreeze of one step. */
  lemma {:induction false} SavedAtOnce(job: Job, s: Store, x: AccountId, i: nat)
    requires Feasible(job) && x < |s.accounts|
    ensures var c := Solo(job, Config(FRESH, s), i);
            && x < |c.store.accounts|
            && var freeze := FreezeStep(c.store, x, c.store.accounts[x].owner);
               && SavedLate(job, s, x, Frozen, i, 0).store == (if freeze.Ok? then freeze.value else c.store)
               && Ok(SavedLate(job, s, x, Active, i, 0).store) == UnfreezeStep(c.store, x)
  {
    SoloIsAtomic(job, s, i);
    var c := Solo(job, Config(FRESH, s), i);
    assert Solo(job, c, 0) == c;
  }

  /** The save has to wait while the movement has written the account and not committed. */
  predicate SaveWaits(job: Job, s: Store, x: AccountId, i: nat, j: nat) {
    x in Solo(job, Solo(job, Config(FRESH, s), i), j).proc.staged
  }

  /** The save came after the movement's commit, of an account it moved, but the read came before. */
  predicate SpansCommit(job: Job, s: Store, x: AccountId, status: AccountStatus, i: nat, j: nat)
    requires x < |s.accounts|
  {
    var c := Solo(job, Config(FRESH, s), i);
    && x in Footprint(job) && !Refused(s.accounts[x], status)
    && c.proc.pc != Finished && Solo(job, c, j).proc.pc == Finished
  }

  ghost predicate SameBalances(a: seq<Account>, b: seq<Account>) {
    && |a| == |b|
    && forall i :: 0 <= i < |a| ==> a[i].balance == b[i].balance && a[i].ledgerBalance == b[i].ledgerBalance
  }

  lemma {:induction false} ReplaysAlike(s: Store, t: Store)
    requires History.Replays(s) && s.rows == t.rows && SameBalances(s.accounts, t.accounts)
    ensures History.Replays(t)
  {
  }

  /** The balances are what the movement is to make of the account. */
  predicate Adjusted(a: Account, before: Account, delta: int) {
    a.balance == before.balance + delta >= 0 && a.ledgerBalance == before.ledgerBalance + delta
  }

  /** What the movement has written so far. */
  function Written(job: Job, pc: Pc): set<AccountId> {
    match pc
    case ReadDest => Footprint(job) - (if job.tx.destination.Some? then {job.tx.destination.value} else {})
    case WriteDest => Footprint(job) - (if job.tx.destination.Some? then {job.tx.destination.value} else {})
    case Mark => Footprint(job)
    case Commit => Footprint(job)
    case _ => {}
  }

  /**
    The movement works on the balances of `s`, whatever has become of statuses: what it has read and written is
    right for them, and once it has finished the balances replay the log.
   */
  ghost predicate OnTrack(job: Job, s: Store, c: Config)
    requires RefersTo(s.accounts, job.tx)
  {
    var p := c.proc;
    && (p.pc != Finished ==> c.store.rows == s.rows && SameBalances(s.accounts, c.store.accounts))
    && (p.pc == Finished ==> History.Replays(c.store))
    && (!p.pc.Rollback? ==> p.staged.Keys == Written(job, p.pc))
    && (!p.pc.Rollback? ==> forall id :: id in p.staged ==>
          id < |s.accounts| && Adjusted(p.staged[id], s.accounts[id], Delta(job.tx, id)))
    && (p.pc == WriteSource ==>
          && job.tx.source.Some? && p.read.Some?
          && Adjusted(p.read.value, s.accounts[job.tx.source.value], 0)
          && p.read.value.balance >= job.tx.amount + job.tx.fee)
    && (p.pc == WriteDest ==>
          job.tx.destination.Some? && p.read.Some? && Adjusted(p.read.value, s.accounts[job.tx.destination.value], 0))
    && (p.pc == ReadSource ==> job.tx.source.Some?)
    && (p.pc == ReadDest ==> job.tx.destination.Some?)
  }

  /** A movement of a well-formed row, on a store whose balances replay the log. */
  ghost predicate Proper(job: Job, s: Store) {
    Feasible(job) && History.Replays(s) && History.WellFormed(s.accounts, Done(job))
  }

  lemma {:induction false} CommitReplays(job: Job, s: Store, c: Config)
    requires Proper(job, s) && OnTrack(job, s, c) && c.proc.pc == Commit
    ensures History.Replays(Store(Overlay(c.store.accounts, c.proc.staged), s.rows + [Done(job)]))
  {
    forall i: nat | i < |s.accounts|
      ensures var a := Overlay(c.store.accounts, c.proc.staged)[i];
              a.ledgerBalance == a.balance == History.Net(s.rows + [Done(job)], i) && a.balance >= 0
    {
      History.NetOfOne(s.rows, Done(job), i);
    }
  }

  lemma {:induction false} FailureReplays(job: Job, s: Store, t: Store, e: Error)
    requires History.Replays(s) && t.rows == s.rows && SameBalances(s.accounts, t.accounts)
    ensures History.Replays(t)
    ensures var failed := job.tx.(id := Some(job.env.txId), status := FailedTx, failure := Some(e));
            History.Replays(t.(rows := t.rows + [failed]))
  {
    var failed := job.tx.(id := Some(job.env.txId), status := FailedTx, failure := Some(e));
    forall i: nat | i < |s.accounts| ensures History.Net(t.rows + [failed], i) == History.Net(s.rows, i) {
      History.NetOfOne(s.rows, failed, i);
    }
  }

  lemma {:induction false} ReadStaysOnTrack(job: Job, s: Store, c: Config)
    requires Proper(job, s) && OnTrack(job, s, c)
    requires c.proc.pc == Insert || c.proc.pc == ReadSource || c.proc.pc == ReadDest || c.proc.pc == Mark
    ensures OnTrack(job, s, Step(job, c.proc, c.store, {}))
  {
    var d := Step(job, c.proc, c.store, {});
    assert d.store == c.store && d.proc.staged == c.proc.staged && d.proc.pc != Finished;
  }

  lemma {:induction false} WriteStaysOnTrack(job: Job, s: Store, c: Config)
    requires Proper(job, s) && OnTrack(job, s, c) && (c.proc.pc == WriteSource || c.proc.pc == WriteDest)
    ensures OnTrack(job, s, Step(job, c.proc, c.store, {}))
  {
    var d := Step(job, c.proc, c.store, {});
    assert d.store == c.store;
    assert d.proc.staged.Keys == Written(job, d.proc.pc);
  }

  lemma {:induction false} StepStaysOnTrack(job: Job, s: Store, c: Config)
    requires Proper(job, s) && OnTrack(job, s, c)
    ensures OnTrack(job, s, Step(job, c.proc, c.store, {}))
  {
    match c.proc.pc
    case Begin => ReplaysAlike(s, c.store);
    case WriteSource => WriteStaysOnTrack(job, s, c);
    case WriteDest => WriteStaysOnTrack(job, s, c);
    case Commit => CommitReplays(job, s, c);
    case Rollback(_) => ReplaysAlike(s, c.store);
    case RecordFailure(e) => FailureReplays(job, s, c.store, e);
    case Finished =>
    case _ => ReadStaysOnTrack(job, s, c);
  }

  lemma {:induction false} SoloStaysOnTrack(job: Job, s: Store, c: Config, n: nat)
    requires Proper(job, s) && OnTrack(job, s, c)
    ensures OnTrack(job, s, Solo(job, c, n))
    decreases n
  {
    if n > 0 {
      StepStaysOnTrack(job, s, c);
      SoloStaysOnTrack(job, s, Step(job, c.proc, c.store, {}), n - 1);
    }
  }

  lemma {:induction false} OnTrackReplays(job: Job, s: Store, c: Config)
    requires Proper(job, s) && OnTrack(job, s, c)
    ensures History.Replays(c.store)
  {
    if c.proc.pc != Finished {
      ReplaysAlike(s, c.store);
    }
  }

  /** Unless it spans the commit, the save brings back no old balance. */
  lemma {:induction false} CurrentSave(job: Job, s: Store, x: AccountId, status: AccountStatus, i: nat, j: nat)
    requires Feasible(job) && x < |s.accounts| && !SpansCommit(job, s, x, status, i, j)
    ensures var d, late := Solo(job, Config(FRESH, s), i + j), SavedLate(job, s, x, status, i, j);
            && late.proc == d.proc && late.store.rows == d.store.rows
            && SameBalances(d.store.accounts, late.store.accounts)
  {
    var c := Solo(job, Config(FRESH, s), i);
    SoloAdds(job, Config(FRESH, s), i, j);
    SoloIsAtomic(job, s, i);
    SoloIsAtomic(job, s, i + j);
    if c.proc.pc == Finished {
      FinishedStays(job, c, j);
    }
  }

  lemma {:induction false} CurrentSaveReplays(job: Job, s: Store, x: AccountId, status: AccountStatus, i: nat,
                                              j: nat, n: nat)
    requires Proper(job, s) && x < |s.accounts| && !SpansCommit(job, s, x, status, i, j)
    ensures History.Replays(Solo(job, SavedLate(job, s, x, status, i, j), n).store)
  {
    var d, late := Solo(job, Config(FRESH, s), i + j), SavedLate(job, s, x, status, i, j);
    CurrentSave(job, s, x, status, i, j);
    SoloStaysOnTrack(job, s, Config(FRESH, s), i + j);
    if d.proc.pc == Finished {
      ReplaysAlike(d.store, late.store);
    }
    SoloStaysOnTrack(job, s, late, n);
    OnTrackReplays(job, s, Solo(job, late, n));
  }

  lemma {:induction false} OldBalanceComesBack(job: Job, s: Store, x: AccountId, status: AccountStatus, i: nat,
                                        j: nat, n: nat)
    requires Proper(job, s) && Succeeds(s, job) && MovesMoney(job)
    requires x < |s.accounts| && SpansCommit(job, s, x, status, i, j)
    ensures !History.Replays(Solo(job, SavedLate(job, s, x, status, i, j), n).store)
  {
    SoloAdds(job, Config(FRESH, s), i, j);
    SoloIsAtomic(job, s, i);
    SoloIsAtomic(job, s, i + j);
    SucceededRow(s, job);
    FinishedStays(job, SavedLate(job, s, x, status, i, j), n);
    History.NetOfOne(s.rows, Done(job), x);
  }

  /**
    A freeze or unfreeze, read and saved at any two moments beside a movement that would succeed, leaves balances
    and log in agreement if and only if it does not span the commit of a movement of that account's money: else the
    balance it read comes back, and what was paid in or out of the account is undone.
   */
  lemma {:induction false} LateSaveIsHarmlessIff(job: Job, s: Store, x: AccountId, status: AccountStatus, i: nat,
                                        j: nat, n: nat)
    requires Proper(job, s) && Succeeds(s, job) && MovesMoney(job)
    requires x < |s.accounts| && !SaveWaits(job, s, x, i, j)
    ensures History.Replays(Solo(job, SavedLate(job, s, x, status, i, j), n).store)
            <==> !SpansCommit(job, s, x, status, i, j)
  {
    if SpansCommit(job, s, x, status, i, j) {
      OldBalanceComesBack(job, s, x, status, i, j, n);
    } else {
      CurrentSaveReplays(job, s, x, status, i, j, n);
    }
  }

  /** So every schedule is harmless if and only if the movement does not touch the account, or the freeze is refused. */
  lemma {:induction false} LateSaveKeepsReplayIff(job: Job, s: Store, x: AccountId, status: AccountStatus)
    requires Proper(job, s) && Succeeds(s, job) && MovesMoney(job) && x < |s.accounts|
    ensures x !in Footprint(job) || Refused(s.accounts[x], status) <==>
              forall i: nat, j: nat, n: nat :: !SaveWaits(job, s, x, i, j) ==>
                History.Replays(Solo(job, SavedLate(job, s, x, status, i, j), n).store)
  {
    forall i: nat, j: nat, n: nat | !SaveWaits(job, s, x, i, j)
      ensures History.Replays(Solo(job, SavedLate(job, s, x, status, i, j), n).store)
            <==> !SpansCommit(job, s, x, status, i, j)
    {
      LateSaveIsHarmlessIff(job, s, x, status, i, j, n);
    }
    if x in Footprint(job) && !Refused(s.accounts[x], status) {
      assert Solo(job, Config(FRESH, s), 0) == Config(FRESH, s);
      SoloIsSettle(job, s);
      assert SpansCommit(job, s, x, status, 0, 10) && !SaveWaits(job, s, x, 0, 10);
      assert !History.Replays(Solo(job, SavedLate(job, s, x, status, 0, 10), 0).store);
    }
  }
}
