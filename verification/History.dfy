/**
  Whole runs of the system from the empty store: accounts are created, frozen and unfrozen, money moves in every
  way, the hourly job passes, and anything may fail at any time. What holds after every run is proved here.
 */
module History {
  import opened Outcomes
  import opened Seqs
  import opened Ledger
  import opened Services
  import opened Idempotency

  datatype Op =
    | CreateAccount(owner: string, number: string, currency: Currency)
    | Freeze(account: AccountId, user: string)
    | Unfreeze(account: AccountId)
    | SendTransfer(user: string, header: Header, transfer: TransferRequest, fee: int)
    | SendWithdrawal(user: string, header: Header, withdrawal: WithdrawalRequest)
    | SendDeposit(deposit: DepositRequest)
    | Expire

  datatype Event = Event(op: Op, env: Env)

  const MIN_TRANSFER := 100

  /** One request or job: the guard, the validated body, the service. Whatever is refused changes nothing. */
  function Exec(s: Store, e: Event): Store {
    match e.op
    case CreateAccount(owner, number, currency) => Kept(s, CreateStep(s, owner, number, currency))
    case Freeze(id, user) => Kept(s, FreezeStep(s, id, user))
    case Unfreeze(id) => Kept(s, UnfreezeStep(s, id))
    case SendTransfer(user, header, req, fee) =>
      var guarded := GuardStep(s.rows, header, e.env.now);
      if guarded.Err? || req.amount < MIN_TRANSFER then s
      else TransferStep(s, user, req, fee, guarded.value, e.env).store
    case SendWithdrawal(user, header, req) =>
      var guarded := GuardStep(s.rows, header, e.env.now);
      if guarded.Err? || req.amount <= 0 then s else WithdrawStep(s, user, req, guarded.value, e.env).store
    case SendDeposit(req) => if req.amount <= 0 then s else DepositStep(s, req, e.env).store
    case Expire => s.(rows := Expired(s.rows, e.env.now))
  }

  function Kept(s: Store, r: Result<Store>): Store {
    if r.Ok? then r.value else s
  }

  function Run(s: Store, events: seq<Event>): Store
    decreases |events|
  {
    if events == [] then s else Run(Exec(s, events[0]), events[1..])
  }

  const EMPTY := Store([], [])

  // ---- What every store reached satisfies ----

  /** What a row did to the balance of an account. */
  function Effect(tx: Tx, id: AccountId): int {
    if tx.status != Completed then 0
    else (if tx.destination == Some(id) then tx.amount else 0)
         - (if tx.source == Some(id) then tx.amount + tx.fee else 0)
  }

  function EffectOn(id: AccountId): Tx -> int {
    (tx: Tx) => Effect(tx, id)
  }

  function Net(rows: seq<Tx>, id: AccountId): int {
    Sum(rows, EffectOn(id))
  }

  /** A finished row whose parties exist, differ, hold its currency, and are those its type calls for. */
  predicate WellFormed(accounts: seq<Account>, tx: Tx) {
    && (tx.status == Completed || tx.status == FailedTx)
    && tx.id.Some? && tx.amount > 0 && RefersTo(accounts, tx)
    && (tx.source.Some? ==> tx.source != tx.destination && accounts[tx.source.value].currency == tx.currency)
    && (tx.destination.Some? ==> accounts[tx.destination.value].currency == tx.currency)
    && match tx.txType
       case Transfer => tx.source.Some? && tx.destination.Some?
       case Deposit => tx.source.None? && tx.destination.Some? && tx.fee == 0
       case Withdrawal => tx.source.Some? && tx.destination.None? && tx.fee == 0
       case _ => false
  }

  ghost predicate Replays(s: Store) {
    forall i :: 0 <= i < |s.accounts| ==>
      s.accounts[i].balance == Net(s.rows, i) && s.accounts[i].ledgerBalance == s.accounts[i].balance >= 0
  }

  ghost predicate Distinct(rows: seq<Tx>) {
    forall i, j :: 0 <= i < j < |rows| ==> rows[i].reference != rows[j].reference && rows[i].id != rows[j].id
  }

  ghost predicate Sound(s: Store) {
    && Replays(s) && Distinct(s.rows)
    && (forall k :: 0 <= k < |s.rows| ==> WellFormed(s.accounts, s.rows[k]))
    && (forall i, j :: 0 <= i < j < |s.accounts| ==> s.accounts[i].number != s.accounts[j].number)
  }

  // ---- One movement keeps it ----

  lemma {:induction false} NetOfOne(rows: seq<Tx>, tx: Tx, id: AccountId)
    ensures Net(rows + [tx], id) == Net(rows, id) + Effect(tx, id)
  {
    SumAppend(rows, [tx], EffectOn(id));
    assert [tx][1..] == [];
  }

  /** The same accounts, but for balances and status. */
  ghost predicate SameHolders(accounts: seq<Account>, accounts': seq<Account>) {
    && |accounts'| == |accounts|
    && forall i :: 0 <= i < |accounts| ==>
         accounts'[i].number == accounts[i].number && accounts'[i].currency == accounts[i].currency
  }

  lemma {:induction false} AppendKeepsSound(s: Store, s': Store, row: Tx)
    requires Sound(s) && SameHolders(s.accounts, s'.accounts) && s'.rows == s.rows + [row]
    requires WellFormed(s.accounts, row) && !Taken(s.rows, row.id.value, row.reference)
    requires forall i :: 0 <= i < |s.accounts| ==>
               && s'.accounts[i].balance == s.accounts[i].balance + Effect(row, i) >= 0
               && s'.accounts[i].ledgerBalance == s.accounts[i].ledgerBalance + Effect(row, i)
    ensures Sound(s')
  {
    forall i: nat | i < |s.accounts|
      ensures s'.accounts[i].ledgerBalance == s'.accounts[i].balance == Net(s'.rows, i)
    {
      NetOfOne(s.rows, row, i);
    }
    assert Replays(s');
    forall k | 0 <= k < |s'.rows| ensures WellFormed(s'.accounts, s'.rows[k]) {
      assert k < |s.rows| ==> WellFormed(s.accounts, s.rows[k]);
    }
  }

  lemma {:induction false} SettleKeepsSound(s: Store, tx: Tx, env: Env)
    requires Sound(s) && WellFormed(s.accounts, tx.(id := Some(env.txId), status := Completed))
    ensures Sound(Settle(s, tx, env).store)
  {
    var s' := Settle(s, tx, env).store;
    if s' != s {
      var row := s'.rows[|s.rows|];
      SettleIsAllOrNothing(s, tx, env);
      AppendKeepsSound(s, s', row);
    }
  }

  lemma {:induction false} HoldersKeepSound(s: Store, accounts: seq<Account>)
    requires Sound(s) && SameHolders(s.accounts, accounts)
    requires forall i :: 0 <= i < |accounts| ==>
               accounts[i].balance == s.accounts[i].balance && accounts[i].ledgerBalance == s.accounts[i].ledgerBalance
    ensures Sound(s.(accounts := accounts))
  {
    forall k | 0 <= k < |s.rows| ensures WellFormed(accounts, s.rows[k]) {
      assert WellFormed(s.accounts, s.rows[k]);
    }
  }

  lemma {:induction false} NewAccountKeepsSound(s: Store, a: Account)
    requires Sound(s) && FindByNumber(s.accounts, a.number).None? && a.balance == a.ledgerBalance == 0
    ensures Sound(s.(accounts := s.accounts + [a]))
  {
    NewAccountIsUntouched(s, s.rows);
    forall k | 0 <= k < |s.rows| ensures WellFormed(s.accounts + [a], s.rows[k]) {
      assert WellFormed(s.accounts, s.rows[k]);
    }
  }

  lemma {:induction false} NewAccountIsUntouched(s: Store, rows: seq<Tx>)
    requires forall k :: 0 <= k < |rows| ==> RefersTo(s.accounts, rows[k])
    ensures Net(rows, |s.accounts|) == 0
  {
    if rows != [] {
      NewAccountIsUntouched(s, rows[1..]);
    }
  }

  /** The hourly job finds nothing to expire: no PENDING row is ever committed. */
  lemma {:induction false} ExpiryFindsNothing(rows: seq<Tx>, now: Time)
    requires forall k :: 0 <= k < |rows| ==> rows[k].status != Pending
    ensures Expired(rows, now) == rows
  {
    if rows != [] {
      ExpiryFindsNothing(rows[1..], now);
    }
  }

  /** The row a request sets out to settle, if it gets that far. */
  function Attempt(s: Store, e: Event): Option<Tx> {
    match e.op
    case SendTransfer(user, header, req, fee) =>
      var guarded := GuardStep(s.rows, header, e.env.now);
      var parties := TransferParties(s, user, req);
      if guarded.Err? || req.amount < MIN_TRANSFER || parties.Err? then None
      else Some(TransferRow(req, parties.value, s.accounts[req.source].currency, fee, guarded.value, e.env))
    case SendWithdrawal(user, header, req) =>
      var guarded := GuardStep(s.rows, header, e.env.now);
      var account := FindOne(s, req.account, Some(user));
      if guarded.Err? || req.amount <= 0 || account.Err? then None
      else Some(WithdrawalRow(req, account.value.currency, guarded.value, e.env))
    case SendDeposit(req) =>
      var account := FindOne(s, req.account, None);
      if req.amount <= 0 || account.Err? then None else Some(DepositRow(req, account.value.currency, e.env))
    case _ => None
  }

  lemma {:induction false} ExecSettles(s: Store, e: Event)
    requires Attempt(s, e).Some?
    ensures var tx := Attempt(s, e).value;
            && Exec(s, e) == Settle(s, tx, e.env).store
            && WellFormed(s.accounts, tx.(id := Some(e.env.txId), status := Completed))
  {
  }

  lemma {:induction false} ExecOtherwise(s: Store, e: Event)
    requires Attempt(s, e).None? && !e.op.Expire?
    ensures Exec(s, e).rows == s.rows
    ensures e.op.SendTransfer? || e.op.SendWithdrawal? || e.op.SendDeposit? ==> Exec(s, e) == s
  {
  }

  lemma {:induction false} ExecKeepsSound(s: Store, e: Event)
    requires Sound(s)
    ensures Sound(Exec(s, e))
  {
    if Attempt(s, e).Some? {
      ExecSettles(s, e);
      SettleKeepsSound(s, Attempt(s, e).value, e.env);
    } else if e.op.Expire? {
      ExpiryFindsNothing(s.rows, e.env.now);
    } else {
      ExecOtherwise(s, e);
      match e.op
      case CreateAccount(owner, number, currency) =>
        if CreateStep(s, owner, number, currency).Ok? {
          NewAccountKeepsSound(s, Account(number, owner, currency, Active, 0, 0));
        }
      case Freeze(_, _) => HoldersKeepSound(s, Exec(s, e).accounts);
      case Unfreeze(_) => HoldersKeepSound(s, Exec(s, e).accounts);
      case _ =>
    }
  }

  lemma {:induction false} RunKeepsSound(s: Store, events: seq<Event>)
    requires Sound(s)
    ensures Sound(Run(s, events))
    decreases |events|
  {
    if events != [] {
      ExecKeepsSound(s, events[0]);
      RunKeepsSound(Exec(s, events[0]), events[1..]);
    }
  }

  // ---- Replay ----

  /** After every run each balance replays the completed rows, equals the ledger balance, and is not negative. */
  lemma {:induction false} BalancesReplayTheLog(events: seq<Event>)
    ensures var s := Run(EMPTY, events);
            forall i :: 0 <= i < |s.accounts| ==>
              s.accounts[i].balance == s.accounts[i].ledgerBalance == Net(s.rows, i) && s.accounts[i].balance >= 0
  {
    RunKeepsSound(EMPTY, events);
  }

  // ---- A commit whose reply is lost ----

  /**
    If COMMIT takes effect but its reply is lost, the `catch` block runs over money that has moved. Balances and log
    still agree afterwards if and only if the rollback or the second save fails: otherwise the row becomes FAILED.
   */
  lemma {:induction false} LostCommitReplyIsHarmlessIff(s: Store, tx: Tx, env: Env)
    requires Sound(s) && AtBegin !in env.faults && Failure(s, tx, env).None?
    requires WellFormed(s.accounts, tx.(id := Some(env.txId), status := Completed))
    ensures var done := tx.(id := Some(env.txId), status := Completed);
            var (after, _) := Recovered(Settle(s, tx, env).store, true, done, Outage(AtCommit), env);
            && (Sound(after) <==> AtRollback in env.faults || AtSaveFailed in env.faults)
            && (!Sound(after) ==>
                  && after.accounts == Moved(s.accounts, tx)
                  && after.rows == s.rows + [done.(status := FailedTx, failure := Some(Outage(AtCommit)))])
  {
    SettleKeepsSound(s, tx, env);
    if AtRollback !in env.faults && AtSaveFailed !in env.faults {
      RelabelledRowBreaksReplay(s, tx, env);
    }
  }

  lemma {:induction false} RelabelledRowBreaksReplay(s: Store, tx: Tx, env: Env)
    requires Sound(s) && AtBegin !in env.faults && Failure(s, tx, env).None?
    requires WellFormed(s.accounts, tx.(id := Some(env.txId), status := Completed))
    ensures var done := tx.(id := Some(env.txId), status := Completed);
            var failed := done.(status := FailedTx, failure := Some(Outage(AtCommit)));
            && SaveRow(s.rows + [done], failed, env.txId) == Ok(s.rows + [failed])
            && !Replays(Store(Moved(s.accounts, tx), s.rows + [failed]))
  {
    var done := tx.(id := Some(env.txId), status := Completed);
    var failed := done.(status := FailedTx, failure := Some(Outage(AtCommit)));
    var i := FindRow(s.rows + [done], env.txId);
    assert (s.rows + [done])[|s.rows|].id == Some(env.txId);
    assert forall j :: 0 <= j < |s.rows| ==> (s.rows + [done])[j].id != Some(env.txId);
    assert i == Some(|s.rows|);
    assert (s.rows + [done])[|s.rows| := failed] == s.rows + [failed];
    var x := if tx.destination.Some? then tx.destination.value else tx.source.value;
    NetOfOne(s.rows, failed, x);
    assert Moved(s.accounts, tx)[x].balance == s.accounts[x].balance + Effect(done, x);
  }

  // ---- Conservation ----

  function InCurrency(accounts: seq<Account>, c: Currency): int {
    if accounts == [] then 0
    else
      var last := |accounts| - 1;
      InCurrency(accounts[..last], c) + (if accounts[last].currency == c then accounts[last].balance else 0)
  }

  function Counted(t: TxType, c: Currency): Tx -> int {
    (tx: Tx) => if tx.status == Completed && tx.txType == t && tx.currency == c then tx.amount else 0
  }

  function FeesCounted(c: Currency): Tx -> int {
    (tx: Tx) => if tx.status == Completed && tx.txType == Transfer && tx.currency == c then tx.fee else 0
  }

  /** The effects of the rows on the first `n` accounts, summed account by account over one currency. */
  function Spread(accounts: seq<Account>, rows: seq<Tx>, c: Currency, n: nat): int
    requires n <= |accounts|
  {
    if n == 0 then 0
    else Spread(accounts, rows, c, n - 1) + (if accounts[n - 1].currency == c then Net(rows, n - 1) else 0)
  }

  lemma {:induction false} SpreadOfBalances(s: Store, c: Currency, n: nat)
    requires n <= |s.accounts| && Replays(s)
    ensures Spread(s.accounts, s.rows, c, n) == InCurrency(s.accounts[..n], c)
  {
    if n > 0 {
      SpreadOfBalances(s, c, n - 1);
      assert s.accounts[..n][..n - 1] == s.accounts[..n - 1];
    }
  }

  lemma {:induction false} SpreadSplits(accounts: seq<Account>, tx: Tx, rows: seq<Tx>, c: Currency, n: nat)
    requires n <= |accounts|
    ensures Spread(accounts, [tx] + rows, c, n) == Spread(accounts, [tx], c, n) + Spread(accounts, rows, c, n)
  {
    if n > 0 {
      SpreadSplits(accounts, tx, rows, c, n - 1);
      SumAppend([tx], rows, EffectOn(n - 1));
    }
  }

  lemma {:induction false} SpreadOfOne(accounts: seq<Account>, tx: Tx, c: Currency, n: nat)
    requires n <= |accounts| && WellFormed(accounts, tx)
    ensures Spread(accounts, [tx], c, n) ==
            if tx.status != Completed || tx.currency != c then 0
            else (if tx.destination.Some? && tx.destination.value < n then tx.amount else 0)
                 - (if tx.source.Some? && tx.source.value < n then tx.amount + tx.fee else 0)
  {
    if n > 0 {
      SpreadOfOne(accounts, tx, c, n - 1);
      NetOfOne([], tx, n - 1);
      assert [] + [tx] == [tx];
    }
  }

  /** Exchanging the sums: account by account is row by row, and there transfers cancel down to their fees. */
  lemma {:induction false} SpreadByRows(accounts: seq<Account>, rows: seq<Tx>, c: Currency)
    requires forall k :: 0 <= k < |rows| ==> WellFormed(accounts, rows[k])
    ensures Spread(accounts, rows, c, |accounts|)
            == Sum(rows, Counted(Deposit, c)) - Sum(rows, Counted(Withdrawal, c)) - Sum(rows, FeesCounted(c))
  {
    if rows == [] {
      SpreadOfNone(accounts, c, |accounts|);
    } else {
      assert rows == [rows[0]] + rows[1..];
      SpreadSplits(accounts, rows[0], rows[1..], c, |accounts|);
      SpreadOfOne(accounts, rows[0], c, |accounts|);
      SpreadByRows(accounts, rows[1..], c);
    }
  }

  lemma {:induction false} SpreadOfNone(accounts: seq<Account>, c: Currency, n: nat)
    requires n <= |accounts|
    ensures Spread(accounts, [], c, n) == 0
  {
    if n > 0 {
      SpreadOfNone(accounts, c, n - 1);
    }
  }

  /** After every run, what a currency's accounts hold is what was deposited less what was withdrawn and charged. */
  lemma {:induction false} MoneyIsConserved(events: seq<Event>, c: Currency)
    ensures var s := Run(EMPTY, events);
            InCurrency(s.accounts, c)
            == Sum(s.rows, Counted(Deposit, c)) - Sum(s.rows, Counted(Withdrawal, c)) - Sum(s.rows, FeesCounted(c))
  {
    var s := Run(EMPTY, events);
    RunKeepsSound(EMPTY, events);
    SpreadOfBalances(s, c, |s.accounts|);
    assert s.accounts[..|s.accounts|] == s.accounts;
    SpreadByRows(s.accounts, s.rows, c);
  }

  // ---- The log only grows ----

  lemma {:induction false} SettleAppends(s: Store, tx: Tx, env: Env)
    ensures var rows := Settle(s, tx, env).store.rows;
            rows == s.rows
            || (&& rows == s.rows + [rows[|s.rows|]]
                && rows[|s.rows|].createdAt == tx.createdAt && rows[|s.rows|].key == tx.key)
  {
  }

  lemma {:induction false} ExecAppends(s: Store, e: Event)
    requires Sound(s)
    ensures s.rows <= Exec(s, e).rows
  {
    if Attempt(s, e).Some? {
      ExecSettles(s, e);
      SettleAppends(s, Attempt(s, e).value, e.env);
    } else if e.op.Expire? {
      ExpiryFindsNothing(s.rows, e.env.now);
    } else {
      ExecOtherwise(s, e);
    }
  }

  lemma {:induction false} RunAppends(s: Store, events: seq<Event>)
    requires Sound(s)
    ensures s.rows <= Run(s, events).rows
    decreases |events|
  {
    if events != [] {
      ExecAppends(s, events[0]);
      ExecKeepsSound(s, events[0]);
      RunAppends(Exec(s, events[0]), events[1..]);
    }
  }

  lemma {:induction false} RunsCompose(s: Store, first: seq<Event>, more: seq<Event>)
    ensures Run(s, first + more) == Run(Run(s, first), more)
    decreases |first|
  {
    if first == [] {
      assert first + more == more;
    } else {
      assert (first + more)[1..] == first[1..] + more;
      RunsCompose(Exec(s, first[0]), first[1..], more);
    }
  }

  /**
    Every row of every run is COMPLETED or FAILED, no two share a reference, and none is ever changed or removed by
    whatever happens later - the expiry job included.
   */
  lemma {:induction false} RowsAreFinal(events: seq<Event>, later: seq<Event>)
    ensures var s := Run(EMPTY, events);
            && s.rows <= Run(EMPTY, events + later).rows
            && Distinct(s.rows)
            && forall k :: 0 <= k < |s.rows| ==> s.rows[k].status == Completed || s.rows[k].status == FailedTx
  {
    RunKeepsSound(EMPTY, events);
    RunsCompose(EMPTY, events, later);
    RunAppends(Run(EMPTY, events), later);
  }

  /** Once a row carries a reference, repeating a deposit under it changes nothing, ever: it credits at most once. */
  lemma {:induction false} DepositIsIdempotent(events: seq<Event>, k: nat, later: seq<Event>, req: DepositRequest,
                                               env: Env)
    requires k < |Run(EMPTY, events).rows| && req.reference == Some(Run(EMPTY, events).rows[k].reference)
    ensures var s := Run(EMPTY, events + later); Exec(s, Event(SendDeposit(req), env)) == s
  {
    RowsAreFinal(events, later);
    var s := Run(EMPTY, events + later);
    assert s.rows[k] == Run(EMPTY, events).rows[k];
    assert Taken(s.rows, env.txId, req.reference.value);
  }

  // ---- The idempotency window ----

  predicate Clocked(events: seq<Event>, from: Time)
    decreases |events|
  {
    events != [] ==> from <= events[0].env.now && Clocked(events[1..], events[0].env.now)
  }

  ghost predicate InOrder(rows: seq<Tx>) {
    forall i, j :: 0 <= i < j < |rows| ==> rows[i].createdAt <= rows[j].createdAt
  }

  /** The log is in order of creation and nothing in it is younger than `now`. */
  ghost predicate Dated(rows: seq<Tx>, now: Time) {
    && InOrder(rows)
    && (forall i :: 0 <= i < |rows| ==> rows[i].createdAt <= now)
  }

  ghost predicate Spaced(rows: seq<Tx>) {
    forall i, j :: 0 <= i < j < |rows| && rows[i].key.Some? && rows[i].key == rows[j].key ==>
      rows[j].createdAt - rows[i].createdAt >= AsTime(WINDOW_MS)
  }

  lemma {:induction false} AppendKeepsSpaced(rows: seq<Tx>, tx: Tx, h: Header, now: Time)
    requires Dated(rows, now) && Spaced(rows) && tx.createdAt == now
    requires tx.key.Some? ==> GuardStep(rows, h, now) == Ok(tx.key)
    ensures Spaced(rows + [tx]) && Dated(rows + [tx], now)
  {
  }

  lemma {:induction false} ExecKeepsSpaced(s: Store, e: Event, before: Time)
    requires Sound(s) && Dated(s.rows, before) && Spaced(s.rows) && before <= e.env.now
    ensures Spaced(Exec(s, e).rows) && Dated(Exec(s, e).rows, e.env.now)
  {
    if Attempt(s, e).Some? {
      var tx := Attempt(s, e).value;
      ExecSettles(s, e);
      SettleAppends(s, tx, e.env);
      var rows := Exec(s, e).rows;
      if rows != s.rows {
        var h := if e.op.SendDeposit? then Absent else e.op.header;
        AppendKeepsSpaced(s.rows, rows[|s.rows|], h, e.env.now);
      }
    } else if e.op.Expire? {
      ExpiryFindsNothing(s.rows, e.env.now);
    } else {
      ExecOtherwise(s, e);
    }
  }

  lemma {:induction false} RunKeepsSpaced(s: Store, events: seq<Event>, from: Time) returns (now: Time)
    requires Sound(s) && Dated(s.rows, from) && Spaced(s.rows) && Clocked(events, from)
    ensures Spaced(Run(s, events).rows) && Dated(Run(s, events).rows, now)
    decreases |events|
  {
    now := from;
    if events != [] {
      ExecKeepsSound(s, events[0]);
      ExecKeepsSpaced(s, events[0], from);
      now := RunKeepsSpaced(Exec(s, events[0]), events[1..], events[0].env.now);
    }
  }

  /** However often a key is sent, rows under it - completed or failed - are created at least 24 hours apart. */
  lemma {:induction false} KeysAreSpaced(events: seq<Event>, from: Time)
    requires Clocked(events, from)
    ensures var rows := Run(EMPTY, events).rows;
            forall i, j :: 0 <= i < j < |rows| && rows[i].key.Some? && rows[i].key == rows[j].key ==>
              rows[j].createdAt - rows[i].createdAt >= 86_400_000_000
  {
    var _ := RunKeepsSpaced(EMPTY, events, from);
  }

  /** A transfer or withdrawal sent under the key of a row less than 24 hours old changes nothing. */
  lemma {:induction false} RepeatedKeyChangesNothing(events: seq<Event>, k: nat, later: seq<Event>, e: Event)
    requires k < |Run(EMPTY, events).rows| && (e.op.SendTransfer? || e.op.SendWithdrawal?)
    requires var row := Run(EMPTY, events).rows[k];
             && SentKey(e.op.header).Some? && SentKey(e.op.header) == row.key && IsUuid(row.key.value)
             && e.env.now < row.createdAt + 86_400_000_000
    ensures var s := Run(EMPTY, events + later); Exec(s, e) == s
  {
    RowsAreFinal(events, later);
    var s := Run(EMPTY, events + later);
    assert s.rows[k] == Run(EMPTY, events).rows[k];
    assert GuardStep(s.rows, e.op.header, e.env.now).Err?;
  }

  lemma {:induction false} LogIsInOrder(events: seq<Event>, from: Time)
    requires Clocked(events, from)
    ensures InOrder(Run(EMPTY, events).rows)
  {
    var _ := RunKeepsSpaced(EMPTY, events, from);
  }

  lemma {:induction false} ConsInOrder(tx: Tx, rest: seq<Tx>)
    requires InOrder(rest) && forall j :: 0 <= j < |rest| ==> tx.createdAt <= rest[j].createdAt
    ensures InOrder([tx] + rest)
  {
  }

  lemma {:induction false} FilterInOrder(rows: seq<Tx>, p: Tx -> bool)
    requires InOrder(rows)
    ensures InOrder(Filter(rows, p))
  {
    if rows != [] {
      FilterInOrder(rows[1..], p);
      var rest := Filter(rows[1..], p);
      forall j | 0 <= j < |rest| ensures rows[0].createdAt <= rest[j].createdAt {
        assert rest[j] in rest && rest[j] in rows[1..];
        var k :| 0 <= k < |rows[1..]| && rows[1..][k] == rest[j];
        assert rows[k + 1] == rest[j];
      }
      ConsInOrder(rows[0], rest);
    }
  }
}
