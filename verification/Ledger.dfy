/**
  The committed store - the accounts and transactions tables - and what each money operation does to it as
  one indivisible step. Money is a whole number of kobo. The classes in Services.dfy, which work in stages, are
  proved to do exactly this.
 */
module Ledger {
  import opened Outcomes
  import opened Seqs

  type Time = int          // microseconds, as the database stores them
  type Millis = int        // milliseconds, as the application's clock counts them
  type AccountId = nat     // accounts are numbered in order of creation
  type TxId = int

  datatype Currency = NGN | USD | GBP | EUR
  datatype AccountStatus = Active | Frozen | Closed
  datatype Account = Account(
    number: string, owner: string, currency: Currency, status: AccountStatus, balance: int, ledgerBalance: int)

  datatype TxType = Transfer | Deposit | Withdrawal | Payment | Reversal
  datatype TxStatus = Pending | Processing | Completed | FailedTx | Reversed
  datatype Tx = Tx(
    id: Option<TxId>, reference: string, txType: TxType, status: TxStatus, amount: int, fee: int, currency: Currency,
    description: string, source: Option<AccountId>, destination: Option<AccountId>, key: Option<string>,
    failure: Option<Error>, createdAt: Time)

  datatype Store = Store(accounts: seq<Account>, rows: seq<Tx>)

  /** What the surroundings contribute to one operation: clock, generated identifiers, and where they fail. */
  datatype Env = Env(now: Time, txId: TxId, reference: string, faults: set<Fault>)

  datatype Settlement = Settlement(store: Store, reply: Result<Tx>)

  function Or<T>(o: Option<T>, default: T): T {
    if o.Some? then o.value else default
  }

  // ---- Lookups ----

  function FindByNumber(accounts: seq<Account>, number: string): (r: Option<AccountId>)
    ensures r.Some? ==> r.value < |accounts| && accounts[r.value].number == number
    ensures r.None? ==> forall i :: 0 <= i < |accounts| ==> accounts[i].number != number
  {
    Find(accounts, (a: Account) => a.number == number)
  }

  function FindRow(rows: seq<Tx>, id: TxId): (r: Option<nat>)
    ensures r.Some? ==> r.value < |rows| && rows[r.value].id == Some(id)
    ensures r.None? ==> forall i :: 0 <= i < |rows| ==> rows[i].id != Some(id)
  {
    Find(rows, (tx: Tx) => tx.id == Some(id))
  }

  /** The unique columns of the transactions table: the primary key and the reference. */
  predicate Taken(rows: seq<Tx>, id: TxId, reference: string) {
    exists i :: 0 <= i < |rows| && (rows[i].id == Some(id) || rows[i].reference == reference)
  }

  /** Saving a row updates the row with its identifier, or inserts it - unless a unique column forbids that. */
  function SaveRow(rows: seq<Tx>, tx: Tx, newId: TxId): Result<seq<Tx>> {
    if tx.id.Some? && FindRow(rows, tx.id.value).Some? then Ok(rows[FindRow(rows, tx.id.value).value := tx])
    else
      var id := Or(tx.id, newId);
      if Taken(rows, id, tx.reference) then Err(UniqueViolation) else Ok(rows + [tx.(id := Some(id))])
  }

  /** `findOne` with an owner: the lookup and ownership check that precedes every operation. */
  function FindOne(s: Store, id: AccountId, user: Option<string>): Result<Account> {
    if id >= |s.accounts| then Err(AccountNotFound)
    else if user.Some? && s.accounts[id].owner != user.value then Err(AccessDenied)
    else Ok(s.accounts[id])
  }

  // ---- Effects of a row on the accounts ----

  function Adjust(accounts: seq<Account>, id: AccountId, delta: int): (r: seq<Account>)
    requires id < |accounts|
    ensures |r| == |accounts|
    ensures r[id].balance == accounts[id].balance + delta && r[id].ledgerBalance == accounts[id].ledgerBalance + delta
    ensures forall i :: 0 <= i < |r| && i != id ==> r[i] == accounts[i]
  {
    var a := accounts[id];
    accounts[id := a.(balance := a.balance + delta, ledgerBalance := a.ledgerBalance + delta)]
  }

  predicate RefersTo(accounts: seq<Account>, tx: Tx) {
    && (tx.source.Some? ==> tx.source.value < |accounts|)
    && (tx.destination.Some? ==> tx.destination.value < |accounts|)
  }

  /** The row's money moved: the source loses amount and fee, then the destination gains the amount. */
  function Moved(accounts: seq<Account>, tx: Tx): (r: seq<Account>)
    requires RefersTo(accounts, tx)
    ensures |r| == |accounts|
  {
    var debited := if tx.source.Some? then Adjust(accounts, tx.source.value, -(tx.amount + tx.fee)) else accounts;
    if tx.destination.Some? then Adjust(debited, tx.destination.value, tx.amount) else debited
  }

  /** The first thing that goes wrong while a movement is carried out, if anything does. */
  function Failure(s: Store, tx: Tx, env: Env): Option<Error> {
    if AtSave in env.faults then Some(Outage(AtSave))
    else if Taken(s.rows, env.txId, tx.reference) then Some(UniqueViolation)
    else if tx.source.Some? && DebitFailure(s.accounts, tx.source.value, tx.amount + tx.fee, env).Some? then
      DebitFailure(s.accounts, tx.source.value, tx.amount + tx.fee, env)
    else if tx.destination.Some? && AtCredit in env.faults then Some(Outage(AtCredit))
    else if tx.destination.Some? && tx.destination.value >= |s.accounts| then Some(DestinationNotFound)
    else if AtMark in env.faults then Some(Outage(AtMark))
    else if AtCommit in env.faults then Some(Outage(AtCommit))
    else None
  }

  function DebitFailure(accounts: seq<Account>, id: AccountId, amount: int, env: Env): Option<Error> {
    if AtDebit in env.faults then Some(Outage(AtDebit))
    else if id >= |accounts| then Some(AccountNotFound)
    else if accounts[id].status != Active then Some(AccountNotActive)
    else if accounts[id].balance < amount then Some(InsufficientFunds)
    else None
  }

  /**
    A whole movement as one step. Either the money moves and one COMPLETED row appears, or the accounts stay as
    they were and one FAILED row records the reason - unless that row cannot be stored either, and nothing changes.
    A listener that throws after the commit is reported to the caller, but undoes nothing.
   */
  function Settle(s: Store, tx: Tx, env: Env): Settlement {
    if AtBegin in env.faults then Settlement(s, Err(Outage(AtBegin)))
    else
      match Failure(s, tx, env)
      case None =>
        var done := tx.(id := Some(env.txId), status := Completed);
        Settlement(Store(Moved(s.accounts, tx), s.rows + [done]),
                   if AtNotify in env.faults then Err(TransactionNotStarted) else Ok(done))
      case Some(e) =>
        if AtRollback in env.faults then Settlement(s, Err(Outage(AtRollback)))
        else if AtSaveFailed in env.faults then Settlement(s, Err(Outage(AtSaveFailed)))
        else if Taken(s.rows, env.txId, tx.reference) then Settlement(s, Err(UniqueViolation))
        else
          Settlement(s.(rows := s.rows + [tx.(id := Some(env.txId), status := FailedTx, failure := Some(e))]), Err(e))
  }

  // ---- The requests ----

  datatype TransferRequest = TransferRequest(
    source: AccountId, destinationNumber: string, amount: int, description: Option<string>)
  datatype DepositRequest = DepositRequest(
    account: AccountId, amount: int, description: Option<string>, reference: Option<string>)
  datatype WithdrawalRequest = WithdrawalRequest(account: AccountId, amount: int, description: Option<string>)

  function TransferRow(req: TransferRequest, dest: AccountId, currency: Currency, fee: int, key: Option<string>,
                       env: Env): Tx {
    Tx(None, env.reference, Transfer, Pending, req.amount, fee, currency, Or(req.description, "Transfer"),
       Some(req.source), Some(dest), key, None, env.now)
  }

  function DepositRow(req: DepositRequest, currency: Currency, env: Env): Tx {
    Tx(None, Or(req.reference, env.reference), Deposit, Pending, req.amount, 0, currency,
       Or(req.description, "Deposit"), None, Some(req.account), None, None, env.now)
  }

  function WithdrawalRow(req: WithdrawalRequest, currency: Currency, key: Option<string>, env: Env): Tx {
    Tx(None, env.reference, Withdrawal, Pending, req.amount, 0, currency, Or(req.description, "Withdrawal"),
       Some(req.account), None, key, None, env.now)
  }

  /** Both parties of a transfer, once every check made before the database transaction has passed. */
  function TransferParties(s: Store, user: string, req: TransferRequest): (r: Result<AccountId>)
    ensures r.Ok? <==>
      && req.source < |s.accounts| && s.accounts[req.source].owner == user
      && FindByNumber(s.accounts, req.destinationNumber).Some?
      && FindByNumber(s.accounts, req.destinationNumber).value != req.source
      && s.accounts[FindByNumber(s.accounts, req.destinationNumber).value].currency == s.accounts[req.source].currency
  {
    match FindOne(s, req.source, Some(user))
    case Err(e) => Err(e)
    case Ok(src) =>
      match FindByNumber(s.accounts, req.destinationNumber)
      case None => Err(DestinationNotFound)
      case Some(dest) =>
        if dest == req.source then Err(SameAccount)
        else if src.currency != s.accounts[dest].currency then Err(CrossCurrency)
        else Ok(dest)
  }

  function TransferStep(s: Store, user: string, req: TransferRequest, fee: int, key: Option<string>, env: Env)
      : Settlement {
    match TransferParties(s, user, req)
    case Err(e) => Settlement(s, Err(e))
    case Ok(dest) => Settle(s, TransferRow(req, dest, s.accounts[req.source].currency, fee, key, env), env)
  }

  function DepositStep(s: Store, req: DepositRequest, env: Env): Settlement {
    match FindOne(s, req.account, None)
    case Err(e) => Settlement(s, Err(e))
    case Ok(a) => Settle(s, DepositRow(req, a.currency, env), env)
  }

  function WithdrawStep(s: Store, user: string, req: WithdrawalRequest, key: Option<string>, env: Env): Settlement {
    match FindOne(s, req.account, Some(user))
    case Err(e) => Settlement(s, Err(e))
    case Ok(a) => Settle(s, WithdrawalRow(req, a.currency, key, env), env)
  }

  // ---- Accounts and maintenance ----

  function CreateStep(s: Store, owner: string, number: string, currency: Currency): Result<Store> {
    if FindByNumber(s.accounts, number).Some? then Err(UniqueViolation)
    else Ok(s.(accounts := s.accounts + [Account(number, owner, currency, Active, 0, 0)]))
  }

  function FreezeStep(s: Store, id: AccountId, user: string): Result<Store> {
    match FindOne(s, id, Some(user))
    case Err(e) => Err(e)
    case Ok(a) => if a.status == Frozen then Err(AlreadyFrozen) else Ok(WithStatus(s, id, Frozen))
  }

  function UnfreezeStep(s: Store, id: AccountId): Result<Store> {
    match FindOne(s, id, None)
    case Err(e) => Err(e)
    case Ok(_) => Ok(WithStatus(s, id, Active))
  }

  function WithStatus(s: Store, id: AccountId, status: AccountStatus): Store
    requires id < |s.accounts|
  {
    s.(accounts := s.accounts[id := s.accounts[id].(status := status)])
  }

  /** Who can freeze what, and what freezing leaves; the refusal of each who cannot. */
  lemma {:induction false} FreezingIs(s: Store, id: AccountId, user: string)
    ensures var r := FreezeStep(s, id, user);
            && (r.Ok? <==> id < |s.accounts| && s.accounts[id].owner == user && s.accounts[id].status != Frozen)
            && (r.Ok? ==> r.value == s.(accounts := s.accounts[id := s.accounts[id].(status := Frozen)]))
            && (id >= |s.accounts| ==> r == Err(AccountNotFound))
            && (id < |s.accounts| && s.accounts[id].owner != user ==> r == Err(AccessDenied))
            && (id < |s.accounts| && s.accounts[id].owner == user && s.accounts[id].status == Frozen ==>
                  r == Err(AlreadyFrozen))
  {
  }

  /** Unfreezing asks for no owner, and makes any account active. */
  lemma {:induction false} UnfreezingIs(s: Store, id: AccountId)
    ensures UnfreezeStep(s, id)
            == if id < |s.accounts| then Ok(s.(accounts := s.accounts[id := s.accounts[id].(status := Active)]))
               else Err(AccountNotFound)
  {
  }

  /** A new account is active and empty; its number must be new. */
  lemma {:induction false} CreatingIs(s: Store, owner: string, number: string, currency: Currency)
    ensures CreateStep(s, owner, number, currency)
            == if exists i :: 0 <= i < |s.accounts| && s.accounts[i].number == number then Err(UniqueViolation)
               else Ok(s.(accounts := s.accounts + [Account(number, owner, currency, Active, 0, 0)]))
  {
  }

  /** What `Date.now()` reads at a moment. */
  function AppClock(now: Time): Millis {
    now / 1000
  }

  /** An instant of the application's clock, as the database compares it. */
  function AsTime(ms: Millis): Time {
    ms * 1000
  }

  const STUCK_AFTER_MS := 30 * 60 * 1000

  /** The hourly job: PENDING rows created more than half an hour ago become FAILED. */
  function Expired(rows: seq<Tx>, now: Time): (r: seq<Tx>)
    ensures |r| == |rows|
  {
    if rows == [] then []
    else
      var tx := rows[0];
      [if tx.status == Pending && tx.createdAt < AsTime(AppClock(now) - STUCK_AFTER_MS)
       then tx.(status := FailedTx, failure := Some(TimedOut)) else tx] + Expired(rows[1..], now)
  }

  /** Every stuck row is failed, with its reason; every other row stays what it was. */
  lemma {:induction false} ExpiryIsExact(rows: seq<Tx>, now: Time, i: nat)
    requires i < |rows|
    ensures var stuck := rows[i].status == Pending && rows[i].createdAt < (now / 1000 - 1_800_000) * 1000;
            && (stuck ==> Expired(rows, now)[i] == rows[i].(status := FailedTx, failure := Some(TimedOut)))
            && (!stuck ==> Expired(rows, now)[i] == rows[i])
            && (stuck <==> Expired(rows, now)[i] != rows[i])
  {
    if i > 0 {
      ExpiryIsExact(rows[1..], now, i - 1);
    }
  }

  // ---- The same operations, said outright ----

  /** `tx` moved money: `s'` differs from `s` by the stated balances and by one appended COMPLETED row. */
  ghost predicate Took(s: Store, s': Store, payer: Option<AccountId>, paid: int, payee: Option<AccountId>, got: int) {
    && |s'.accounts| == |s.accounts|
    && (forall i :: 0 <= i < |s.accounts| ==>
          var change := (if payee == Some(i) then got else 0) - (if payer == Some(i) then paid else 0);
          s'.accounts[i] == s.accounts[i].(balance := s.accounts[i].balance + change,
                                           ledgerBalance := s.accounts[i].ledgerBalance + change))
    && |s'.rows| == |s.rows| + 1 && s.rows <= s'.rows
    && var row := s'.rows[|s.rows|];
       && row.status == Completed && row.source == payer && row.destination == payee
       && (payee.Some? ==> row.amount == got) && (payer.Some? ==> row.amount + row.fee == paid)
  }

  /** Nothing moved: at most one FAILED row was appended. */
  ghost predicate LeftAlone(s: Store, s': Store) {
    && s'.accounts == s.accounts
    && (s'.rows == s.rows || (|s'.rows| == |s.rows| + 1 && s.rows <= s'.rows && s'.rows[|s.rows|].status == FailedTx))
  }

  /** Something fails between the beginning of the database transaction and its commit. */
  predicate BreaksDown(env: Env, debits: bool, credits: bool) {
    || AtSave in env.faults || (debits && AtDebit in env.faults) || (credits && AtCredit in env.faults)
    || AtMark in env.faults || AtCommit in env.faults
  }

  /** The surroundings let a movement run through its commit. */
  predicate Undisturbed(env: Env, debits: bool, credits: bool) {
    AtBegin !in env.faults && !BreaksDown(env, debits, credits)
  }

  /**
    A transfer is all or nothing, whatever fails and wherever: the sender loses amount and fee and the receiver
    gains the amount exactly when nothing failed before the commit, the generated identifiers were unused, both
    parties were acceptable, and the sender was active and could pay. In every other case no balance changes.
   */
  lemma {:induction false} TransferIsAllOrNothing(s: Store, user: string, req: TransferRequest, fee: int,
                                                  key: Option<string>, env: Env)
    ensures var Settlement(s', reply) := TransferStep(s, user, req, fee, key, env);
            var dest := FindByNumber(s.accounts, req.destinationNumber);
            var pays := && TransferParties(s, user, req).Ok? && Undisturbed(env, true, true)
                        && !Taken(s.rows, env.txId, env.reference)
                        && s.accounts[req.source].status == Active
                        && s.accounts[req.source].balance >= req.amount + fee;
            && (pays ==> Took(s, s', Some(req.source), req.amount + fee, dest, req.amount))
            && (!pays ==> LeftAlone(s, s'))
            && (reply.Ok? <==> pays && AtNotify !in env.faults) && (reply.Ok? ==> s'.rows == s.rows + [reply.value])
  {
    if TransferParties(s, user, req).Ok? {
      var dest := TransferParties(s, user, req).value;
      SettleIsAllOrNothing(s, TransferRow(req, dest, s.accounts[req.source].currency, fee, key, env), env);
    }
  }

  /** The same for a deposit; the receiver's status is not consulted. */
  lemma {:induction false} DepositIsAllOrNothing(s: Store, req: DepositRequest, env: Env)
    ensures var Settlement(s', reply) := DepositStep(s, req, env);
            var gets := && req.account < |s.accounts| && Undisturbed(env, false, true)
                        && !Taken(s.rows, env.txId, Or(req.reference, env.reference));
            && (gets ==> Took(s, s', None, 0, Some(req.account), req.amount))
            && (!gets ==> LeftAlone(s, s'))
            && (reply.Ok? <==> gets && AtNotify !in env.faults) && (reply.Ok? ==> s'.rows == s.rows + [reply.value])
  {
    if req.account < |s.accounts| {
      SettleIsAllOrNothing(s, DepositRow(req, s.accounts[req.account].currency, env), env);
    }
  }

  /** The same for a withdrawal. */
  lemma {:induction false} WithdrawalIsAllOrNothing(s: Store, user: string, req: WithdrawalRequest,
                                                    key: Option<string>, env: Env)
    ensures var Settlement(s', reply) := WithdrawStep(s, user, req, key, env);
            var pays := && req.account < |s.accounts| && s.accounts[req.account].owner == user
                        && Undisturbed(env, true, false)
                        && !Taken(s.rows, env.txId, env.reference)
                        && s.accounts[req.account].status == Active && s.accounts[req.account].balance >= req.amount;
            && (pays ==> Took(s, s', Some(req.account), req.amount, None, 0))
            && (!pays ==> LeftAlone(s, s'))
            && (reply.Ok? <==> pays && AtNotify !in env.faults) && (reply.Ok? ==> s'.rows == s.rows + [reply.value])
  {
    if req.account < |s.accounts| {
      SettleIsAllOrNothing(s, WithdrawalRow(req, s.accounts[req.account].currency, key, env), env);
    }
  }

  lemma {:induction false} SettleIsAllOrNothing(s: Store, tx: Tx, env: Env)
    requires RefersTo(s.accounts, tx) && (tx.source.Some? ==> tx.source != tx.destination)
    ensures var s' := Settle(s, tx, env).store;
            && (AtBegin !in env.faults && Failure(s, tx, env).None? ==>
                  Took(s, s', tx.source, tx.amount + tx.fee, tx.destination, tx.amount))
            && (AtBegin in env.faults || Failure(s, tx, env).Some? ==> LeftAlone(s, s'))
  {
  }

  /** The failure of `tx` was recorded: one FAILED row appeared, holding the reason the caller was given. */
  predicate Records(s: Store, after: Settlement, tx: Tx, env: Env) {
    && after.reply.Err?
    && var failed := tx.(id := Some(env.txId), status := FailedTx, failure := Some(after.reply.error));
       after.store == s.(rows := s.rows + [failed])
  }

  /** A failure inside the `try` can be recorded: the rollback and the second save work. */
  predicate Recordable(env: Env) {
    AtBegin !in env.faults && AtRollback !in env.faults && AtSaveFailed !in env.faults
  }

  /** A movement's failure is recorded exactly when it fails inside the `try`, can be recorded, and no row collides. */
  lemma {:induction false} FailureIsRecordedIff(s: Store, tx: Tx, env: Env)
    ensures var after := Settle(s, tx, env);
            var recorded := Failure(s, tx, env).Some? && Recordable(env) && !Taken(s.rows, env.txId, tx.reference);
            && (recorded <==> Records(s, after, tx, env)) && (recorded <==> Failed(s, after.store))
            && (recorded ==> after.reply.error == Failure(s, tx, env).value)
            && (!recorded && (AtBegin in env.faults || Failure(s, tx, env).Some?) ==>
                  after.store == s && after.reply.Err?)
  {
    if AtBegin !in env.faults && Failure(s, tx, env).None? {
      var done := tx.(id := Some(env.txId), status := Completed);
      assert (s.rows + [done])[|s.rows|] == done;
      assert forall x :: (s.rows + [x])[|s.rows|] == x;
    }
  }

  /** One COMPLETED row was appended. */
  predicate Completes(s: Store, s': Store) {
    |s'.rows| == |s.rows| + 1 && s.rows <= s'.rows && s'.rows[|s.rows|].status == Completed
  }

  /** One FAILED row was appended. */
  predicate Failed(s: Store, s': Store) {
    |s'.rows| == |s.rows| + 1 && s.rows <= s'.rows && s'.rows[|s.rows|].status == FailedTx
  }

  /**
    A failed transfer is recorded for audit exactly when its parties were acceptable and the database transaction
    was begun; something then broke down, or the sender was not active or could not pay; the failure could be
    stored; and its reference and identifier were free. Any other failure leaves no trace.
   */
  lemma {:induction false} TransferFailureIsRecordedIff(s: Store, user: string, req: TransferRequest, fee: int,
                                                        key: Option<string>, env: Env)
    ensures var after := TransferStep(s, user, req, fee, key, env);
            var parties := TransferParties(s, user, req);
            var recorded := && parties.Ok? && Recordable(env) && !Taken(s.rows, env.txId, env.reference)
                            && (|| BreaksDown(env, true, true) || s.accounts[req.source].status != Active
                                || s.accounts[req.source].balance < req.amount + fee);
            && (recorded <==> Failed(s, after.store))
            && (recorded ==>
                  var currency := s.accounts[req.source].currency;
                  Records(s, after, TransferRow(req, parties.value, currency, fee, key, env), env))
            && (!recorded ==> after.store == s || Completes(s, after.store))
  {
    if TransferParties(s, user, req).Ok? {
      var dest := TransferParties(s, user, req).value;
      FailureIsRecordedIff(s, TransferRow(req, dest, s.accounts[req.source].currency, fee, key, env), env);
    }
  }

  /** The same for a deposit, which only a breakdown can make fail inside the `try`. */
  lemma {:induction false} DepositFailureIsRecordedIff(s: Store, req: DepositRequest, env: Env)
    ensures var after := DepositStep(s, req, env);
            var recorded := && req.account < |s.accounts| && Recordable(env) && BreaksDown(env, false, true)
                            && !Taken(s.rows, env.txId, Or(req.reference, env.reference));
            && (recorded <==> Failed(s, after.store))
            && (recorded ==> Records(s, after, DepositRow(req, s.accounts[req.account].currency, env), env))
            && (!recorded ==> after.store == s || Completes(s, after.store))
  {
    if req.account < |s.accounts| {
      FailureIsRecordedIff(s, DepositRow(req, s.accounts[req.account].currency, env), env);
    }
  }

  /** The same for a withdrawal. */
  lemma {:induction false} WithdrawalFailureIsRecordedIff(s: Store, user: string, req: WithdrawalRequest,
                                                          key: Option<string>, env: Env)
    ensures var after := WithdrawStep(s, user, req, key, env);
            var recorded := && req.account < |s.accounts| && s.accounts[req.account].owner == user && Recordable(env)
                            && !Taken(s.rows, env.txId, env.reference)
                            && (|| BreaksDown(env, true, false) || s.accounts[req.account].status != Active
                                || s.accounts[req.account].balance < req.amount);
            && (recorded <==> Failed(s, after.store))
            && (recorded ==> Records(s, after, WithdrawalRow(req, s.accounts[req.account].currency, key, env), env))
            && (!recorded ==> after.store == s || Completes(s, after.store))
  {
    if FindOne(s, req.account, Some(user)).Ok? {
      FailureIsRecordedIff(s, WithdrawalRow(req, s.accounts[req.account].currency, key, env), env);
    }
  }

  /** A reference or identifier that is already used leaves the whole store as it was, with the caller told so. */
  lemma {:induction false} CollisionChangesNothing(s: Store, tx: Tx, env: Env)
    requires Taken(s.rows, env.txId, tx.reference)
    ensures Settle(s, tx, env).store == s && Settle(s, tx, env).reply.Err?
  {
  }
}
