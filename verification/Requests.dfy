/**
  What each request does, in the request's own terms: which refusal it meets, which balances change, and every column
  of the row it leaves. Nothing here goes through the functions that carry a request out.
 */
module Requests {
  import opened Outcomes
  import opened Ledger
  import opened Idempotency
  import opened History

  /** The row appended, if one was, is finished, and its failure is the error the caller was given. */
  predicate Finished(row: Tx, reply: Result<Tx>) {
    || (row.status == Completed && row.failure == None)
    || (row.status == FailedTx && reply.Err? && row.failure == Some(reply.error))
  }

  /** A transfer leaves no row, or one with these columns. */
  lemma {:induction false} TransferWrites(s: Store, user: string, req: TransferRequest, fee: int, key: Option<string>,
                                          env: Env)
    ensures var Settlement(s', reply) := TransferStep(s, user, req, fee, key, env);
            s'.rows == s.rows
            || (&& |s'.rows| == |s.rows| + 1 && req.source < |s.accounts| && s.accounts[req.source].owner == user
                && var row := s'.rows[|s.rows|];
                   && row.destination.Some? && row.destination.value < |s.accounts|
                   && s.accounts[row.destination.value].number == req.destinationNumber
                   && s'.rows == s.rows
                        + [Tx(Some(env.txId), env.reference, Transfer, row.status, req.amount, fee,
                              s.accounts[req.source].currency,
                              if req.description.Some? then req.description.value else "Transfer",
                              Some(req.source), row.destination, key, row.failure, env.now)]
                   && Finished(row, reply))
  {
    if TransferParties(s, user, req).Ok? {
      var dest := TransferParties(s, user, req).value;
      SettleWrites(s, TransferRow(req, dest, s.accounts[req.source].currency, fee, key, env), env);
    }
  }

  lemma {:induction false} DepositWrites(s: Store, req: DepositRequest, env: Env)
    ensures var Settlement(s', reply) := DepositStep(s, req, env);
            s'.rows == s.rows
            || (&& |s'.rows| == |s.rows| + 1 && req.account < |s.accounts|
                && var row := s'.rows[|s.rows|];
                   && s'.rows == s.rows
                        + [Tx(Some(env.txId), if req.reference.Some? then req.reference.value else env.reference,
                              Deposit, row.status, req.amount, 0, s.accounts[req.account].currency,
                              if req.description.Some? then req.description.value else "Deposit",
                              None, Some(req.account), None, row.failure, env.now)]
                   && Finished(row, reply))
  {
    if req.account < |s.accounts| {
      SettleWrites(s, DepositRow(req, s.accounts[req.account].currency, env), env);
    }
  }

  lemma {:induction false} WithdrawalWrites(s: Store, user: string, req: WithdrawalRequest, key: Option<string>,
                                            env: Env)
    ensures var Settlement(s', reply) := WithdrawStep(s, user, req, key, env);
            s'.rows == s.rows
            || (&& |s'.rows| == |s.rows| + 1 && req.account < |s.accounts| && s.accounts[req.account].owner == user
                && var row := s'.rows[|s.rows|];
                   && s'.rows == s.rows
                        + [Tx(Some(env.txId), env.reference, Withdrawal, row.status, req.amount, 0,
                              s.accounts[req.account].currency,
                              if req.description.Some? then req.description.value else "Withdrawal",
                              Some(req.account), None, key, row.failure, env.now)]
                   && Finished(row, reply))
  {
    if FindOne(s, req.account, Some(user)).Ok? {
      SettleWrites(s, WithdrawalRow(req, s.accounts[req.account].currency, key, env), env);
    }
  }

  lemma {:induction false} SettleWrites(s: Store, tx: Tx, env: Env)
    requires tx.failure == None
    ensures var Settlement(s', reply) := Settle(s, tx, env);
            s'.rows == s.rows
            || (&& |s'.rows| == |s.rows| + 1
                && var row := s'.rows[|s.rows|];
                   && s'.rows == s.rows + [tx.(id := Some(env.txId), status := row.status, failure := row.failure)]
                   && Finished(row, reply))
  {
  }

  // ---- Refusals ----

  /** Nothing fails, and the row's unique columns are free. */
  predicate Clear(s: Store, env: Env, reference: string) {
    && env.faults == {}
    && forall i :: 0 <= i < |s.rows| ==> s.rows[i].id != Some(env.txId) && s.rows[i].reference != reference
  }

  /** Why a transfer is refused, in the order in which the reasons are looked for; and when it is not. */
  lemma {:induction false} TransferReplies(s: Store, user: string, req: TransferRequest, fee: int, key: Option<string>,
                                           env: Env)
    ensures var Settlement(s', reply) := TransferStep(s, user, req, fee, key, env);
            var dest := FindByNumber(s.accounts, req.destinationNumber);
            if req.source >= |s.accounts| then s' == s && reply == Err(AccountNotFound)
            else
              var from := s.accounts[req.source];
              if from.owner != user then s' == s && reply == Err(AccessDenied)
              else if dest.None? then s' == s && reply == Err(DestinationNotFound)
              else if dest.value == req.source then s' == s && reply == Err(SameAccount)
              else if s.accounts[dest.value].currency != from.currency then s' == s && reply == Err(CrossCurrency)
              else Clear(s, env, env.reference) ==>
                if from.status != Active then reply == Err(AccountNotActive) && s'.accounts == s.accounts
                else if from.balance < req.amount + fee then
                  reply == Err(InsufficientFunds) && s'.accounts == s.accounts
                else reply.Ok? && reply.value.status == Completed
  {
    TransferIsAllOrNothing(s, user, req, fee, key, env);
  }

  lemma {:induction false} DepositReplies(s: Store, req: DepositRequest, env: Env)
    ensures var Settlement(s', reply) := DepositStep(s, req, env);
            if req.account >= |s.accounts| then s' == s && reply == Err(AccountNotFound)
            else Clear(s, env, if req.reference.Some? then req.reference.value else env.reference) ==>
              reply.Ok? && reply.value.status == Completed
  {
    DepositIsAllOrNothing(s, req, env);
  }

  lemma {:induction false} WithdrawalReplies(s: Store, user: string, req: WithdrawalRequest, key: Option<string>,
                                             env: Env)
    ensures var Settlement(s', reply) := WithdrawStep(s, user, req, key, env);
            if req.account >= |s.accounts| then s' == s && reply == Err(AccountNotFound)
            else
              var from := s.accounts[req.account];
              if from.owner != user then s' == s && reply == Err(AccessDenied)
              else Clear(s, env, env.reference) ==>
                if from.status != Active then reply == Err(AccountNotActive) && s'.accounts == s.accounts
                else if from.balance < req.amount then reply == Err(InsufficientFunds) && s'.accounts == s.accounts
                else reply.Ok? && reply.value.status == Completed
  {
    WithdrawalIsAllOrNothing(s, user, req, key, env);
  }

  /** The reasons for which a movement can fail inside its database transaction, in the order in which it meets them. */
  function Reasons(s: Store, tx: Tx, env: Env): seq<(bool, Error)> {
    var accounts := s.accounts;
    var payer := if tx.source.Some? && tx.source.value < |accounts| then Some(accounts[tx.source.value]) else None;
    [ (AtSave in env.faults, Outage(AtSave)),
      (exists i :: 0 <= i < |s.rows| && (s.rows[i].id == Some(env.txId) || s.rows[i].reference == tx.reference),
       UniqueViolation),
      (tx.source.Some? && AtDebit in env.faults, Outage(AtDebit)),
      (tx.source.Some? && payer.None?, AccountNotFound),
      (payer.Some? && payer.value.status != Active, AccountNotActive),
      (payer.Some? && payer.value.balance < tx.amount + tx.fee, InsufficientFunds),
      (tx.destination.Some? && AtCredit in env.faults, Outage(AtCredit)),
      (tx.destination.Some? && tx.destination.value >= |accounts|, DestinationNotFound),
      (AtMark in env.faults, Outage(AtMark)),
      (AtCommit in env.faults, Outage(AtCommit)) ]
  }

  /** It fails if and only if one of them applies, and for the first that does. */
  lemma {:induction false} FirstReasonDecides(s: Store, tx: Tx, env: Env, i: nat)
    requires i <= 10 && forall j :: 0 <= j < i ==> !Reasons(s, tx, env)[j].0
    ensures i == 10 ==> Failure(s, tx, env) == None
    ensures i < 10 && Reasons(s, tx, env)[i].0 ==> Failure(s, tx, env) == Some(Reasons(s, tx, env)[i].1)
  {
    var reasons := Reasons(s, tx, env);
    assert reasons[1].0 == Taken(s.rows, env.txId, tx.reference);
    assert i > 0 ==> !reasons[0].0;
    assert i > 1 ==> !reasons[1].0;
    assert i > 2 ==> !reasons[2].0;
    assert i > 3 ==> !reasons[3].0;
    assert i > 4 ==> !reasons[4].0;
    assert i > 5 ==> !reasons[5].0;
    assert i > 6 ==> !reasons[6].0;
    assert i > 7 ==> !reasons[7].0;
    assert i > 8 ==> !reasons[8].0;
    assert i > 9 ==> !reasons[9].0;
  }

  /** What the caller of a movement that failed is told, and that only a failure that could be recorded leaves a row. */
  lemma {:induction false} FailureReplies(s: Store, tx: Tx, env: Env)
    requires AtBegin in env.faults || Failure(s, tx, env).Some?
    ensures var Settlement(s', reply) := Settle(s, tx, env);
            && s'.accounts == s.accounts
            && (AtBegin in env.faults ==> s' == s && reply == Err(Outage(AtBegin)))
            && (AtBegin !in env.faults && AtRollback in env.faults ==> s' == s && reply == Err(Outage(AtRollback)))
            && (AtBegin !in env.faults && AtRollback !in env.faults ==>
                  && (AtSaveFailed in env.faults ==> s' == s && reply == Err(Outage(AtSaveFailed)))
                  && (AtSaveFailed !in env.faults && Taken(s.rows, env.txId, tx.reference) ==>
                        s' == s && reply == Err(UniqueViolation))
                  && (AtSaveFailed !in env.faults && !Taken(s.rows, env.txId, tx.reference) ==>
                        |s'.rows| == |s.rows| + 1 && reply == Err(Failure(s, tx, env).value)))
  {
  }

  // ---- Requests as they arrive ----

  /** The request carries a UUID that a row of the last 24 hours carries. */
  ghost predicate KeyIsUsed(rows: seq<Tx>, h: Header, now: Time) {
    && SentKey(h).Some? && IsUuid(SentKey(h).value)
    && exists i :: 0 <= i < |rows| && rows[i].key == SentKey(h) && rows[i].createdAt > (now / 1000 - 86_400_000) * 1000
  }

  /** The key a request's row carries: the UUID it was sent under, if any. */
  function KeyOf(h: Header): Option<string> {
    if SentKey(h).Some? && IsUuid(SentKey(h).value) then SentKey(h) else None
  }

  lemma {:induction false} GuardRefusesIff(rows: seq<Tx>, h: Header, now: Time)
    ensures GuardStep(rows, h, now).Err? <==> KeyIsUsed(rows, h, now)
    ensures GuardStep(rows, h, now).Ok? ==> GuardStep(rows, h, now).value == KeyOf(h)
  {
  }

  /** A transfer request moves money if and only if all of this holds; it changes no balance otherwise. */
  lemma {:induction false} TransferIsServedIff(s: Store, user: string, h: Header, req: TransferRequest, fee: int,
                                               env: Env)
    ensures var s' := Exec(s, Event(SendTransfer(user, h, req, fee), env));
            var dest := FindByNumber(s.accounts, req.destinationNumber);
            var pays := && !KeyIsUsed(s.rows, h, env.now) && req.amount >= 100
                        && req.source < |s.accounts| && s.accounts[req.source].owner == user
                        && dest.Some? && dest.value != req.source
                        && s.accounts[dest.value].currency == s.accounts[req.source].currency
                        && s.accounts[req.source].status == Active && s.accounts[req.source].balance >= req.amount + fee
                        && Undisturbed(env, true, true) && !Taken(s.rows, env.txId, env.reference);
            && (pays ==> Took(s, s', Some(req.source), req.amount + fee, dest, req.amount))
            && (!pays ==> LeftAlone(s, s'))
            && (s'.rows != s.rows ==> |s'.rows| == |s.rows| + 1 && s'.rows[|s.rows|].key == KeyOf(h)
                                      && s'.rows[|s.rows|].createdAt == env.now)
  {
    GuardRefusesIff(s.rows, h, env.now);
    var guarded := GuardStep(s.rows, h, env.now);
    if guarded.Ok? {
      TransferIsAllOrNothing(s, user, req, fee, guarded.value, env);
      TransferWrites(s, user, req, fee, guarded.value, env);
    }
  }

  lemma {:induction false} WithdrawalIsServedIff(s: Store, user: string, h: Header, req: WithdrawalRequest, env: Env)
    ensures var s' := Exec(s, Event(SendWithdrawal(user, h, req), env));
            var pays := && !KeyIsUsed(s.rows, h, env.now) && req.amount > 0
                        && req.account < |s.accounts| && s.accounts[req.account].owner == user
                        && s.accounts[req.account].status == Active && s.accounts[req.account].balance >= req.amount
                        && Undisturbed(env, true, false) && !Taken(s.rows, env.txId, env.reference);
            && (pays ==> Took(s, s', Some(req.account), req.amount, None, 0))
            && (!pays ==> LeftAlone(s, s'))
            && (s'.rows != s.rows ==> |s'.rows| == |s.rows| + 1 && s'.rows[|s.rows|].key == KeyOf(h)
                                      && s'.rows[|s.rows|].createdAt == env.now)
  {
    GuardRefusesIff(s.rows, h, env.now);
    var guarded := GuardStep(s.rows, h, env.now);
    if guarded.Ok? {
      WithdrawalIsAllOrNothing(s, user, req, guarded.value, env);
      WithdrawalWrites(s, user, req, guarded.value, env);
    }
  }

  lemma {:induction false} DepositIsServedIff(s: Store, req: DepositRequest, env: Env)
    ensures var s' := Exec(s, Event(SendDeposit(req), env));
            var gets := && req.amount > 0 && req.account < |s.accounts| && Undisturbed(env, false, true)
                        && !Taken(s.rows, env.txId, if req.reference.Some? then req.reference.value else env.reference);
            && (gets ==> Took(s, s', None, 0, Some(req.account), req.amount))
            && (!gets ==> LeftAlone(s, s'))
  {
    DepositIsAllOrNothing(s, req, env);
  }

  /** What the requests about accounts leave, and that the two about status touch nothing else. */
  lemma {:induction false} AccountRequests(s: Store, env: Env, id: AccountId, user: string, number: string, c: Currency)
    ensures Exec(s, Event(CreateAccount(user, number, c), env)).rows == s.rows
    ensures Exec(s, Event(CreateAccount(user, number, c), env)).accounts
            == if exists i :: 0 <= i < |s.accounts| && s.accounts[i].number == number then s.accounts
               else s.accounts + [Account(number, user, c, Active, 0, 0)]
    ensures Exec(s, Event(Freeze(id, user), env))
            == if id < |s.accounts| && s.accounts[id].owner == user
               then s.(accounts := s.accounts[id := s.accounts[id].(status := Frozen)]) else s
    ensures Exec(s, Event(Unfreeze(id), env))
            == if id < |s.accounts| then s.(accounts := s.accounts[id := s.accounts[id].(status := Active)]) else s
  {
    if id < |s.accounts| {
      assert s.accounts[id].status == Frozen ==> s.accounts[id := s.accounts[id].(status := Frozen)] == s.accounts;
    }
  }

  /** The hourly job, row by row: what is PENDING and older than half an hour becomes FAILED, nothing else changes. */
  lemma {:induction false} ExpiryRequest(s: Store, env: Env)
    ensures var s' := Exec(s, Event(Expire, env));
            && s'.accounts == s.accounts && |s'.rows| == |s.rows|
            && forall i :: 0 <= i < |s.rows| ==>
                 var tx := s.rows[i];
                 s'.rows[i] == if tx.status == Pending && tx.createdAt < (env.now / 1000 - 1_800_000) * 1000
                               then tx.(status := FailedTx, failure := Some(TimedOut)) else tx
  {
    forall i: nat | i < |s.rows| {
      ExpiryIsExact(s.rows, env.now, i);
    }
  }

  // ---- The same key twice ----

  predicate IsKeyed(op: Op) {
    op.SendTransfer? || op.SendWithdrawal?
  }

  /**
    Once a request left a row, whatever happens since, every transfer or withdrawal sent under its UUID less than 24
    hours later changes nothing.
   */
  lemma {:induction false} SecondRequestChangesNothing(events: seq<Event>, first: Event, later: seq<Event>,
                                                       again: Event)
    requires IsKeyed(first.op) && IsKeyed(again.op)
    requires SentKey(first.op.header).Some? && SentKey(again.op.header) == SentKey(first.op.header)
    requires IsUuid(SentKey(first.op.header).value)
    requires Exec(Run(EMPTY, events), first).rows != Run(EMPTY, events).rows
    requires again.env.now < first.env.now + 86_400_000_000
    ensures var s := Run(EMPTY, events + [first] + later); Exec(s, again) == s
  {
    var s := Run(EMPTY, events);
    RunsCompose(EMPTY, events, [first]);
    assert Run(s, [first]) == Run(Exec(s, first), [first][1..]);
    RowCarriesKey(s, first);
    RepeatedKeyChangesNothing(events + [first], |s.rows|, later, again);
  }

  /** The one row a keyed request leaves carries the UUID it was sent under, and the time. */
  lemma {:induction false} RowCarriesKey(s: Store, e: Event)
    requires IsKeyed(e.op) && Exec(s, e).rows != s.rows
    ensures var rows := Exec(s, e).rows;
            |rows| == |s.rows| + 1 && rows[|s.rows|].key == KeyOf(e.op.header) && rows[|s.rows|].createdAt == e.env.now
  {
    match e.op
    case SendTransfer(user, h, req, fee) => TransferIsServedIff(s, user, h, req, fee, e.env);
    case SendWithdrawal(user, h, req) => WithdrawalIsServedIff(s, user, h, req, e.env);
  }
}
