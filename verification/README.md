# Verification of the Vault money ledger

A Dafny model of the services that hold, move, price and report money, with proofs about whole runs of them.
Check it with `dafny verify dfyconfig.toml`. Amounts are whole kobo (README.md:57 of the repository).

The services that work in stages are classes with the source's own fields and order of writes, and each of their
methods is proved equal to one step of a plain specification function. What the system promises is then proved about
those functions, for every input, every run, or every schedule.

| file | models |
|---|---|
| Ledger.dfy | the committed store, and each money operation as one indivisible step |
| Services.dfy | accounts and transactions services, query runner, failure path, hourly expiry job |
| Idempotency.dfy | the guard in front of transfers and withdrawals |
| History.dfy | whole runs from the empty store: replay, conservation, finality, idempotency |
| Requests.dfy | what each request does, column by column, and the same key sent twice |
| Interleaving.dfy, Serializability.dfy, Refusal.dfy | two movements whose database steps interleave, with no lock on reads |
| Freezing.dfy | freezing and unfreezing beside a movement, as one step and as two |
| Fees.dfy, FeeCache.dfy, FeeStaleness.dfy | choice and arithmetic of fee rules; the cache, atomically and with overlapping fetches |
| Money.dfy, Csv.dfy, Statements.dfy | printing of amounts, quoting and an RFC 4180 reader, account statements |
| StatementText.dfy | what the text of a statement says, read back |
| Wallets.dfy | tiers and the monthly limit over the Gregorian calendar |
| TransactionPin.dfy | the transaction PIN and its lockout |
| Pagination.dfy | transaction lists in pages |
| Outcomes.dfy, Seqs.dfy | optional values, results and errors; searching, filtering and summing |

How the surroundings enter: the clock - in microseconds as the database stores it, and floored to milliseconds where the
application reads it - generated identifiers and references, and the set of points at which the
database or a listener fails are parameters of each operation (`Ledger.Env`). Nothing is assumed of generated values;
a collision is refused by the unique columns, as in the database. A comparison of a PIN with its hash is an arbitrary
predicate.

## Where the code falls short of what is promised

Each of these is a theorem about the code as it is, with the condition under which the promise does hold.

- Statements put the reference between quotes without escaping it (src/statements/statements.service.ts:92), so a
  statement can be read back exactly when no reference holds a quote. A deposit's reference is supplied by its sender.
- Statements end at a whole millisecond (src/statements/statements.controller.ts:56) while the database stores creation
  times to the microsecond. A row of a day's last, unfinished millisecond is in no statement of one day, and statements
  over adjacent days add up to the one over both exactly when no listed row was created between them.
- The monthly reset waits for an instant after the reset date (`>`, src/wallets/wallets.service.ts:71). Limits hold
  from just after a month's first instant to the next month's first instant. Over the calendar month, while the tier
  stays, the limit is kept exactly when the reset date is not the month's first instant or the counter was used up
  before it; otherwise it can be exceeded by what is spent at that instant, up to twice the limit.
- A rule change invalidates the cache and then waits for its write (src/fees/fees.service.ts:119-121, 125-126). A query
  already in flight, or one made meanwhile, can put the old rules back. A change takes effect at once exactly when, as it
  is written, no other rules are cached and live and no query already answered with other rules can still arrive; the
  same holds of any state. Without the condition there is a bound on staleness, and the bound is attained.
- Seeding the default rules does not invalidate at all (src/fees/fees.service.ts:138-182). What is served stays current
  exactly when seeding does nothing or no cached rules are live.
- With equal priorities the order in which the database lists the rules can decide the rule and the fee
  (src/fees/fees.service.ts:51). The rule cannot depend on it exactly when the best matching rule is unique; the fee
  cannot exactly when all best matching rules charge the same.
- A page takes at most 100 rows but is counted by the requested limit (src/transactions/transactions.service.ts:70, 298),
  so pages of more than 100 leave gaps unless the whole list is that short.
- A failed operation is not always recorded for audit (README.md:51). It is recorded exactly when the checks before the
  database transaction pass and the transaction begins, something then breaks down or the payer is not active or cannot
  pay, no row has taken the reference or identifier, and both the rollback and the second save work.
- If COMMIT takes effect but its reply is lost, the `catch` block runs over money that has moved
  (src/transactions/transactions.service.ts:131, 151-156). Log and balances still agree exactly when the rollback or the
  second save fails; otherwise the row of the moved money becomes FAILED.
- One UUID may be spelt in two letter cases: the guard's check of its form ignores case, its lookup does not
  (src/common/guards/idempotency.guard.ts:29, 35). Each spelling is refused exactly when that very spelling was used; a
  UUID used in one spelling is refused in all of them exactly when it has no letter.
- Balances are read without a lock (src/accounts/accounts.service.ts:84-86), so of two movements that share an account
  one can be lost, even when the account can afford only one of them: its balance can be paid out twice. Every
  schedule ends as one after the other would exactly when no account is shared or one of them would be refused alone.
- A movement saves the whole account it read, so it can undo a freeze; a freeze or unfreeze
  (src/accounts/accounts.service.ts:63-76) saves the whole account it read, so it can undo a movement. A freeze is undone
  exactly when it falls between the movement's read and write of that account. Balances and log still agree after a
  freeze or unfreeze exactly when it does not span the commit of a movement of that account's money.

## Model

| member | source | states |
|---|---|---|
| Services.TransactionsService.Transfer | src/transactions/transactions.service.ts:73-175 | the staged transfer - insert PENDING, debit, credit, mark, commit, or roll back and store FAILED - leaves exactly the store and reply of one indivisible `TransferStep`, wherever it fails, charging the fee the rules served at that time give |
| Services.TransactionsService.Deposit | src/transactions/transactions.service.ts:177-226 | the staged deposit is one `DepositStep`, wherever it fails |
| Services.TransactionsService.Withdraw | src/transactions/transactions.service.ts:228-282 | the staged withdrawal is one `WithdrawStep`, wherever it fails |
| Services.TransactionsService.Recover | src/transactions/transactions.service.ts:151-171 | what the catch block leaves and reports: after the commit it only fails to roll back; otherwise the failed row is saved with its reason unless rollback or save fail |
| Services.FailedRowIsSettled | src/transactions/transactions.service.ts:153-156 | re-saving the rolled-back entity inserts it under its identifier, and collides again exactly when its reference or identifier is taken |
| Services.RecoverySettles | src/transactions/transactions.service.ts:151-171 | whatever a failed attempt left behind, the catch block turns it into the store and error of the indivisible step |
| Services.AccountsService.DebitAccount | src/accounts/accounts.service.ts:79-97 | on the staged store balance and ledger balance both fall by the amount, or the first applicable refusal is thrown and nothing is staged |
| Services.AccountsService.CreditAccount | src/accounts/accounts.service.ts:99-111 | on the staged store balance and ledger balance both rise by the amount; no status is consulted |
| Services.AccountsService.Create | src/accounts/accounts.service.ts:33-44 | the store gains exactly one account with this owner, number and currency, active and empty, unless the number is taken; then nothing changes |
| Services.AccountsService.Freeze | src/accounts/accounts.service.ts:63-70 | it succeeds if and only if the account exists, is the caller's and is not frozen; then only its status changes, and each other case has its refusal |
| Services.AccountsService.Unfreeze | src/accounts/accounts.service.ts:72-76 | any existing account becomes active whoever asks, nothing else changes |
| Ledger.FreezingIs | src/accounts/accounts.service.ts:50-70 | the same of the step that runs are made of: who can freeze, what it leaves, and each refusal |
| Ledger.UnfreezingIs | src/accounts/accounts.service.ts:72-76 | the same of unfreezing |
| Ledger.CreatingIs | src/accounts/accounts.service.ts:33-44 | the same of creating an account |
| Services.SchedulerService.ExpireStuckTransactions | src/admin/scheduler.service.ts:28-36 | row by row: a PENDING row created before the cutoff becomes FAILED as timed out, every other row is the same |
| Ledger.ExpiryIsExact | src/admin/scheduler.service.ts:28-36 | a row changes if and only if it is PENDING and older than half an hour, and then only in status and reason |
| Ledger.TransferIsAllOrNothing | README.md:51 | a transfer moves amount and fee from the sender and the amount to the receiver, with one COMPLETED row, if and only if the stated conditions hold; otherwise no balance changes and at most one FAILED row appears |
| Ledger.DepositIsAllOrNothing | src/transactions/transactions.service.ts:177-226 | the same for deposits: credited if and only if account, surroundings and reference allow |
| Ledger.WithdrawalIsAllOrNothing | src/transactions/transactions.service.ts:228-282 | the same for withdrawals |
| Ledger.FailureIsRecordedIff | src/transactions/transactions.service.ts:124-171 | any movement leaves a FAILED row if and only if it fails inside the `try`, rollback and second save work and no row collides; the row holds the reason reported |
| Ledger.TransferFailureIsRecordedIff | README.md:51 | a transfer, from its first check on, leaves a FAILED row if and only if its parties are acceptable, the transaction begins, something breaks down or the sender is not active or cannot pay, it can be stored and nothing collides |
| Ledger.DepositFailureIsRecordedIff | src/transactions/transactions.service.ts:177-226 | the same for deposits, which only a breakdown makes fail inside the `try` |
| Ledger.WithdrawalFailureIsRecordedIff | src/transactions/transactions.service.ts:228-282 | the same for withdrawals |
| Ledger.CollisionChangesNothing | src/transactions/entities/transaction.entity.ts:34-35 | an operation under a used reference leaves the whole store unchanged and is refused |
| Requests.TransferWrites | src/transactions/transactions.service.ts:100-111 | every column of the row a transfer leaves, completed or failed: reference, type, amount, fee, currency, description, both parties, idempotency key, reason and time |
| Requests.DepositWrites | src/transactions/transactions.service.ts:183-192 | every column of the row a deposit leaves |
| Requests.WithdrawalWrites | src/transactions/transactions.service.ts:238-248 | every column of the row a withdrawal leaves |
| Requests.TransferReplies | src/transactions/transactions.service.ts:78-94 | which refusal a transfer meets, in the order the reasons are looked for, and that nothing else refuses it when nothing fails |
| Requests.DepositReplies | src/transactions/transactions.service.ts:178-215 | the same for deposits |
| Requests.WithdrawalReplies | src/transactions/transactions.service.ts:233-271 | the same for withdrawals |
| Requests.FirstReasonDecides | src/accounts/accounts.service.ts:84-107 | inside its database transaction a movement fails if and only if one of ten listed reasons applies, and for the first that does |
| Requests.FailureReplies | src/transactions/transactions.service.ts:151-171 | what the caller of a failed movement is told, for every combination of failures in the catch block |
| Requests.TransferIsServedIff | src/transactions/dto/transaction.dto.ts:24-31 | a transfer request moves money if and only if its key is unused, its amount is at least 1.00 and everything else holds; its row carries the UUID it was sent under |
| Requests.WithdrawalIsServedIff | src/transactions/transactions.service.ts:228-282 | the same for withdrawal requests of a positive amount |
| Requests.DepositIsServedIff | src/transactions/transactions.service.ts:177-226 | the same for deposits, which carry no key |
| Requests.AccountRequests | src/accounts/accounts.service.ts:33-76 | what the requests to create, freeze and unfreeze leave of accounts and log in a run |
| Requests.ExpiryRequest | src/admin/scheduler.service.ts:28-36 | what the hourly job does to accounts and log in a run, row by row |
| History.BalancesReplayTheLog | src/accounts/accounts.service.ts:79-111 | after every run each balance is the fold of the COMPLETED rows, equals the ledger balance and is not negative |
| History.MoneyIsConserved | src/transactions/transactions.service.ts:84-131 | after every run the balances in a currency sum to its deposits less its withdrawals less its transfer fees |
| History.LostCommitReplyIsHarmlessIff | src/transactions/transactions.service.ts:131-156 | when a commit takes effect but its reply is lost, the invariant survives the catch block if and only if rollback or second save fails; otherwise moved money is left under a FAILED row |
| History.SpreadByRows | src/transactions/transactions.service.ts:124-131 | the exchange of sums: effects added account by account equal effects added row by row, where transfers cancel down to their fees |
| History.ExecKeepsSound | src/transactions/transactions.service.ts:84-131 | every request and job, failing or not, keeps the invariant: balances replay, rows are finished, well-formed and distinct, account numbers are distinct |
| History.ExpiryFindsNothing | src/admin/scheduler.service.ts:28-36 | with no PENDING row in the committed store the expiry job changes nothing |
| History.RowsAreFinal | src/transactions/entities/transaction.entity.ts:34-35 | over every run no PENDING row is ever committed, references are unique, and no row is ever changed or removed later, expiry job included |
| History.DepositIsIdempotent | src/transactions/transactions.service.ts:183-225 | once a reference is in the log, repeating a deposit under it at any later time changes nothing at all |
| Idempotency.IdempotencyGuard.CanActivate | src/common/guards/idempotency.guard.ts:22-50 | the request is refused, or let through with or without its key stored, exactly as `GuardStep` says |
| Idempotency.FindRecent | src/common/guards/idempotency.guard.ts:32-37 | a row is found exactly when one carries the key and is younger than the cutoff |
| Idempotency.GuardAnswers | src/common/guards/idempotency.guard.ts:22-50 | refused exactly when the first key sent is a UUID and a row of the last 24 hours carries it, naming that row; otherwise the key is passed on if it is a UUID |
| Idempotency.UuidsAreFiveGroups | src/common/guards/idempotency.guard.ts:28-30 | the accepted form is five groups of 8, 4, 4, 4 and 12 hexadecimal digits joined by hyphens |
| Idempotency.KeySent | src/common/guards/idempotency.guard.ts:24-26 | an absent or empty header is no key, and of several the first counts |
| Idempotency.EverySpellingIsRefusedIff | src/common/guards/idempotency.guard.ts:28-35 | a UUID is refused in every letter case if and only if it was used within 24 hours in every one; used in a single one, if and only if it has no letter |
| History.KeysAreSpaced | src/common/guards/idempotency.guard.ts:28-49 | over every run any two rows under one key, spelt alike, COMPLETED or FAILED, are at least 24 hours apart |
| History.RepeatedKeyChangesNothing | README.md:55 | a request repeated under a UUID key within 24 hours of a row it produced leaves the store as it was, whatever happened meanwhile |
| Requests.SecondRequestChangesNothing | README.md:55 | over every run: once a transfer or withdrawal sent under a UUID left a row, any sent under it less than 24 hours later changes nothing, whatever happened meanwhile |
| Interleaving.SoloIsSettle | src/transactions/transactions.service.ts:124-156 | the step machine of one movement, run alone, ends in the ledger's indivisible step |
| Serializability.NothingHalfDoneIsVisible | README.md:51 | at every moment of every schedule of two movements on disjoint accounts the committed store is that of some of them having run whole, one after the other |
| Serializability.NoDirtyWrites | src/transactions/transactions.service.ts:96-98 | in no schedule do two movements hold uncommitted writes of one account |
| Serializability.DisjointSchedulesAreSerial | src/accounts/accounts.service.ts:84-96 | every complete schedule of movements on disjoint accounts ends with the balances and rows of either serial order |
| Serializability.OrderIsImmaterial | src/transactions/transactions.service.ts:124-131 | movements that succeed in both serial orders, accounts shared or not, end with the same balances and rows |
| Serializability.UpdatesCanBeLost | src/accounts/accounts.service.ts:84-96 | for any two movements that share an account and would each succeed there is a schedule in which both end COMPLETED but the balance shows only one; no serial order ends so, and a log the balances replayed they no longer do |
| Serializability.SerializableIffDisjoint | src/accounts/accounts.service.ts:84-96 | for movements that would each succeed, all schedules end with the balances and rows of some serial order if and only if no account is shared, whether or not both fit |
| Refusal.SerializableIff | src/accounts/accounts.service.ts:84-96 | for any two movements, every complete schedule ends with the balances and rows of some serial order if and only if they share no account or one of them would be refused on its own |
| Refusal.RefusedIsSerial | src/accounts/accounts.service.ts:84-96 | beside a movement refused on its own, accounts shared or not, every complete schedule ends as some serial order, the one where it is refused or the one where it runs second |
| Serializability.BalanceCanBeSpentTwice | src/accounts/accounts.service.ts:84-96 | any two payments of an account's whole balance can both end COMPLETED, leaving 0, though after either the other is refused |
| Serializability.HundredPaidTwice | src/accounts/accounts.service.ts:84-96 | the instance: one account holding 100, two withdrawals of 100, both COMPLETED |
| Freezing.FreezeIsUndoneIff | src/accounts/accounts.service.ts:63-96 | for every movement that would succeed, every moment before it finishes and every account it has not written: a freeze accepted then is undone at the end if and only if the movement is between reading and writing that account |
| Freezing.FreezeCanBeUndone | src/accounts/accounts.service.ts:63-96 | every movement that would succeed has such a moment, though run after the freeze it keeps it |
| Freezing.LateSaveIsHarmlessIff | src/accounts/accounts.service.ts:63-76 | a freeze or unfreeze that reads and saves at any two moments beside a movement leaves balances replaying the log if and only if it does not span the commit of a movement of that account |
| Freezing.LateSaveKeepsReplayIff | src/accounts/accounts.service.ts:63-76 | every schedule of the two is harmless if and only if the movement does not touch the account, or the freeze is refused |
| Freezing.SavedAtOnce | src/accounts/accounts.service.ts:63-76 | read and saved at one moment, the two steps are the freeze or unfreeze of one |
| Fees.SortIsStable | src/fees/fees.service.ts:51 | the sort is by descending priority, keeps exactly the same rules, and keeps the order among equal priorities |
| Fees.ChoiceIsFirstBest | src/fees/fees.service.ts:39-66 | filter, filter, sort, take the head finds the first matching rule of greatest priority, and none exactly when none matches |
| Fees.ChoiceByColumns | src/fees/fees.service.ts:40-66 | the same with the columns written out: active, of the transaction's type, minimum amount at most and maximum zero or at least the amount; none exactly when no rule is such |
| Fees.FeeIs | src/fees/fees.service.ts:53-84 | what is charged: zero without a rule; else kobo or the percentage to the nearest kobo, raised to the minimum, lowered to the cap, and unchanged where neither applies |
| Fees.ChoiceIgnoresOrderIffBestIsUnique | src/fees/fees.service.ts:39-66 | the choice is the same for every ordering of the rules if and only if the best matching rule is unique |
| Fees.FeeIgnoresOrderIff | src/fees/fees.service.ts:39-84 | the fee is the same for every ordering of the rules if and only if all best matching rules charge the same |
| Fees.QueryKeepsChoice | src/fees/fees.service.ts:102-111 | choosing among the queried active rules is choosing among the whole table |
| Fees.RoundingError | src/fees/fees.service.ts:73 | an unclamped percentage fee is within half a kobo of the exact one, halves rounded up |
| Fees.FeeIsMonotoneAndBounded | src/fees/fees.service.ts:66-84 | fees are not negative and grow with the amount; the cap is never exceeded; the minimum is reached unless the cap is lower, and then the fee is the cap |
| Fees.SplittingBound | src/fees/fees.service.ts:69-84 | splitting an amount into n parts saves at most what rounding n parts just under half a kobo loses, never more than n / 2 kobo, through rounding, minimum and cap |
| Fees.SplittingBoundIsSharp | src/fees/fees.service.ts:69-84 | for every n some n payments save exactly that, and for n up to half a million it is n / 2 |
| FeeCache.FeesService.GetActiveRules | src/fees/fees.service.ts:102-111 | live cached rules are returned and kept; otherwise the table is queried and cached for five minutes |
| FeeCache.CacheLastsFiveMinutes | src/fees/fees.service.ts:102-116 | rules fetched are served for exactly 300,000 ms whatever becomes of the table, and after an invalidation the table is |
| FeeCache.FeesService.Calculate | src/fees/fees.service.ts:33-100 | the refined-in-steps fee is that of the chosen rule among the rules served now, and the cached sequence keeps its order |
| FeeCache.FeesService.Upsert | src/fees/fees.service.ts:118-122 | the cache is empty, and the named rule keeps the columns not given, or a rule with column defaults is inserted, or the primary key refuses it |
| FeeCache.UpsertStores | src/fees/fees.service.ts:118-122 | column by column: what is given is stored, what is not is kept or gets its default, every other rule stays, and a taken identifier is refused |
| FeeCache.FeesService.Deactivate | src/fees/fees.service.ts:124-127 | row by row: the rule so identified is disabled, every other is the same, and the cache is empty |
| FeeCache.FeesService.SeedDefaults | src/fees/fees.service.ts:138-182 | the defaults fill an empty table and nothing else changes, the cache included |
| FeeCache.CacheIsInvisible | src/fees/fees.service.ts:102-127 | over every run of atomic calculations, upserts and deactivations at any times, each answer equals the one computed from the table |
| FeeCache.RunsWrite | src/fees/fees.service.ts:113-127 | what each operation of such a run does to table and cache, row by row |
| FeeCache.DeactivatedRuleIsGone | src/fees/fees.service.ts:124-127 | after a deactivation every choice is as if the rule were not in the table |
| FeeCache.StoredRuleDecides | src/fees/fees.service.ts:118-122 | a stored rule that outranks every other match decides the next choice |
| FeeCache.SeedingStaysCurrentIff | src/fees/fees.service.ts:138-182 | after seeding the served rules are current if and only if it did nothing or no cached rules are live |
| FeeCache.DefaultFees | src/fees/fees.service.ts:142-179 | what the default rules charge for every amount: 1.5% between 10.00 and 500.00 on transfers, 25.00 on withdrawals, nothing on deposits |
| FeeCache.SeedingCanLeaveTransfersFree | src/fees/fees.service.ts:138-151 | rules cached from the empty table keep transfers free for five minutes after seeding, though a fee is due |
| FeeStaleness.StalenessIsBounded | src/fees/fees.service.ts:102-127 | in every interleaving of fetches of length at most D, invalidations and writes, the rules used at t were the active rules at a moment later than t - (TTL + D) and not after t |
| FeeStaleness.ServesTheTableIff | src/fees/fees.service.ts:102-127 | from any state, every continuation without a write uses only the current active rules if and only if the live cache and every answer that can still arrive hold them |
| FeeStaleness.ChangeTakesEffectIff | src/fees/fees.service.ts:118-127 | whatever happens between invalidation and write, the change takes effect at once if and only if, at the write, no other rules are cached and live and no query answered with other rules can still arrive |
| FeeStaleness.CacheCanRefillBeforeTheWrite | src/fees/fees.service.ts:119-121 | a query made while the write is awaited leaves the old rules cached with nothing in flight, and the change is not seen unless it changed nothing |
| FeeStaleness.QuietChangeTakesEffect | src/fees/fees.service.ts:113-127 | with no query in flight and none made meanwhile, a change takes effect at once, whatever was cached |
| FeeStaleness.InvalidationCanBeUndone | src/fees/fees.service.ts:113-127 | for every D a fetch in flight during a rule change brings the old rules back and attains that bound; what is used is outdated exactly when the change changed the active rules |
| Statements.StatementReadsBackIff | src/statements/statements.service.ts:78-112 | reading a printed statement recovers exactly its rows, for arbitrary descriptions, if and only if no date or reference holds a quote; their number is then the footer's count |
| Statements.DownloadReadsBackIff | src/statements/statements.service.ts:34-76 | the statement an owner downloads can be read back if and only if no listed reference holds a quote |
| StatementText.DownloadStates | src/statements/statements.service.ts:34-112 | the owner, and no one else, gets a text whose records are the labelled header, one record for each completed row of the account in the interval with every column, and the labelled totals of those rows |
| StatementText.TextStates | src/statements/statements.service.ts:78-112 | the printed text of any transactions says, read back, exactly their columns, their account's number, currency and balance, and their credits, debits, fees and number |
| StatementText.PrintedStatementReconciles | src/statements/statements.service.ts:79-111 | over a full history the printed balance is the printed credits less the printed debits less the printed fees, but for the fees of incoming transfers |
| Statements.QuoteInReferenceIsLost | src/statements/statements.service.ts:92 | one concrete row whose reference holds a quote is not read back |
| Csv.UnescapedReadsBackIff | src/statements/statements.service.ts:91-93 | a field printed between quotes without escaping is read back if and only if it holds no quote |
| Csv.EscapedReadsBack | src/statements/statements.service.ts:93 | doubling the quotes of any text is undone by reading it (section 2 of RFC 4180) |
| Statements.PrintedTotals | src/statements/statements.service.ts:58-70 | the totals re-read from the printed columns are the sums over the transactions, fees split into incoming and outgoing |
| Statements.StatementReconciles | src/statements/statements.service.ts:103-109 | over a full history the balance is credits less debits less the fees of the debit rows, and the printed total of fees exceeds those by exactly the fees of incoming transfers |
| Statements.AdjacentStatementsAdd | src/statements/statements.service.ts:48-56 | over every timed run, two statements and the rows created between them make up the one over both, in order, totals included; the two suffice if and only if no listed row was created between, and otherwise list strictly fewer |
| Statements.SomeDayListsIff | src/statements/statements.controller.ts:54-56 | a row is in the statement of some single day if and only if it was not created after the last whole millisecond of its day |
| Statements.StatementsAreInOrder | src/statements/statements.service.ts:55 | over every timed run a statement lists its rows in order of creation |
| Money.PrintParses | src/statements/statements.service.ts:65-67 | reading a printed amount gives the amount, and it is printed with digits, sign and point only |
| Money.PrintedIsDecimal | src/statements/statements.service.ts:65-67 | a printed amount has no needless zero in front and two digits after the point, and without the point its digits are the kobo |
| Wallets.WalletsService.ValidateSpendLimit | src/wallets/wallets.service.ts:57-84 | which refusal is thrown, and that the only effect, even when refused for the month, is a reset counter and the next month's first instant as reset date |
| Wallets.SpendIsAcceptedIff | src/wallets/wallets.service.ts:61-83 | a spend is accepted if and only if it is within the single limit and fits in what is left of the month, started afresh if the reset date has passed; each refusal, and what it leaves |
| Wallets.EventsInFigures | src/wallets/wallets.service.ts:57-104 | what a spend, accepted or refused, and a change of tier leave of a wallet |
| Wallets.WalletsService.RecordSpend | src/wallets/wallets.service.ts:86-92 | the wallet's counter grows by the amount; an unknown wallet changes nothing |
| Wallets.WalletsService.UpgradeTier | src/wallets/wallets.service.ts:94-104 | the account's wallet gets the tier and its three limits and keeps what was spent |
| Wallets.TiersInFigures | src/wallets/wallets.service.ts:11-30 | the three limits of each tier; an upgrade touches only them and the tier, and a new wallet has those of BASIC |
| Wallets.NextMonthByDate | src/wallets/wallets.service.ts:73-77 | for every year, month, day and time the reset date is the first instant of the next month of the Gregorian calendar |
| Wallets.YearStarts | src/wallets/wallets.service.ts:73-77 | years begin where the Gregorian rule of leap years, counted independently, puts them |
| Wallets.MonthlySpendIsLimited | src/wallets/wallets.service.ts:57-92 | over every timed run the accepted spends after a month's first instant, up to and including the next month's, total no more than the limit in force at the last of them, whatever the tier was meanwhile |
| Wallets.CalendarMonthIsLimitedButForItsFirstInstant | src/wallets/wallets.service.ts:69-81 | a calendar month exceeds the limit in force at its last spend, one dated within the month, by no more than what was spent at its very first instant |
| Wallets.CalendarMonthKeepsLimitIff | src/wallets/wallets.service.ts:57-92 | read off the wallet before the month: all sequences of spends within the calendar month keep the limit if and only if the reset date is not its first instant or the counter is used up |
| Wallets.WalletsBecomeReady | src/wallets/wallets.service.ts:57-104 | every wallet meets that condition's premises before a month, whatever was spent and however the tier changed earlier |
| Wallets.CalendarMonthCanReachTwiceTheLimit | src/wallets/wallets.service.ts:71 | in every month after the first a new wallet can spend twice its limit |
| TransactionPin.TransactionPinService.VerifyPin | src/transaction-pin/transaction-pin.service.ts:76-106 | which refusal is thrown in which order, and how the counters change: counted and locked on a wrong PIN, cleared on a right one, untouched otherwise |
| TransactionPin.TransactionPinService.ChangePin | src/transaction-pin/transaction-pin.service.ts:69-74 | the stored PIN changes only after a successful verification, and the counters end as verification left them |
| TransactionPin.VerificationIs | src/transaction-pin/transaction-pin.service.ts:76-134 | a PIN is accepted if and only if no lock is on and it matches the one stored; each refusal in figures, and what each answer leaves |
| TransactionPin.ChangedPinDecides | src/transaction-pin/transaction-pin.service.ts:69-74 | after an accepted change the new PIN, and only it, is accepted at any time, and no failed attempt is remembered |
| TransactionPin.ChangeIsVerified | src/transaction-pin/transaction-pin.service.ts:69-70 | a change is refused exactly as a verification of the current PIN would be, and then leaves the stored PIN |
| TransactionPin.SetPinDecides | src/transaction-pin/transaction-pin.service.ts:60-67 | a PIN that was set is the one accepted once no lock is on; an unknown user gets none |
| TransactionPin.LockoutLimitsGuesses | src/transaction-pin/transaction-pin.service.ts:117-134 | in any interval of length T without a success at most 3 + T / LOCKOUT_MS wrong PINs of a user are compared, from any state and whatever other users do |
| TransactionPin.LockoutLimitIsSharp | src/transaction-pin/transaction-pin.service.ts:127-134 | for every T some calls reach that number |
| TransactionPin.OthersAreUntouched | src/transaction-pin/transaction-pin.service.ts:127-138 | a call changes no other user's counters or PIN |
| Pagination.PagesCoverIff | src/transactions/transactions.service.ts:64-71 | all pages together are the list, once and in order, if and only if a page holds at most 100 rows or the list does; later pages are empty |
| Pagination.AccountPagesAreItsHistory | src/transactions/transactions.service.ts:284-301 | an owner paging through an account sees exactly the rows that touch it, newest first, if and only if a page holds at most 100 rows or the account does |
| Pagination.ListIsForTheOwner | src/transactions/transactions.service.ts:64-71 | a list is refused to all but the owner, each with its refusal, and says which page of how many it is |

## Left out

- Webhooks: their handlers look a reference up with a method that throws when it is absent, so they never reach the deposit.
- Floating point and decimal strings from the database driver: amounts are whole kobo, FLAT fees whole kobo, rates whole ten-thousandths of a percent, as the column scales allow.
- Isolation: whole runs are of indivisible operations; guard and handler, wallet check and record, and PIN comparison and count are each one step; Serializability.dfy alone lets two operations interleave.
- Interleaved movements under one reference or identifier: rows that compete for a unique column are not interleaved, and a schedule that waits for a lock forever is not complete.
- Identifiers: accounts are numbered in order of creation; transaction identifiers and references are whatever the surroundings supply.
- SendTransfer in runs carries any fee: what the fee rules give is the subject of Fees.dfy and of the contract of `Transfer`.
- CalendarMonthKeepsLimitIff: the tier does not change within the month; a month with changes of tier is bounded by the two theorems before it.
- LockoutLimitIsSharp: needs a user who has a PIN, no recorded failures and a clock that is not before 1970.
- StatementReadsBackIff: takes account number and generation time to be free of quotes, commas and line breaks, which the service generates as digits and an ISO date.
- Pages and limits are positive numbers; a page or limit that is zero, negative or not a number is passed on to the database.
- Upsert: name, transaction type, fee type and value are always given, as the request body requires.
- Time zones and daylight saving: months and days start at multiples of whole days, in one time zone.
- AtCommit in runs means that nothing was committed; a commit whose reply is lost is the subject of `LostCommitReplyIsHarmlessIff` alone.
- AtNotify stands for an error thrown synchronously after the commit. Every listener of the repository is asynchronous and its audit log swallows errors (src/notifications/notifications.service.ts:106-186, src/audit/audit.service.ts:29-52), so none is thrown today.
- Listings are in order of insertion, which is that of creation whenever the clock does not go back (`History.LogIsInOrder`); the database may order rows of one millisecond otherwise.
- The daily limit and the wallet's use in transfers: no service consults either.
- Authentication, roles, throttling, hashing and random numbers: library behaviour.
- KYC review, beneficiaries, audit logging, notifications, administration statistics, health and configuration: short checks, input and output.
- The fee breakdown text, the messages of exceptions and the names of downloaded files.
