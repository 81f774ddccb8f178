/**
  What the text of a statement says, read back as records and in the columns of the transactions it lists. Nothing
  here goes through the functions that print it.
 */
module StatementText {
  import opened Outcomes
  import opened Seqs
  import opened Ledger
  import opened History
  import opened Money
  import opened Csv
  import opened Statements

  predicate IsAmount(field: string, amount: int) {
    field != "" && Parse(field) == amount
  }

  predicate StatesHeader(records: seq<seq<string>>, account: Account, generated: string)
    requires |records| == 6
  {
    && records[0] == ["Account Number:", account.number]
    && records[1] == ["Currency:", match account.currency
                                   case NGN => "NGN" case USD => "USD" case GBP => "GBP" case EUR => "EUR"]
    && |records[2]| == 2 && records[2][0] == "Balance:" && IsAmount(records[2][1], account.balance)
    && records[3] == ["Generated:", generated] && records[4] == [""]
    && records[5] == ["Date", "Reference", "Description", "Type", "Credit", "Debit", "Fee", "Status"]
  }

  ghost predicate StatesRow(record: seq<string>, tx: Tx, id: AccountId, iso: Time -> string) {
    && |record| == 8 && record[0] == iso(tx.createdAt) && record[1] == tx.reference && record[2] == tx.description
    && record[3] == (match tx.txType
                     case Transfer => "transfer" case Deposit => "deposit" case Withdrawal => "withdrawal"
                     case Payment => "payment" case Reversal => "reversal")
    && (if tx.destination == Some(id) then IsAmount(record[4], tx.amount) && record[5] == ""
        else record[4] == "" && IsAmount(record[5], tx.amount))
    && IsAmount(record[6], tx.fee)
    && record[7] == (match tx.status
                     case Pending => "pending" case Processing => "processing" case Completed => "completed"
                     case FailedTx => "failed" case Reversed => "reversed")
  }

  predicate IsTotal(record: seq<string>, name: string, total: int) {
    |record| == 2 && record[0] == name && IsAmount(record[1], total)
  }

  ghost predicate StatesTotals(records: seq<seq<string>>, txs: seq<Tx>, id: AccountId)
    requires |records| == 5
  {
    && records[0] == [""]
    && IsTotal(records[1], "Total Credits:", Sum(txs, (tx: Tx) => if tx.destination == Some(id) then tx.amount else 0))
    && IsTotal(records[2], "Total Debits:", Sum(txs, (tx: Tx) => if tx.destination == Some(id) then 0 else tx.amount))
    && IsTotal(records[3], "Total Fees:", Sum(txs, (tx: Tx) => tx.fee))
    && |records[4]| == 2 && records[4][0] == "Transactions:" && Value(records[4][1]) == |txs|
  }

  /** Header, one record a transaction - or one blank one if there is none - and footer. */
  ghost predicate States(records: seq<seq<string>>, txs: seq<Tx>, id: AccountId, iso: Time -> string, account: Account,
                         generated: string) {
    var n := if txs == [] then 1 else |txs|;
    && |records| == 6 + n + 5 && StatesHeader(records[..6], account, generated)
    && (txs == [] ==> records[6] == [""])
    && (forall i :: 0 <= i < |txs| ==> StatesRow(records[6 + i], txs[i], id, iso))
    && StatesTotals(records[6 + n..], txs, id)
  }

  lemma {:induction false} AmountPrinted(kobo: int)
    ensures IsAmount(Print(kobo), kobo)
  {
    PrintParses(kobo);
  }

  lemma {:induction false} HeaderStates(account: Account, generated: string)
    ensures StatesHeader(HeaderRecords(account, generated), account, generated)
  {
    AmountPrinted(account.balance);
  }

  lemma {:induction false} RowStates(tx: Tx, id: AccountId, iso: Time -> string)
    ensures StatesRow(Fields(ToRow(tx, id, iso)), tx, id, iso)
  {
    AmountPrinted(tx.amount);
    AmountPrinted(tx.fee);
  }

  lemma {:induction false} AllFees(txs: seq<Tx>, id: AccountId)
    ensures Sum(txs, (tx: Tx) => tx.fee) == Sum(txs, FeeWhen(id, true)) + Sum(txs, FeeWhen(id, false))
  {
    if txs != [] {
      AllFees(txs[1..], id);
    }
  }

  lemma {:induction false} FooterStates(txs: seq<Tx>, id: AccountId, iso: Time -> string)
    ensures StatesTotals(FooterRecords(ToRows(txs, id, iso)), txs, id)
  {
    var rows := ToRows(txs, id, iso);
    PrintedTotals(txs, id, iso);
    SumSame(txs, CreditTo(id), (tx: Tx) => if tx.destination == Some(id) then tx.amount else 0);
    SumSame(txs, DebitFrom(id), (tx: Tx) => if tx.destination == Some(id) then 0 else tx.amount);
    AllFees(txs, id);
    AmountPrinted(TotalCredits(rows));
    AmountPrinted(TotalDebits(rows));
    AmountPrinted(TotalFees(rows));
    DigitsStandForNumber(|rows|);
  }

  lemma {:induction false} PartsState(h: seq<seq<string>>, b: seq<seq<string>>, f: seq<seq<string>>, txs: seq<Tx>,
                                      id: AccountId, iso: Time -> string, account: Account, generated: string)
    requires |h| == 6 && StatesHeader(h, account, generated) && |f| == 5 && StatesTotals(f, txs, id)
    requires if txs == [] then b == [[""]]
             else |b| == |txs| && forall i :: 0 <= i < |txs| ==> StatesRow(b[i], txs[i], id, iso)
    ensures States(h + (b + f), txs, id, iso, account, generated)
  {
    var records := h + (b + f);
    assert records[..6] == h && records[6 + |b|..] == f;
    forall i | 0 <= i < |txs| ensures StatesRow(records[6 + i], txs[i], id, iso) {
      assert records[6 + i] == b[i];
    }
  }

  /** The text printed for some transactions says all this of them and their account, and no more. */
  lemma {:induction false} TextStates(txs: seq<Tx>, id: AccountId, iso: Time -> string, account: Account,
                                      generated: string)
    requires PlainHeader(account, generated) && forall t :: NoQuote(iso(t))
    requires forall tx :: tx in txs ==> NoQuote(tx.reference)
    ensures var read := ReadRecords(ToCsv(ToRows(txs, id, iso), account, generated));
            read.Some? && States(read.value, txs, id, iso, account, generated)
  {
    var rows := ToRows(txs, id, iso);
    forall i | 0 <= i < |rows| ensures PlainColumns(rows[i]) && Unspoilt(rows[i]) {
      assert txs[i] in txs;
      GeneratedColumnsArePlain(txs[i], id, iso);
    }
    TextReads(rows, account, generated);
    HeaderStates(account, generated);
    FooterStates(txs, id, iso);
    var body := BodyRecords(rows);
    forall i | 0 <= i < |txs| ensures StatesRow(body[i], txs[i], id, iso) {
      RowStates(txs[i], id, iso);
      assert body[i] == Fields(rows[i]);
    }
    PartsState(HeaderRecords(account, generated), body, FooterRecords(rows), txs, id, iso, account, generated);
  }

  // ---- Downloads ----

  /** What the statement of an account over an interval is to list. */
  predicate Belongs(tx: Tx, id: AccountId, from: Time, to: Time) {
    && (tx.source == Some(id) || tx.destination == Some(id)) && tx.status == Completed
    && from <= tx.createdAt && tx.createdAt <= to
  }

  /** `listed` are the rows of the log that belong, each as often as in the log and in its order. */
  ghost predicate ListsWhatBelongs(rows: seq<Tx>, listed: seq<Tx>, id: AccountId, from: Time, to: Time)
    decreases |rows|
  {
    if rows == [] then listed == []
    else if Belongs(rows[0], id, from, to) then
      listed != [] && listed[0] == rows[0] && ListsWhatBelongs(rows[1..], listed[1..], id, from, to)
    else ListsWhatBelongs(rows[1..], listed, id, from, to)
  }

  lemma {:induction false} SelectLists(rows: seq<Tx>, id: AccountId, from: Time, to: Time)
    ensures ListsWhatBelongs(rows, Select(rows, id, from, to), id, from, to)
    decreases |rows|
  {
    if rows != [] {
      SelectLists(rows[1..], id, from, to);
      if Belongs(rows[0], id, from, to) {
        assert Select(rows, id, from, to)[1..] == Select(rows[1..], id, from, to);
      }
    }
  }

  /**
    A statement is given to the account's owner and refused to everyone else; it states the account as it is and
    every row of the log that belongs to it in the interval.
   */
  lemma {:induction false} DownloadStates(s: Store, id: AccountId, user: string, from: Time, to: Time,
                                          iso: Time -> string, generated: string) returns (listed: seq<Tx>)
    requires forall t :: NoQuote(iso(t))
    ensures ListsWhatBelongs(s.rows, listed, id, from, to)
    ensures var csv := GenerateCsv(s, id, user, from, to, iso, generated);
            && (csv.Ok? <==> id < |s.accounts| && s.accounts[id].owner == user)
            && (id >= |s.accounts| ==> csv == Err(AccountNotFound))
            && (id < |s.accounts| && s.accounts[id].owner != user ==> csv == Err(AccessDenied))
            && (csv.Ok? && PlainHeader(s.accounts[id], generated)
                && (forall tx :: tx in listed ==> NoQuote(tx.reference)) ==>
                  && ReadRecords(csv.value).Some?
                  && States(ReadRecords(csv.value).value, listed, id, iso, s.accounts[id], generated))
  {
    listed := Select(s.rows, id, from, to);
    SelectLists(s.rows, id, from, to);
    if GenerateCsv(s, id, user, from, to, iso, generated).Ok? && PlainHeader(s.accounts[id], generated) {
      if forall tx :: tx in listed ==> NoQuote(tx.reference) {
        TextStates(listed, id, iso, s.accounts[id], generated);
      }
    }
  }

  /**
    On the printed statement of a full history, after every run: the balance is the total credits less the total
    debits less the total fees, but for the fees of incoming transfers, which their senders paid.
   */
  lemma {:induction false} PrintedStatementReconciles(events: seq<Event>, id: AccountId, user: string, from: Time,
                                                      to: Time, iso: Time -> string, generated: string)
    requires forall t :: NoQuote(iso(t))
    requires forall tx :: tx in Run(EMPTY, events).rows ==> from <= tx.createdAt <= to && NoQuote(tx.reference)
    requires GenerateCsv(Run(EMPTY, events), id, user, from, to, iso, generated).Ok?
    requires PlainHeader(Run(EMPTY, events).accounts[id], generated)
    ensures var s := Run(EMPTY, events);
            var read := ReadRecords(GenerateCsv(s, id, user, from, to, iso, generated).value);
            && read.Some? && |read.value| >= 12
            && var n := |read.value|;
               && |read.value[2]| == |read.value[n - 4]| == |read.value[n - 3]| == |read.value[n - 2]| == 2
               && read.value[2][0] == "Balance:" && read.value[n - 4][0] == "Total Credits:"
               && read.value[n - 3][0] == "Total Debits:" && read.value[n - 2][0] == "Total Fees:"
               && Parse(read.value[2][1])
                  == Parse(read.value[n - 4][1]) - Parse(read.value[n - 3][1]) - Parse(read.value[n - 2][1])
                     + Sum(s.rows,
                           (tx: Tx) => if tx.status == Completed && tx.destination == Some(id) then tx.fee else 0)
  {
    var s := Run(EMPTY, events);
    var listed := Select(s.rows, id, from, to);
    TextStates(listed, id, iso, s.accounts[id], generated);
    StatementReconciles(events, id, from, to, iso);
    PrintedTotals(listed, id, iso);
    SumSame(listed, CreditTo(id), (tx: Tx) => if tx.destination == Some(id) then tx.amount else 0);
    SumSame(listed, DebitFrom(id), (tx: Tx) => if tx.destination == Some(id) then 0 else tx.amount);
    AllFees(listed, id);
    var incoming := (tx: Tx) => if tx.status == Completed && tx.destination == Some(id) then tx.fee else 0;
    SumSame(s.rows, incoming, (tx: Tx) => if tx.status == Completed && tx.destination == Some(id) then tx.fee else 0);
  }
}
