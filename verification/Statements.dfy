/** Account statements: what they list, how they are printed, how they are read back, and how they reconcile. */
module Statements {
  import opened Outcomes
  import opened Seqs
  import opened Ledger
  import opened History
  import opened Money
  import opened Csv

  datatype StatementRow = StatementRow(
    date: string, reference: string, description: string, kind: string, credit: string, debit: string, fee: string,
    status: string)

  function TypeName(t: TxType): string {
    match t
    case Transfer => "transfer"
    case Deposit => "deposit"
    case Withdrawal => "withdrawal"
    case Payment => "payment"
    case Reversal => "reversal"
  }

  function StatusName(s: TxStatus): string {
    match s
    case Pending => "pending"
    case Processing => "processing"
    case Completed => "completed"
    case FailedTx => "failed"
    case Reversed => "reversed"
  }

  function CurrencyName(c: Currency): string {
    match c
    case NGN => "NGN"
    case USD => "USD"
    case GBP => "GBP"
    case EUR => "EUR"
  }

  // ---- What a statement lists ----

  predicate Listed(tx: Tx, id: AccountId, from: Time, to: Time) {
    (tx.source == Some(id) || tx.destination == Some(id)) && tx.status == Completed && from <= tx.createdAt <= to
  }

  function Listing(id: AccountId, from: Time, to: Time): Tx -> bool {
    (tx: Tx) => Listed(tx, id, from, to)
  }

  /** The completed rows touching an account in a closed interval, in order of creation. */
  function Select(rows: seq<Tx>, id: AccountId, from: Time, to: Time): seq<Tx> {
    Filter(rows, Listing(id, from, to))
  }

  function ToRow(tx: Tx, id: AccountId, iso: Time -> string): StatementRow {
    var isCredit := tx.destination == Some(id);
    StatementRow(iso(tx.createdAt), tx.reference, tx.description, TypeName(tx.txType),
                 if isCredit then Print(tx.amount) else "", if isCredit then "" else Print(tx.amount),
                 Print(tx.fee), StatusName(tx.status))
  }

  function ToRows(txs: seq<Tx>, id: AccountId, iso: Time -> string): (rows: seq<StatementRow>)
    ensures |rows| == |txs| && forall i :: 0 <= i < |txs| ==> rows[i] == ToRow(txs[i], id, iso)
  {
    seq(|txs|, i requires 0 <= i < |txs| => ToRow(txs[i], id, iso))
  }

  /** `parseFloat(field || '0')`. */
  function Amount(field: string): int {
    Parse(if field == "" then "0" else field)
  }

  function TotalCredits(rows: seq<StatementRow>): int {
    Sum(rows, (r: StatementRow) => Amount(r.credit))
  }

  function TotalDebits(rows: seq<StatementRow>): int {
    Sum(rows, (r: StatementRow) => Amount(r.debit))
  }

  function TotalFees(rows: seq<StatementRow>): int {
    Sum(rows, (r: StatementRow) => Amount(r.fee))
  }

  // ---- How it is printed ----

  const COLUMNS := ["Date", "Reference", "Description", "Type", "Credit", "Debit", "Fee", "Status"]

  /** The header: four labelled values, a blank line and the column names. */
  function HeaderRecords(account: Account, generated: string): seq<seq<string>> {
    [ ["Account Number:", account.number], ["Currency:", CurrencyName(account.currency)],
      ["Balance:", Print(account.balance)], ["Generated:", generated], [""], COLUMNS ]
  }

  function FooterRecords(rows: seq<StatementRow>): seq<seq<string>> {
    [ [""], ["Total Credits:", Print(TotalCredits(rows))], ["Total Debits:", Print(TotalDebits(rows))],
      ["Total Fees:", Print(TotalFees(rows))], ["Transactions:", Digits(|rows|)] ]
  }

  function PlainLines(records: seq<seq<string>>): (lines: seq<string>)
    ensures |lines| == |records| && forall i :: 0 <= i < |lines| ==> lines[i] == Join(records[i], ",")
  {
    if records == [] then [] else [Join(records[0], ",")] + PlainLines(records[1..])
  }

  function Cells(r: StatementRow): seq<string> {
    [Raw(r.date), Raw(r.reference), Quoted(r.description), r.kind, r.credit, r.debit, r.fee, r.status]
  }

  function Lines(rows: seq<StatementRow>): (lines: seq<string>)
    ensures |lines| == |rows| && forall i :: 0 <= i < |rows| ==> lines[i] == Join(Cells(rows[i]), ",")
  {
    if rows == [] then [] else [Join(Cells(rows[0]), ",")] + Lines(rows[1..])
  }

  function ToCsv(rows: seq<StatementRow>, account: Account, generated: string): string {
    Join([Join(PlainLines(HeaderRecords(account, generated)), "\n"), Join(Lines(rows), "\n"),
          Join(PlainLines(FooterRecords(rows)), "\n")], "\n")
  }

  function GenerateCsv(s: Store, id: AccountId, user: string, from: Time, to: Time, iso: Time -> string,
                       generated: string): Result<string> {
    match FindOne(s, id, Some(user))
    case Err(e) => Err(e)
    case Ok(account) => Ok(ToCsv(ToRows(Select(s.rows, id, from, to), id, iso), account, generated))
  }

  // ---- How it is read back ----

  const HEADER := 6
  const FOOTER := 5

  function RowsOf(records: seq<seq<string>>): (r: Option<seq<StatementRow>>)
    ensures r.Some? ==> && |r.value| == |records|
                        && forall i :: 0 <= i < |records| ==> |records[i]| == 8 && Fields(r.value[i]) == records[i]
  {
    if records == [] then Some([])
    else if |records[0]| != 8 then None
    else
      var f := records[0];
      match RowsOf(records[1..])
      case None => None
      case Some(more) => Some([StatementRow(f[0], f[1], f[2], f[3], f[4], f[5], f[6], f[7])] + more)
  }

  function Fields(r: StatementRow): seq<string> {
    [r.date, r.reference, r.description, r.kind, r.credit, r.debit, r.fee, r.status]
  }

  /** The rows of a statement text: the records between header and footer; an empty body is one blank line. */
  function ReadStatement(text: string): Option<seq<StatementRow>> {
    BodyOf(ReadRecords(text))
  }

  function BodyOf(read: Option<seq<seq<string>>>): Option<seq<StatementRow>> {
    match read
    case None => None
    case Some(records) =>
      if |records| < HEADER + 1 + FOOTER then None
      else
        var body := records[HEADER..|records| - FOOTER];
        if body == [[""]] then Some([]) else RowsOf(body)
  }

  /** The number of transactions the footer of a statement text states. */
  function StatedCount(text: string): Option<nat> {
    CountOf(ReadRecords(text))
  }

  function CountOf(read: Option<seq<seq<string>>>): Option<nat> {
    match read
    case None => None
    case Some(records) =>
      if records == [] || |records[|records| - 1]| != 2 then None else Some(Value(records[|records| - 1][1]))
  }

  predicate PlainHeader(account: Account, generated: string) {
    Plain(account.number) && Plain(generated)
  }

  predicate PlainColumns(r: StatementRow) {
    Plain(r.kind) && Plain(r.credit) && Plain(r.debit) && Plain(r.fee) && Plain(r.status)
  }

  predicate Unspoilt(r: StatementRow) {
    NoQuote(r.date) && NoQuote(r.reference)
  }

  lemma {:induction false} PrintIsPlain(kobo: int)
    ensures Plain(Print(kobo))
  {
    PrintParses(kobo);
  }

  predicate PlainRecord(record: seq<string>) {
    record != [] && forall i :: 0 <= i < |record| ==> Plain(record[i])
  }

  lemma {:induction false} PlainLineReads(record: seq<string>)
    requires PlainRecord(record)
    ensures LineReads(Join(record, ","), record)
  {
    forall i | 0 <= i < |record| ensures CellReads(record[i], record[i]) {
      PlainCell(record[i]);
    }
    CellsMakeALine(record, record);
  }

  lemma {:induction false} PlainLinesRead(records: seq<seq<string>>)
    requires forall i :: 0 <= i < |records| ==> PlainRecord(records[i])
    ensures forall i :: 0 <= i < |records| ==> LineReads(PlainLines(records)[i], records[i])
  {
    forall i | 0 <= i < |records| ensures LineReads(PlainLines(records)[i], records[i]) {
      PlainLineReads(records[i]);
    }
  }

  lemma {:induction false} PlainPair(name: string, value: string)
    requires Plain(name) && Plain(value)
    ensures PlainRecord([name, value])
  {
  }

  lemma {:induction false} ColumnsArePlain()
    ensures PlainRecord(COLUMNS)
  {
    assert Plain("Date") && Plain("Reference") && Plain("Description") && Plain("Type");
    assert Plain("Credit") && Plain("Debit") && Plain("Fee") && Plain("Status");
  }

  lemma {:induction false} HeaderReads(account: Account, generated: string)
    requires PlainHeader(account, generated)
    ensures var records := HeaderRecords(account, generated);
            forall i :: 0 <= i < HEADER ==> LineReads(PlainLines(records)[i], records[i])
  {
    PlainPair("Account Number:", account.number);
    PlainPair("Currency:", CurrencyName(account.currency));
    PrintIsPlain(account.balance);
    PlainPair("Balance:", Print(account.balance));
    PlainPair("Generated:", generated);
    ColumnsArePlain();
    var records := HeaderRecords(account, generated);
    forall i | 0 <= i < |records| ensures PlainRecord(records[i]) {
      assert i == 0 || i == 1 || i == 2 || i == 3 || i == 4 || i == 5;
    }
    PlainLinesRead(records);
  }

  lemma {:induction false} TotalsArePlain(credits: int, debits: int, fees: int, count: nat)
    ensures PlainRecord(["Total Credits:", Print(credits)]) && PlainRecord(["Total Debits:", Print(debits)])
    ensures PlainRecord(["Total Fees:", Print(fees)]) && PlainRecord(["Transactions:", Digits(count)])
  {
    PrintIsPlain(credits);
    PlainPair("Total Credits:", Print(credits));
    PrintIsPlain(debits);
    PlainPair("Total Debits:", Print(debits));
    PrintIsPlain(fees);
    PlainPair("Total Fees:", Print(fees));
    PlainPair("Transactions:", Digits(count));
  }

  lemma {:induction false} FooterReads(rows: seq<StatementRow>)
    ensures var records := FooterRecords(rows);
            forall i :: 0 <= i < FOOTER ==> LineReads(PlainLines(records)[i], records[i])
  {
    TotalsArePlain(TotalCredits(rows), TotalDebits(rows), TotalFees(rows), |rows|);
    var records := FooterRecords(rows);
    forall i | 0 <= i < |records| ensures PlainRecord(records[i]) {
      assert i == 0 || i == 1 || i == 2 || i == 3 || i == 4;
    }
    PlainLinesRead(records);
  }

  lemma {:induction false} BlankReads()
    ensures LineReads("", [""])
  {
    PlainLineReads([""]);
  }

  lemma {:induction false} RowReads(r: StatementRow)
    requires PlainColumns(r) && Unspoilt(r)
    ensures LineReads(Join(Cells(r), ","), Fields(r))
  {
    RawCell(r.date);
    RawCell(r.reference);
    QuotedCell(r.description);
    PlainCell(r.kind);
    PlainCell(r.credit);
    PlainCell(r.debit);
    PlainCell(r.fee);
    PlainCell(r.status);
    CellsMakeALine(Cells(r), Fields(r));
  }

  function Records(rows: seq<StatementRow>): (records: seq<seq<string>>)
    ensures |records| == |rows| && forall i :: 0 <= i < |rows| ==> records[i] == Fields(rows[i])
    ensures RowsOf(records) == Some(rows)
  {
    if rows == [] then []
    else
      var records := [Fields(rows[0])] + Records(rows[1..]);
      assert records[1..] == Records(rows[1..]) && [rows[0]] + rows[1..] == rows;
      records
  }

  lemma {:induction false} TextIsThreeParts(rows: seq<StatementRow>, account: Account, generated: string)
    ensures ToCsv(rows, account, generated) == Join(PlainLines(HeaderRecords(account, generated)), "\n") + "\n"
              + (Join(Lines(rows), "\n") + "\n" + Join(PlainLines(FooterRecords(rows)), "\n"))
  {
    var h, b := Join(PlainLines(HeaderRecords(account, generated)), "\n"), Join(Lines(rows), "\n");
    var f := Join(PlainLines(FooterRecords(rows)), "\n");
    assert [h, b, f][1..] == [b, f] && [b, f][1..] == [f];
    assert Join([b, f], "\n") == b + "\n" + f;
    assert Join([h, b, f], "\n") == h + "\n" + Join([b, f], "\n");
  }

  lemma {:induction false} HeaderReadsFirst(rows: seq<StatementRow>, account: Account, generated: string)
    requires PlainHeader(account, generated)
    ensures ReadRecords(ToCsv(rows, account, generated))
            == Before(HeaderRecords(account, generated),
                      ReadRecords(Join(Lines(rows), "\n") + "\n" + Join(PlainLines(FooterRecords(rows)), "\n")))
  {
    TextIsThreeParts(rows, account, generated);
    HeaderReads(account, generated);
    var header := HeaderRecords(account, generated);
    var footer := Join(PlainLines(FooterRecords(rows)), "\n");
    LinesThenText(PlainLines(header), header, Join(Lines(rows), "\n") + "\n" + footer);
  }

  function BodyRecords(rows: seq<StatementRow>): seq<seq<string>> {
    if rows == [] then [[""]] else Records(rows)
  }

  lemma {:induction false} TextReads(rows: seq<StatementRow>, account: Account, generated: string)
    requires PlainHeader(account, generated)
    requires forall i :: 0 <= i < |rows| ==> PlainColumns(rows[i]) && Unspoilt(rows[i])
    ensures ReadRecords(ToCsv(rows, account, generated))
            == Some(HeaderRecords(account, generated) + (BodyRecords(rows) + FooterRecords(rows)))
  {
    var footer := Join(PlainLines(FooterRecords(rows)), "\n");
    HeaderReadsFirst(rows, account, generated);
    FooterReads(rows);
    LinesReadBack(PlainLines(FooterRecords(rows)), FooterRecords(rows));
    if rows == [] {
      BlankReads();
      LineThenText("", [""], footer);
    } else {
      forall i | 0 <= i < |rows| ensures LineReads(Lines(rows)[i], Records(rows)[i]) {
        RowReads(rows[i]);
      }
      LinesThenText(Lines(rows), Records(rows), footer);
    }
  }

  lemma {:induction false} PartsOf(header: seq<seq<string>>, body: seq<seq<string>>, footer: seq<seq<string>>)
    requires |header| == HEADER && body != [] && |footer| == FOOTER && |footer[FOOTER - 1]| == 2
    ensures BodyOf(Some(header + (body + footer))) == if body == [[""]] then Some([]) else RowsOf(body)
    ensures CountOf(Some(header + (body + footer))) == Some(Value(footer[FOOTER - 1][1]))
  {
    var all := header + (body + footer);
    assert all[HEADER..|all| - FOOTER] == body;
    assert all[|all| - 1] == footer[FOOTER - 1];
  }

  lemma {:induction false} BodyRecordsAreTheRows(rows: seq<StatementRow>)
    ensures var body := BodyRecords(rows);
            body != [] && (if body == [[""]] then Some([]) else RowsOf(body)) == Some(rows)
  {
    if rows != [] {
      assert |BodyRecords(rows)[0]| == 8;
    }
  }

  lemma {:induction false} CleanStatementReadsBack(rows: seq<StatementRow>, account: Account, generated: string)
    requires PlainHeader(account, generated)
    requires forall i :: 0 <= i < |rows| ==> PlainColumns(rows[i]) && Unspoilt(rows[i])
    ensures ReadStatement(ToCsv(rows, account, generated)) == Some(rows)
    ensures StatedCount(ToCsv(rows, account, generated)) == Some(|rows|)
  {
    TextReads(rows, account, generated);
    PartsOf(HeaderRecords(account, generated), BodyRecords(rows), FooterRecords(rows));
    BodyRecordsAreTheRows(rows);
    DigitsStandForNumber(|rows|);
  }

  // ---- A quote in a reference ----

  /** A row spoilt by a quote is read back differently, or not at all. */
  lemma {:induction false} SpoiltRow(r: StatementRow, text: string)
    requires !Unspoilt(r)
    ensures var read := ReadRecords(Join(Cells(r), ",") + text);
            read.Some? ==> read.value != [] && read.value[0] != Fields(r)
  {
    if NoQuote(r.date) {
      RawCell(r.date);
      SpoiltCell(Cells(r), Fields(r), 1, text);
    } else {
      SpoiltCell(Cells(r), Fields(r), 0, text);
    }
  }

  /** Up to a row, the body of a statement is read back; then comes that row's line. */
  lemma {:induction false} BodyReadsUpTo(rows: seq<StatementRow>, k: nat, footer: string) returns (text: string)
    requires k < |rows| && forall i :: 0 <= i < k ==> PlainColumns(rows[i]) && Unspoilt(rows[i])
    ensures ReadRecords(Join(Lines(rows), "\n") + "\n" + footer)
            == Before(Records(rows)[..k], ReadRecords(Join(Cells(rows[k]), ",") + text))
  {
    var lines := Lines(rows);
    text := SplitAt(lines, k, footer);
    if k > 0 {
      forall i | 0 <= i < k ensures LineReads(lines[..k][i], Records(rows)[..k][i]) {
        RowReads(rows[i]);
      }
      LinesThenText(lines[..k], Records(rows)[..k], lines[k] + text);
    } else if ReadRecords(lines[0] + text).Some? {
      assert [] + ReadRecords(lines[0] + text).value == ReadRecords(lines[0] + text).value;
    }
  }

  /** If the record in a row's place is not that row's, what is read is not the rows. */
  lemma {:induction false} OtherRecordOtherRows(rows: seq<StatementRow>, k: nat, header: seq<seq<string>>,
                                                      rest: Option<seq<seq<string>>>)
    requires k < |rows| && |header| == HEADER
    requires rest.Some? ==> rest.value != [] && rest.value[0] != Fields(rows[k])
    ensures BodyOf(Before(header, Before(Records(rows)[..k], rest))) != Some(rows)
  {
    if rest.Some? {
      var records := header + (Records(rows)[..k] + rest.value);
      assert records[HEADER + k] == rest.value[0];
      if |records| >= HEADER + 1 + FOOTER {
        var body := records[HEADER..|records| - FOOTER];
        assert k < |body| ==> body[k] == rest.value[0];
      }
    }
  }

  /** One spoilt row spoils the statement that contains it. */
  lemma {:induction false} SpoiltStatement(rows: seq<StatementRow>, account: Account, generated: string, k: nat)
    requires PlainHeader(account, generated) && k < |rows| && !Unspoilt(rows[k])
    requires forall i :: 0 <= i < |rows| ==> PlainColumns(rows[i])
    requires forall i :: 0 <= i < k ==> Unspoilt(rows[i])
    ensures ReadStatement(ToCsv(rows, account, generated)) != Some(rows)
  {
    var footer := Join(PlainLines(FooterRecords(rows)), "\n");
    HeaderReadsFirst(rows, account, generated);
    var text := BodyReadsUpTo(rows, k, footer);
    SpoiltRow(rows[k], text);
    OtherRecordOtherRows(rows, k, HeaderRecords(account, generated), ReadRecords(Join(Cells(rows[k]), ",") + text));
  }

  /** The lines from the k-th on: that line, and what follows it. */
  lemma {:induction false} SplitAt(lines: seq<string>, k: nat, footer: string) returns (text: string)
    requires k < |lines|
    ensures k == 0 ==> Join(lines, "\n") + "\n" + footer == lines[0] + text
    ensures k > 0 ==> Join(lines, "\n") + "\n" + footer == Join(lines[..k], "\n") + "\n" + (lines[k] + text)
  {
    text := if k == |lines| - 1 then "\n" + footer else "\n" + Join(lines[k + 1..], "\n") + "\n" + footer;
    assert lines[k..][1..] == lines[k + 1..];
    assert Join(lines[k..], "\n") + "\n" + footer == lines[k] + text;
    if k == 0 {
      assert lines[0..] == lines;
    } else {
      JoinAppend(lines[..k], lines[k..], "\n");
      assert lines[..k] + lines[k..] == lines;
    }
  }

  /**
    Reading a printed statement recovers exactly its rows - whatever quotes, commas and line breaks their
    descriptions hold - if and only if no date or reference holds a quote.
   */
  lemma {:induction false} StatementReadsBackIff(rows: seq<StatementRow>, account: Account, generated: string)
    requires PlainHeader(account, generated) && forall i :: 0 <= i < |rows| ==> PlainColumns(rows[i])
    ensures ReadStatement(ToCsv(rows, account, generated)) == Some(rows)
            <==> forall i :: 0 <= i < |rows| ==> NoQuote(rows[i].date) && NoQuote(rows[i].reference)
    ensures (forall i :: 0 <= i < |rows| ==> Unspoilt(rows[i])) ==>
              StatedCount(ToCsv(rows, account, generated)) == Some(|rows|)
  {
    if forall i :: 0 <= i < |rows| ==> Unspoilt(rows[i]) {
      CleanStatementReadsBack(rows, account, generated);
    } else {
      var k := FirstSpoilt(rows);
      SpoiltStatement(rows, account, generated, k);
    }
  }

  lemma {:induction false} FirstSpoilt(rows: seq<StatementRow>) returns (k: nat)
    requires exists i :: 0 <= i < |rows| && !Unspoilt(rows[i])
    ensures k < |rows| && !Unspoilt(rows[k]) && forall i :: 0 <= i < k ==> Unspoilt(rows[i])
  {
    if Unspoilt(rows[0]) {
      k := FirstSpoilt(rows[1..]);
      k := k + 1;
    } else {
      k := 0;
    }
  }

  lemma {:induction false} TypeNameIsPlain(t: TxType)
    ensures Plain(TypeName(t))
  {
    match t
    case Transfer => assert Plain("transfer");
    case Deposit => assert Plain("deposit");
    case Withdrawal => assert Plain("withdrawal");
    case Payment => assert Plain("payment");
    case Reversal => assert Plain("reversal");
  }

  lemma {:induction false} StatusNameIsPlain(s: TxStatus)
    ensures Plain(StatusName(s))
  {
    match s
    case Pending => assert Plain("pending");
    case Processing => assert Plain("processing");
    case Completed => assert Plain("completed");
    case FailedTx => assert Plain("failed");
    case Reversed => assert Plain("reversed");
  }

  lemma {:induction false} GeneratedColumnsArePlain(tx: Tx, id: AccountId, iso: Time -> string)
    ensures PlainColumns(ToRow(tx, id, iso))
  {
    PrintIsPlain(tx.amount);
    PrintIsPlain(tx.fee);
    TypeNameIsPlain(tx.txType);
    StatusNameIsPlain(tx.status);
  }

  /** The statement an owner downloads can be read back exactly when no listed reference holds a quote. */
  lemma {:induction false} DownloadReadsBackIff(s: Store, id: AccountId, user: string, from: Time, to: Time,
                                                iso: Time -> string, generated: string)
    requires FindOne(s, id, Some(user)).Ok? && PlainHeader(s.accounts[id], generated)
    requires forall t :: NoQuote(iso(t))
    ensures var listed := Select(s.rows, id, from, to);
            var csv := GenerateCsv(s, id, user, from, to, iso, generated);
            csv.Ok? && (ReadStatement(csv.value) == Some(ToRows(listed, id, iso))
                        <==> forall tx :: tx in listed ==> NoQuote(tx.reference))
  {
    var listed := Select(s.rows, id, from, to);
    var rows := ToRows(listed, id, iso);
    forall i | 0 <= i < |rows| ensures PlainColumns(rows[i]) {
      GeneratedColumnsArePlain(listed[i], id, iso);
    }
    StatementReadsBackIff(rows, s.accounts[id], generated);
    ReferencesOf(listed, id, iso);
  }

  lemma {:induction false} ReferencesOf(txs: seq<Tx>, id: AccountId, iso: Time -> string)
    requires forall t :: NoQuote(iso(t))
    ensures var rows := ToRows(txs, id, iso);
            (forall i :: 0 <= i < |rows| ==> NoQuote(rows[i].date) && NoQuote(rows[i].reference))
            <==> forall tx :: tx in txs ==> NoQuote(tx.reference)
  {
    var rows := ToRows(txs, id, iso);
    forall i | 0 <= i < |rows| ensures NoQuote(rows[i].date) && rows[i].reference == txs[i].reference {
      assert rows[i] == ToRow(txs[i], id, iso);
    }
    if !(forall i :: 0 <= i < |rows| ==> NoQuote(rows[i].reference)) {
      var i :| 0 <= i < |rows| && !NoQuote(rows[i].reference);
      assert txs[i] in txs;
    } else {
      forall tx | tx in txs ensures NoQuote(tx.reference) {
        var i :| 0 <= i < |txs| && txs[i] == tx;
        assert NoQuote(rows[i].reference);
      }
    }
  }

  /** A deposit whose reference holds a quote makes its statement unreadable. */
  lemma {:induction false} QuoteInReferenceIsLost(account: Account, generated: string)
    requires PlainHeader(account, generated)
    ensures var row := StatementRow("2024-01-31 09:30:00", "pay\"42", "Deposit", "deposit", "1.00", "", "0.00",
                                    "completed");
            ReadStatement(ToCsv([row], account, generated)) != Some([row])
  {
    var row := StatementRow("2024-01-31 09:30:00", "pay\"42", "Deposit", "deposit", "1.00", "", "0.00", "completed");
    assert row.reference[3] == '"' && !NoQuote(row.reference);
    StatementReadsBackIff([row], account, generated);
  }

  // ---- How it reconciles ----

  function CreditTo(id: AccountId): Tx -> int {
    (tx: Tx) => if tx.destination == Some(id) then tx.amount else 0
  }

  function DebitFrom(id: AccountId): Tx -> int {
    (tx: Tx) => if tx.destination == Some(id) then 0 else tx.amount
  }

  function FeeWhen(id: AccountId, incoming: bool): Tx -> int {
    (tx: Tx) => if (tx.destination == Some(id)) == incoming then tx.fee else 0
  }

  /** The fees of the rows that show a debit. */
  function DebitFees(rows: seq<StatementRow>): int {
    Sum(rows, (r: StatementRow) => if r.debit != "" then Amount(r.fee) else 0)
  }

  lemma {:induction false} PrintedTotals(txs: seq<Tx>, id: AccountId, iso: Time -> string)
    ensures var rows := ToRows(txs, id, iso);
            && TotalCredits(rows) == Sum(txs, CreditTo(id)) && TotalDebits(rows) == Sum(txs, DebitFrom(id))
            && TotalFees(rows) == Sum(txs, FeeWhen(id, true)) + Sum(txs, FeeWhen(id, false))
            && DebitFees(rows) == Sum(txs, FeeWhen(id, false))
  {
    if txs != [] {
      PrintedTotals(txs[1..], id, iso);
      var rows := ToRows(txs, id, iso);
      assert rows[0] == ToRow(txs[0], id, iso) && rows[1..] == ToRows(txs[1..], id, iso);
      PrintParses(txs[0].amount);
      PrintParses(txs[0].fee);
      ZeroParses();
    }
  }

  lemma {:induction false} ZeroParses()
    ensures Amount("") == 0
  {
    assert "0"[..0] == "";
    assert Value("0") == 0;
  }

  lemma {:induction false} EffectsAreCreditsLessDebits(txs: seq<Tx>, id: AccountId)
    requires forall tx :: tx in txs ==>
               tx.status == Completed && (tx.source == Some(id)) != (tx.destination == Some(id))
    ensures Sum(txs, EffectOn(id))
            == Sum(txs, CreditTo(id)) - Sum(txs, DebitFrom(id)) - Sum(txs, FeeWhen(id, false))
  {
    if txs != [] {
      assert txs[0] in txs;
      EffectsAreCreditsLessDebits(txs[1..], id);
    }
  }

  /** An account is the payer or the payee of each row its statement lists, never both. */
  lemma {:induction false} ListedAreOneSided(s: Store, id: AccountId, from: Time, to: Time)
    requires Sound(s)
    ensures forall tx :: tx in Select(s.rows, id, from, to) ==>
              tx.status == Completed && (tx.source == Some(id)) != (tx.destination == Some(id))
  {
    forall tx | tx in Select(s.rows, id, from, to)
      ensures tx.status == Completed && (tx.source == Some(id)) != (tx.destination == Some(id))
    {
      var k :| 0 <= k < |s.rows| && s.rows[k] == tx;
      assert WellFormed(s.accounts, s.rows[k]);
    }
  }

  /**
    Over a full history the balance is the printed credits less the printed debits less the fees of the debit rows;
    the printed total of fees exceeds those by the fees of the transfers that came in, which someone else paid.
   */
  lemma {:induction false} StatementReconciles(events: seq<Event>, id: AccountId, from: Time, to: Time,
                                               iso: Time -> string)
    requires id < |Run(EMPTY, events).accounts|
    requires forall tx :: tx in Run(EMPTY, events).rows ==> from <= tx.createdAt <= to
    ensures var s := Run(EMPTY, events);
            var rows := ToRows(Select(s.rows, id, from, to), id, iso);
            && s.accounts[id].balance == TotalCredits(rows) - TotalDebits(rows) - DebitFees(rows)
            && TotalFees(rows) - DebitFees(rows)
               == Sum(s.rows, (tx: Tx) => if tx.status == Completed && tx.destination == Some(id) then tx.fee else 0)
  {
    var s := Run(EMPTY, events);
    RunKeepsSound(EMPTY, events);
    var listed := Select(s.rows, id, from, to);
    PrintedTotals(listed, id, iso);
    ListedAreOneSided(s, id, from, to);
    EffectsAreCreditsLessDebits(listed, id);
    SumFilter(s.rows, Listing(id, from, to), EffectOn(id));
    var incoming := (tx: Tx) => if tx.status == Completed && tx.destination == Some(id) then tx.fee else 0;
    SumFilter(s.rows, Listing(id, from, to), incoming);
    SumSame(listed, FeeWhen(id, true), incoming);
  }

  lemma {:induction false} NothingEarlier(rows: seq<Tx>, id: AccountId, from: Time, to: Time)
    requires forall tx :: tx in rows ==> tx.createdAt > to
    ensures Select(rows, id, from, to) == []
  {
    if rows != [] {
      NothingEarlier(rows[1..], id, from, to);
    }
  }

  lemma {:induction false} SelectSplits(rows: seq<Tx>, id: AccountId, from: Time, mid: Time, to: Time)
    requires InOrder(rows) && from <= mid < to
    ensures Select(rows, id, from, to) == Select(rows, id, from, mid) + Select(rows, id, mid + 1, to)
  {
    if rows != [] {
      SelectSplits(rows[1..], id, from, mid, to);
      if rows[0].createdAt > mid {
        forall tx | tx in rows ensures tx.createdAt > mid {
          var k :| 0 <= k < |rows| && rows[k] == tx;
        }
        NothingEarlier(rows, id, from, mid);
        NothingEarlier(rows[1..], id, from, mid);
      }
    }
  }

  lemma {:induction false} ToRowsAppend(first: seq<Tx>, more: seq<Tx>, id: AccountId, iso: Time -> string)
    ensures ToRows(first + more, id, iso) == ToRows(first, id, iso) + ToRows(more, id, iso)
  {
  }

  /** What falls between two statements: listed rows created after the one ends and before the next begins. */
  lemma {:induction false} SelectInThree(rows: seq<Tx>, id: AccountId, from: Time, mid: Time, next: Time, to: Time)
    requires InOrder(rows) && from <= mid < next <= to
    ensures Select(rows, id, from, to)
            == Select(rows, id, from, mid) + (Select(rows, id, mid + 1, next - 1) + Select(rows, id, next, to))
  {
    SelectSplits(rows, id, from, mid, to);
    if mid + 1 < next {
      SelectSplits(rows, id, mid + 1, next - 1, to);
    } else {
      NothingWithin(rows, id, mid + 1, next - 1);
    }
  }

  lemma {:induction false} NothingWithin(rows: seq<Tx>, id: AccountId, from: Time, to: Time)
    requires from > to
    ensures Select(rows, id, from, to) == []
  {
    if rows != [] {
      NothingWithin(rows[1..], id, from, to);
    }
  }

  /**
    Two statements, the second beginning after the first ends, list what one over both lists, in order and with
    totals that add up, if and only if no listed row was created between them; otherwise those rows are missing
    from both, and their totals too. Database times are finer than the milliseconds in which statements end.
   */
  lemma {:induction false} AdjacentStatementsAdd(events: seq<Event>, start: Time, id: AccountId, from: Time, mid: Time,
                                                 next: Time, to: Time, iso: Time -> string)
    requires Clocked(events, start) && from <= mid < next <= to
    ensures var log := Run(EMPTY, events).rows;
            var whole, first := ToRows(Select(log, id, from, to), id, iso), ToRows(Select(log, id, from, mid), id, iso);
            var missed := ToRows(Select(log, id, mid + 1, next - 1), id, iso);
            var second := ToRows(Select(log, id, next, to), id, iso);
            && whole == first + (missed + second)
            && TotalCredits(whole) == TotalCredits(first) + TotalCredits(missed) + TotalCredits(second)
            && TotalDebits(whole) == TotalDebits(first) + TotalDebits(missed) + TotalDebits(second)
            && TotalFees(whole) == TotalFees(first) + TotalFees(missed) + TotalFees(second)
            && (whole == first + second
                <==> forall tx :: tx in log && Listed(tx, id, from, to) ==> !(mid < tx.createdAt < next))
            && (whole != first + second ==> |first| + |second| < |whole|)
  {
    var log := Run(EMPTY, events).rows;
    LogIsInOrder(events, start);
    SelectInThree(log, id, from, mid, next, to);
    var a, gap, b := Select(log, id, from, mid), Select(log, id, mid + 1, next - 1), Select(log, id, next, to);
    ToRowsAppend(a, gap + b, id, iso);
    ToRowsAppend(gap, b, id, iso);
    TotalsOfThree(ToRows(a, id, iso), ToRows(gap, id, iso), ToRows(b, id, iso));
    GapIsEmptyIff(log, id, from, mid, next, to);
  }

  lemma {:induction false} TotalsOfThree(first: seq<StatementRow>, missed: seq<StatementRow>, second: seq<StatementRow>)
    ensures var whole := first + (missed + second);
            && TotalCredits(whole) == TotalCredits(first) + TotalCredits(missed) + TotalCredits(second)
            && TotalDebits(whole) == TotalDebits(first) + TotalDebits(missed) + TotalDebits(second)
            && TotalFees(whole) == TotalFees(first) + TotalFees(missed) + TotalFees(second)
            && (whole == first + second <==> missed == [])
            && (missed != [] ==> |first| + |second| < |whole|)
  {
    TotalsAppend(first, missed + second);
    TotalsAppend(missed, second);
    if missed == [] {
      assert first + (missed + second) == first + second;
    } else {
      assert |first + (missed + second)| > |first + second|;
    }
  }

  lemma {:induction false} GapIsEmptyIff(rows: seq<Tx>, id: AccountId, from: Time, mid: Time, next: Time, to: Time)
    requires from <= mid < next <= to
    ensures Select(rows, id, mid + 1, next - 1) == []
            <==> forall tx :: tx in rows && Listed(tx, id, from, to) ==> !(mid < tx.createdAt < next)
  {
    var gap := Select(rows, id, mid + 1, next - 1);
    if gap != [] {
      assert gap[0] in gap && Listed(gap[0], id, from, to);
    } else {
      forall tx | tx in rows && Listed(tx, id, from, to) ensures !(mid < tx.createdAt < next) {
        assert tx !in gap;
      }
    }
  }

  const DAY_MS := 24 * 60 * 60 * 1000

  /** The interval of a statement of one day: from its first instant to `setHours(23, 59, 59, 999)`. */
  function DayStart(day: int): Time {
    AsTime(day * DAY_MS)
  }

  function DayEnd(day: int): Time {
    AsTime((day + 1) * DAY_MS - 1)
  }

  /** A row an account's statements could list is in some day's if and only if it is not of a day's last millisecond. */
  lemma {:induction false} SomeDayListsIff(tx: Tx, id: AccountId)
    requires Listed(tx, id, tx.createdAt, tx.createdAt)
    ensures (exists day :: Listed(tx, id, DayStart(day), DayEnd(day)))
            <==> tx.createdAt % AsTime(DAY_MS) <= AsTime(DAY_MS - 1)
  {
    var day := tx.createdAt / AsTime(DAY_MS);
    if tx.createdAt % AsTime(DAY_MS) <= AsTime(DAY_MS - 1) {
      assert Listed(tx, id, DayStart(day), DayEnd(day));
    }
  }

  lemma {:induction false} TotalsAppend(first: seq<StatementRow>, second: seq<StatementRow>)
    ensures TotalCredits(first + second) == TotalCredits(first) + TotalCredits(second)
    ensures TotalDebits(first + second) == TotalDebits(first) + TotalDebits(second)
    ensures TotalFees(first + second) == TotalFees(first) + TotalFees(second)
  {
    SumAppend(first, second, (r: StatementRow) => Amount(r.credit));
    SumAppend(first, second, (r: StatementRow) => Amount(r.debit));
    SumAppend(first, second, (r: StatementRow) => Amount(r.fee));
  }

  /** A statement lists its rows in order of creation. */
  lemma {:induction false} StatementsAreInOrder(events: seq<Event>, start: Time, id: AccountId, from: Time, to: Time)
    requires Clocked(events, start)
    ensures InOrder(Select(Run(EMPTY, events).rows, id, from, to))
  {
    LogIsInOrder(events, start);
    FilterInOrder(Run(EMPTY, events).rows, Listing(id, from, to));
  }
}
