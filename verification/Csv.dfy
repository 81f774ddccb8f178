/** Comma-separated text: quoting, and a reader for it by section 2 of RFC 4180 with LF as the line break. */
module Csv {
  import opened Outcomes

  function Join(parts: seq<string>, sep: string): string {
    if parts == [] then "" else if |parts| == 1 then parts[0] else parts[0] + sep + Join(parts[1..], sep)
  }

  /** `replace(/"/g, '""')`. */
  function Escape(s: string): string {
    if s == "" then "" else (if s[0] == '"' then "\"\"" else [s[0]]) + Escape(s[1..])
  }

  function Quoted(s: string): string {
    "\"" + Escape(s) + "\""
  }

  predicate Plain(s: string) {
    forall i :: 0 <= i < |s| ==> s[i] != ',' && s[i] != '\n' && s[i] != '"'
  }

  predicate NoQuote(s: string) {
    forall i :: 0 <= i < |s| ==> s[i] != '"'
  }

  // ---- The reader ----

  /** A quoted field after its opening quote, and the text after its closing one. */
  function ReadQuoted(s: string): (r: Option<(string, string)>)
    ensures r.Some? ==> |r.value.1| < |s|
    decreases |s|
  {
    if s == "" then None
    else if s[0] != '"' then
      match ReadQuoted(s[1..]) case None => None case Some((field, rest)) => Some(([s[0]] + field, rest))
    else if |s| > 1 && s[1] == '"' then
      match ReadQuoted(s[2..]) case None => None case Some((field, rest)) => Some((['"'] + field, rest))
    else Some(("", s[1..]))
  }

  function ReadPlain(s: string): (r: (string, string))
    ensures |r.1| <= |s|
  {
    if s == "" || s[0] == ',' || s[0] == '\n' || s[0] == '"' then ("", s)
    else
      var (field, rest) := ReadPlain(s[1..]);
      ([s[0]] + field, rest)
  }

  function ReadField(s: string): Option<(string, string)> {
    if s != "" && s[0] == '"' then ReadQuoted(s[1..]) else Some(ReadPlain(s))
  }

  function ReadRecord(s: string): (r: Option<(seq<string>, string)>)
    ensures r.Some? ==> |r.value.1| <= |s| && r.value.0 != [] && (r.value.1 == "" || r.value.1[0] == '\n')
    decreases |s|
  {
    match ReadField(s)
    case None => None
    case Some((field, rest)) =>
      if rest == "" || rest[0] == '\n' then Some(([field], rest))
      else if rest[0] != ',' then None
      else
        match ReadRecord(rest[1..]) case None => None case Some((more, end)) => Some(([field] + more, end))
  }

  function ReadRecords(s: string): Option<seq<seq<string>>>
    decreases |s|
  {
    match ReadRecord(s)
    case None => None
    case Some((record, rest)) =>
      if rest == "" then Some([record])
      else match ReadRecords(rest[1..]) case None => None case Some(more) => Some([record] + more)
  }

  // ---- What the reader reads back ----

  /** What may follow a field. */
  predicate Ended(rest: string) {
    rest == "" || rest[0] == ',' || rest[0] == '\n'
  }

  lemma {:induction false} PlainReadsBack(field: string, rest: string)
    requires Plain(field) && Ended(rest)
    ensures ReadPlain(field + rest) == (field, rest)
    ensures ReadField(field + rest) == Some((field, rest))
  {
    if field == "" {
      assert field + rest == rest;
    } else {
      assert (field + rest)[1..] == field[1..] + rest && [field[0]] + field[1..] == field;
      PlainReadsBack(field[1..], rest);
    }
  }

  lemma {:induction false} EscapedReadsBack(field: string, rest: string)
    requires rest == "" || rest[0] != '"'
    ensures ReadQuoted(Escape(field) + "\"" + rest) == Some((field, rest))
  {
    var s := Escape(field) + "\"" + rest;
    if field == "" {
      assert s == "\"" + rest;
      assert s[1..] == rest;
    } else {
      var tail := Escape(field[1..]) + "\"" + rest;
      EscapedReadsBack(field[1..], rest);
      assert [field[0]] + field[1..] == field;
      if field[0] == '"' {
        assert s == "\"\"" + tail;
        assert s[2..] == tail;
      } else {
        assert s == [field[0]] + tail;
        assert s[1..] == tail;
      }
    }
  }

  lemma {:induction false} QuotedReadsBack(field: string, rest: string)
    requires Ended(rest)
    ensures ReadField(Quoted(field) + rest) == Some((field, rest))
  {
    EscapedReadsBack(field, rest);
    assert (Quoted(field) + rest)[1..] == Escape(field) + "\"" + rest;
  }

  lemma {:induction false} UnquotedEscape(s: string)
    requires NoQuote(s)
    ensures Escape(s) == s
  {
    if s != "" {
      UnquotedEscape(s[1..]);
    }
  }

  /** A quoted field that is read is one that was properly escaped. */
  lemma {:induction false} ReadWasEscaped(s: string)
    ensures ReadQuoted(s).Some? ==>
              var (field, rest) := ReadQuoted(s).value;
              s == Escape(field) + "\"" + rest && (rest == "" || rest[0] != '"')
    decreases |s|
  {
    if s != "" && s[0] != '"' {
      ReadWasEscaped(s[1..]);
      if ReadQuoted(s).Some? {
        var (field, rest) := ReadQuoted(s).value;
        assert field[1..] == ReadQuoted(s[1..]).value.0;
        assert s == [s[0]] + s[1..];
      }
    } else if |s| > 1 && s[1] == '"' {
      ReadWasEscaped(s[2..]);
      if ReadQuoted(s).Some? {
        var (field, rest) := ReadQuoted(s).value;
        assert field[1..] == ReadQuoted(s[2..]).value.0;
        assert s == "\"\"" + s[2..];
      }
    } else if s != "" {
      assert s == "" + "\"" + s[1..];
    }
  }

  function Quotes(n: nat): (s: string)
    ensures |s| == n && forall i :: 0 <= i < n ==> s[i] == '"'
  {
    if n == 0 then "" else "\"" + Quotes(n - 1)
  }

  /** Unescaped and escaped text can only run in step while there is no quote in it. */
  lemma {:induction false} OutOfStep(u: string, n: nat, more: string, rest: string)
    requires n > 0
    ensures u + "\"," + more != Quotes(n) + Escape(u) + "\"" + rest
    decreases |u|
  {
    var left, right := u + "\"," + more, Quotes(n) + Escape(u) + "\"" + rest;
    if u == "" {
      assert left[1] == ',' && right[1] == '"';
    } else if left == right {
      assert left[0] == u[0] && right[0] == '"';
      assert left[1..] == u[1..] + "\"," + more;
      assert right[1..] == Quotes(n + 1) + Escape(u[1..]) + "\"" + rest by {
        assert Quotes(n) + "\"\"" == "\"" + Quotes(n + 1) by {
          assert forall i :: 0 <= i < n + 2 ==> (Quotes(n) + "\"\"")[i] == ("\"" + Quotes(n + 1))[i];
        }
        assert right == Quotes(n) + "\"\"" + Escape(u[1..]) + "\"" + rest;
      }
      OutOfStep(u[1..], n + 1, more, rest);
    }
  }

  lemma {:induction false} InStepMeansNoQuote(u: string, more: string, rest: string)
    requires u + "\"," + more == Escape(u) + "\"" + rest
    ensures NoQuote(u)
  {
    if u != "" {
      var left, right := u + "\"," + more, Escape(u) + "\"" + rest;
      if u[0] == '"' {
        assert left[1..] == u[1..] + "\"," + more;
        assert right[1..] == Quotes(1) + Escape(u[1..]) + "\"" + rest;
        OutOfStep(u[1..], 1, more, rest);
      } else {
        assert left[1..] == u[1..] + "\"," + more;
        assert right[1..] == Escape(u[1..]) + "\"" + rest;
        InStepMeansNoQuote(u[1..], more, rest);
      }
    }
  }

  /** Text put between quotes without escaping is read back exactly when it holds no quote. */
  lemma {:induction false} UnescapedReadsBackIff(field: string, more: string)
    ensures NoQuote(field) <==> ReadField("\"" + field + "\"," + more) == Some((field, "," + more))
    ensures !NoQuote(field) ==>
              var r := ReadField("\"" + field + "\"," + more); r.None? || r.value.0 != field
  {
    var s := "\"" + field + "\"," + more;
    assert s[1..] == field + "\"," + more;
    if NoQuote(field) {
      UnquotedEscape(field);
      QuotedReadsBack(field, "," + more);
      assert Quoted(field) + ("," + more) == s;
    } else {
      ReadWasEscaped(s[1..]);
      if ReadField(s).Some? && ReadField(s).value.0 == field {
        InStepMeansNoQuote(field, more, ReadField(s).value.1);
      }
    }
  }

  // ---- Records and lines ----

  /** A cell as printed, whatever follows it, is read back as this field. */
  ghost predicate CellReads(cell: string, field: string) {
    forall rest :: Ended(rest) ==> ReadField(cell + rest) == Some((field, rest))
  }

  /** A line as printed, whatever lines follow it, is read back as this record. */
  ghost predicate LineReads(line: string, record: seq<string>) {
    forall rest: string :: rest == "" || rest[0] == '\n' ==> ReadRecord(line + rest) == Some((record, rest))
  }

  lemma {:induction false} PlainCell(field: string)
    requires Plain(field)
    ensures CellReads(field, field)
  {
    forall rest | Ended(rest) ensures ReadField(field + rest) == Some((field, rest)) {
      PlainReadsBack(field, rest);
    }
  }

  lemma {:induction false} QuotedCell(field: string)
    ensures CellReads(Quoted(field), field)
  {
    forall rest | Ended(rest) ensures ReadField(Quoted(field) + rest) == Some((field, rest)) {
      QuotedReadsBack(field, rest);
    }
  }

  /** A field put between quotes as it is. */
  function Raw(field: string): string {
    "\"" + field + "\""
  }

  lemma {:induction false} RawCell(field: string)
    requires NoQuote(field)
    ensures CellReads(Raw(field), field)
  {
    UnquotedEscape(field);
    QuotedCell(field);
  }

  lemma {:induction false} CellsMakeALine(cells: seq<string>, fields: seq<string>)
    requires |cells| == |fields| > 0 && forall i :: 0 <= i < |cells| ==> CellReads(cells[i], fields[i])
    ensures LineReads(Join(cells, ","), fields)
  {
    forall rest: string | rest == "" || rest[0] == '\n'
      ensures ReadRecord(Join(cells, ",") + rest) == Some((fields, rest))
    {
      CellsReadBack(cells, fields, rest);
    }
  }

  lemma {:induction false} CellsReadBack(cells: seq<string>, fields: seq<string>, rest: string)
    requires |cells| == |fields| > 0 && forall i :: 0 <= i < |cells| ==> CellReads(cells[i], fields[i])
    requires rest == "" || rest[0] == '\n'
    ensures ReadRecord(Join(cells, ",") + rest) == Some((fields, rest))
  {
    assert CellReads(cells[0], fields[0]);
    if |cells| == 1 {
      assert ReadField(cells[0] + rest) == Some((fields[0], rest));
      assert fields == [fields[0]];
    } else {
      var after := Join(cells[1..], ",") + rest;
      CellsReadBack(cells[1..], fields[1..], rest);
      assert Join(cells, ",") + rest == cells[0] + ("," + after);
      assert ReadField(cells[0] + ("," + after)) == Some((fields[0], "," + after));
      assert ("," + after)[1..] == after;
      assert [fields[0]] + fields[1..] == fields;
    }
  }

  /** A cell that was not escaped but holds a quote spoils its record: the field is not read back. */
  lemma {:induction false} SpoiltCell(cells: seq<string>, fields: seq<string>, k: nat, rest: string)
    requires |cells| == |fields| && k < |cells| - 1 && cells[k] == Raw(fields[k]) && !NoQuote(fields[k])
    requires forall i :: 0 <= i < k ==> CellReads(cells[i], fields[i])
    ensures var r := ReadRecord(Join(cells, ",") + rest);
            r.None? || |r.value.0| <= k || r.value.0[k] != fields[k]
  {
    var after := Join(cells[1..], ",") + rest;
    assert Join(cells, ",") + rest == cells[0] + ("," + after);
    if k == 0 {
      UnescapedReadsBackIff(fields[0], after);
      assert cells[0] + ("," + after) == "\"" + fields[0] + "\"," + after;
    } else {
      assert CellReads(cells[0], fields[0]);
      assert ReadField(cells[0] + ("," + after)) == Some((fields[0], "," + after));
      assert ("," + after)[1..] == after;
      SpoiltCell(cells[1..], fields[1..], k - 1, rest);
    }
  }

  function Before(records: seq<seq<string>>, more: Option<seq<seq<string>>>): Option<seq<seq<string>>> {
    if more.None? then None else Some(records + more.value)
  }

  lemma {:induction false} LineThenText(line: string, record: seq<string>, text: string)
    requires LineReads(line, record)
    ensures ReadRecords(line + "\n" + text) == Before([record], ReadRecords(text))
  {
    assert line + "\n" + text == line + ("\n" + text);
    assert ReadRecord(line + ("\n" + text)) == Some((record, "\n" + text));
    assert ("\n" + text)[1..] == text;
  }

  lemma {:induction false} LastLine(line: string, record: seq<string>)
    requires LineReads(line, record)
    ensures ReadRecords(line) == Some([record])
  {
    assert line + "" == line;
    assert ReadRecord(line + "") == Some((record, ""));
  }

  lemma {:induction false} LinesThenText(lines: seq<string>, records: seq<seq<string>>, text: string)
    requires |lines| == |records| > 0 && forall i :: 0 <= i < |lines| ==> LineReads(lines[i], records[i])
    ensures ReadRecords(Join(lines, "\n") + "\n" + text) == Before(records, ReadRecords(text))
  {
    if |lines| == 1 {
      LineThenText(lines[0], records[0], text);
      assert records == [records[0]];
    } else {
      var more := Join(lines[1..], "\n") + "\n" + text;
      assert Join(lines, "\n") + "\n" + text == lines[0] + "\n" + more;
      LineThenText(lines[0], records[0], more);
      LinesThenText(lines[1..], records[1..], text);
      BeforeBefore(records, ReadRecords(text));
    }
  }

  lemma {:induction false} BeforeBefore(records: seq<seq<string>>, more: Option<seq<seq<string>>>)
    requires records != []
    ensures Before([records[0]], Before(records[1..], more)) == Before(records, more)
  {
    if more.Some? {
      assert [records[0]] + (records[1..] + more.value) == records + more.value;
    }
  }

  lemma {:induction false} LinesReadBack(lines: seq<string>, records: seq<seq<string>>)
    requires |lines| == |records| > 0 && forall i :: 0 <= i < |lines| ==> LineReads(lines[i], records[i])
    ensures ReadRecords(Join(lines, "\n")) == Some(records)
  {
    if |lines| == 1 {
      LastLine(lines[0], records[0]);
      assert records == [records[0]];
    } else {
      LineThenText(lines[0], records[0], Join(lines[1..], "\n"));
      LinesReadBack(lines[1..], records[1..]);
      assert [records[0]] + records[1..] == records;
    }
  }

  lemma {:induction false} JoinAppend(first: seq<string>, more: seq<string>, sep: string)
    requires first != [] && more != []
    ensures Join(first + more, sep) == Join(first, sep) + sep + Join(more, sep)
  {
    if |first| == 1 {
      assert (first + more)[1..] == more;
    } else {
      assert (first + more)[1..] == first[1..] + more;
      JoinAppend(first[1..], more, sep);
    }
  }
}
