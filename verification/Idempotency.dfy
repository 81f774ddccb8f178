/** The guard in front of transfers and withdrawals. */
module Idempotency {
  import opened Outcomes
  import opened Ledger
  import opened Services

  const WINDOW_MS := 24 * 60 * 60 * 1000

  /** The Idempotency-Key header: absent, sent once, or sent several times. */
  datatype Header = Absent | Once(key: string) | Repeatedly(keys: seq<string>)

  function SentKey(h: Header): Option<string> {
    match h
    case Absent => None
    case Once(key) => if key == "" then None else Some(key)
    case Repeatedly(keys) => if keys == [] || keys[0] == "" then None else Some(keys[0])
  }

  predicate IsHex(c: char) {
    '0' <= c <= '9' || 'a' <= c <= 'f' || 'A' <= c <= 'F'
  }

  predicate IsUuid(key: string) {
    && |key| == 36
    && forall i :: 0 <= i < 36 ==> if i == 8 || i == 13 || i == 18 || i == 23 then key[i] == '-' else IsHex(key[i])
  }

  /** A row created after the cutoff under this key, if there is one. */
  function FindRecent(rows: seq<Tx>, key: string, cutoff: Time): (r: Option<Tx>)
    ensures r.None? <==> forall i :: 0 <= i < |rows| ==> !(rows[i].key == Some(key) && rows[i].createdAt > cutoff)
    ensures r.Some? ==> r.value in rows && r.value.key == Some(key) && r.value.createdAt > cutoff
  {
    if rows == [] then None
    else if rows[0].key == Some(key) && rows[0].createdAt > cutoff then Some(rows[0])
    else FindRecent(rows[1..], key, cutoff)
  }

  /** The key the handler will store, none when the request carries no UUID - or the request is refused. */
  function GuardStep(rows: seq<Tx>, h: Header, now: Time): Result<Option<string>> {
    var sent := SentKey(h);
    if sent.None? || !IsUuid(sent.value) then Ok(None)
    else
      match FindRecent(rows, sent.value, AsTime(AppClock(now) - WINDOW_MS))
      case Some(existing) => Err(DuplicateKey(existing.reference))
      case None => Ok(sent)
  }

  /** A string of hexadecimal digits of this length. */
  predicate Hex(s: string, n: nat) {
    |s| == n && forall i :: 0 <= i < n ==> s[i] in "0123456789abcdefABCDEF"
  }

  /** The form the guard looks for: five groups of hexadecimal digits, joined by hyphens. */
  lemma {:induction false} UuidsAreFiveGroups(key: string)
    ensures IsUuid(key) <==>
              exists a, b, c, d, e :: Hex(a, 8) && Hex(b, 4) && Hex(c, 4) && Hex(d, 4) && Hex(e, 12)
                                      && key == a + "-" + b + "-" + c + "-" + d + "-" + e
  {
    if IsUuid(key) {
      var a, b, c, d, e := key[..8], key[9..13], key[14..18], key[19..23], key[24..];
      HexSlice(key, 0, 8);
      HexSlice(key, 9, 13);
      HexSlice(key, 14, 18);
      HexSlice(key, 19, 23);
      HexSlice(key, 24, 36);
      assert key == a + "-" + b + "-" + c + "-" + d + "-" + e;
    }
    forall a, b, c, d, e | Hex(a, 8) && Hex(b, 4) && Hex(c, 4) && Hex(d, 4) && Hex(e, 12)
      ensures IsUuid(a + "-" + b + "-" + c + "-" + d + "-" + e)
    {
      GroupsMakeUuid(a, b, c, d, e);
    }
  }

  lemma {:induction false} HexDigits(c: char)
    ensures IsHex(c) <==> c in "0123456789abcdefABCDEF"
  {
  }

  lemma {:induction false} HexSlice(key: string, from: nat, to: nat)
    requires IsUuid(key) && from <= to <= 36
    requires (to <= 8 || 8 < from) && (to <= 13 || 13 < from) && (to <= 18 || 18 < from) && (to <= 23 || 23 < from)
    ensures Hex(key[from..to], to - from)
  {
    forall i | 0 <= i < to - from ensures key[from..to][i] in "0123456789abcdefABCDEF" {
      HexDigits(key[from + i]);
      assert IsHex(key[from + i]);
    }
  }

  lemma {:induction false} GroupsMakeUuid(a: string, b: string, c: string, d: string, e: string)
    requires Hex(a, 8) && Hex(b, 4) && Hex(c, 4) && Hex(d, 4) && Hex(e, 12)
    ensures IsUuid(a + "-" + b + "-" + c + "-" + d + "-" + e)
  {
    var key := a + "-" + b + "-" + c + "-" + d + "-" + e;
    forall i | 0 <= i < 36
      ensures if i == 8 || i == 13 || i == 18 || i == 23 then key[i] == '-' else IsHex(key[i])
    {
      HexDigits(key[i]);
      assert i < 8 ==> key[i] == a[i];
      assert 8 < i < 13 ==> key[i] == b[i - 9];
      assert 13 < i < 18 ==> key[i] == c[i - 14];
      assert 18 < i < 23 ==> key[i] == d[i - 19];
      assert 23 < i ==> key[i] == e[i - 24];
    }
  }

  /** Which header counts as a key: none that is empty, and of several the first. */
  lemma {:induction false} KeySent(key: string, more: seq<string>)
    ensures SentKey(Absent) == SentKey(Repeatedly([])) == None
    ensures SentKey(Once(key)) == SentKey(Repeatedly([key] + more)) == if key == "" then None else Some(key)
  {
  }

  /** The guard's answer: refused for a row of the last 24 hours under the very key, named by its reference. */
  lemma {:induction false} GuardAnswers(rows: seq<Tx>, h: Header, now: Time)
    ensures var key, answer := SentKey(h), GuardStep(rows, h, now);
            && (key.None? || !IsUuid(key.value) ==> answer == Ok(None))
            && (answer.Ok? && key.Some? && IsUuid(key.value) ==> answer == Ok(key))
            && (answer.Err? <==>
                  && key.Some? && IsUuid(key.value)
                  && exists i :: 0 <= i < |rows| && rows[i].key == key
                                 && rows[i].createdAt > (now / 1000 - 86_400_000) * 1000)
            && (answer.Err? ==> exists tx :: tx in rows && tx.key == key && answer == Err(DuplicateKey(tx.reference)))
  {
  }

  // ---- One UUID, several spellings ----

  predicate IsLetter(c: char) {
    'a' <= c <= 'f' || 'A' <= c <= 'F'
  }

  function Folded(c: char): char {
    if 'A' <= c <= 'F' then 'a' + (c - 'A') else c
  }

  function OtherCase(c: char): (d: char)
    requires IsLetter(c)
    ensures d != c && Folded(d) == Folded(c) && IsHex(d)
  {
    if 'A' <= c <= 'F' then 'a' + (c - 'A') else 'A' + (c - 'a')
  }

  /** The same UUID, letter case aside. */
  predicate SameUuid(a: string, b: string) {
    |a| == |b| && forall i :: 0 <= i < |a| ==> Folded(a[i]) == Folded(b[i])
  }

  ghost predicate HasLetter(key: string) {
    exists i :: 0 <= i < |key| && IsLetter(key[i])
  }

  predicate Recent(tx: Tx, now: Time) {
    tx.createdAt > AsTime(AppClock(now) - WINDOW_MS)
  }

  ghost predicate UsedRecently(rows: seq<Tx>, key: string, now: Time) {
    exists i :: 0 <= i < |rows| && rows[i].key == Some(key) && Recent(rows[i], now)
  }

  /**
    A UUID is refused in every spelling if and only if it was used within 24 hours in every spelling: the lookup
    compares exactly, though the check of its form does not. Used in one spelling only, it must have no letter.
   */
  lemma {:induction false} EverySpellingIsRefusedIff(rows: seq<Tx>, used: string, now: Time)
    requires IsUuid(used)
    ensures (forall key :: SameUuid(key, used) ==> GuardStep(rows, Once(key), now).Err?)
            <==> forall key :: SameUuid(key, used) ==> UsedRecently(rows, key, now)
    ensures UsedRecently(rows, used, now) ==>
              (forall key :: SameUuid(key, used) && UsedRecently(rows, key, now) ==> key == used) ==>
              ((forall key :: SameUuid(key, used) ==> GuardStep(rows, Once(key), now).Err?) <==> !HasLetter(used))
  {
    forall key | SameUuid(key, used) ensures GuardStep(rows, Once(key), now).Err? <==> UsedRecently(rows, key, now) {
      RespeltIsUuid(key, used);
    }
    if HasLetter(used) {
      var i :| 0 <= i < |used| && IsLetter(used[i]);
      var key := used[i := OtherCase(used[i])];
      assert key[i] != used[i] && SameUuid(key, used);
    } else {
      forall key | SameUuid(key, used) ensures key == used {
        LetterlessHasOneSpelling(key, used);
      }
    }
  }

  lemma {:induction false} RespeltIsUuid(key: string, used: string)
    requires IsUuid(used) && SameUuid(key, used)
    ensures IsUuid(key)
  {
    forall i | 0 <= i < 36
      ensures if i == 8 || i == 13 || i == 18 || i == 23 then key[i] == '-' else IsHex(key[i])
    {
      assert Folded(key[i]) == Folded(used[i]);
    }
  }

  lemma {:induction false} LetterlessHasOneSpelling(key: string, used: string)
    requires IsUuid(used) && !HasLetter(used) && SameUuid(key, used)
    ensures key == used
  {
    forall i | 0 <= i < |used| ensures key[i] == used[i] {
      assert !IsLetter(used[i]) && Folded(key[i]) == Folded(used[i]);
    }
  }

  class Request {
    const header: Header
    var idempotencyKey: Option<string>

    constructor (header: Header)
      ensures this.header == header && idempotencyKey == None
    {
      this.header := header;
      idempotencyKey := None;
    }
  }

  class IdempotencyGuard {
    const db: Database

    constructor (db: Database)
      ensures this.db == db
    {
      this.db := db;
    }

    method CanActivate(request: Request, now: Time) returns (r: Result<bool>)
      requires request.idempotencyKey == None
      modifies request
      ensures var step := GuardStep(db.store.rows, request.header, now);
              && (step.Ok? ==> r == Ok(true) && request.idempotencyKey == step.value)
              && (step.Err? ==> r == Err(step.error) && request.idempotencyKey == None)
    {
      var key := SentKey(request.header);
      if key.None? {
        return Ok(true);
      }
      if !IsUuid(key.value) {
        return Ok(true);
      }
      var cutoff := AsTime(AppClock(now) - WINDOW_MS);
      var existing := FindRecent(db.store.rows, key.value, cutoff);
      if existing.Some? {
        return Err(DuplicateKey(existing.value.reference));
      }
      request.idempotencyKey := key;
      return Ok(true);
    }
  }
}
