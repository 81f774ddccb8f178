/** Amounts in text: kobo printed in the major unit with two decimals, as the database and the statement print them. */
module Money {
  predicate IsDigit(c: char) {
    '0' <= c <= '9'
  }

  function Digit(d: nat): (c: char)
    requires d < 10
    ensures IsDigit(c)
  {
    '0' + d as char
  }

  function Digits(n: nat): (s: string)
    ensures s != "" && forall i :: 0 <= i < |s| ==> IsDigit(s[i])
  {
    if n < 10 then [Digit(n)] else Digits(n / 10) + [Digit(n % 10)]
  }

  /** The number a string of digits stands for; other characters count as nothing. */
  function Value(s: string): nat {
    if s == "" then 0
    else
      var last := s[|s| - 1];
      Value(s[..|s| - 1]) * 10 + (if IsDigit(last) then (last as int) - ('0' as int) else 0)
  }

  function Print(kobo: int): string {
    if kobo < 0 then "-" + PrintNat(-kobo) else PrintNat(kobo)
  }

  function PrintNat(kobo: nat): string {
    Digits(kobo / 100) + "." + [Digit(kobo / 10 % 10), Digit(kobo % 10)]
  }

  /** `parseFloat`, in kobo, of what `Print` prints and of whole numbers. */
  function Parse(s: string): int {
    if s != "" && s[0] == '-' then 0 - ParseNat(s[1..]) else ParseNat(s)
  }

  function ParseNat(s: string): nat {
    if |s| >= 3 && s[|s| - 3] == '.' then Value(s[..|s| - 3]) * 100 + Value(s[|s| - 2..]) else Value(s) * 100
  }

  lemma {:induction false} DigitsStandForNumber(n: nat)
    ensures Value(Digits(n)) == n
  {
    var s := Digits(n);
    if n >= 10 {
      DigitsStandForNumber(n / 10);
      assert s[..|s| - 1] == Digits(n / 10);
    } else {
      assert s[..0] == "";
    }
  }

  /** Printing an amount and reading it back gives the amount. */
  lemma {:induction false} PrintParses(kobo: int)
    ensures Parse(Print(kobo)) == kobo
    ensures Print(kobo) != ""
    ensures forall i :: 0 <= i < |Print(kobo)| ==> IsDigit(Print(kobo)[i]) || Print(kobo)[i] in "-."
  {
    PrintNatParses(if kobo < 0 then -kobo else kobo);
    if kobo < 0 {
      assert Print(kobo)[1..] == PrintNat(-kobo);
    }
  }

  lemma {:induction false} PrintNatParses(kobo: nat)
    ensures ParseNat(PrintNat(kobo)) == kobo
    ensures forall i :: 0 <= i < |PrintNat(kobo)| ==> IsDigit(PrintNat(kobo)[i]) || PrintNat(kobo)[i] == '.'
    ensures PrintNat(kobo)[0] != '-'
  {
    var whole, a, b := Digits(kobo / 100), Digit(kobo / 10 % 10), Digit(kobo % 10);
    var s := PrintNat(kobo);
    DigitsStandForNumber(kobo / 100);
    assert s[..|s| - 3] == whole && s[|s| - 2..] == [a, b];
    assert [a, b][..1] == [a] && [a][..0] == "";
    assert Value([a, b]) == Value([a]) * 10 + kobo % 10;
    assert kobo == kobo / 100 * 100 + kobo / 10 % 10 * 10 + kobo % 10;
  }

  lemma {:induction false} TwoMoreDigits(whole: string, a: nat, b: nat)
    requires a < 10 && b < 10
    ensures Value(whole + [Digit(a), Digit(b)]) == 100 * Value(whole) + 10 * a + b
  {
    var first, both := whole + [Digit(a)], whole + [Digit(a), Digit(b)];
    assert both[..|both| - 1] == first && first[..|first| - 1] == whole;
  }

  /** Printed amounts have two digits after the point, and without it are the number of kobo. */
  lemma {:induction false} PrintedIsDecimal(kobo: nat)
    ensures var s := Print(kobo);
            && |s| >= 4 && s[|s| - 3] == '.' && IsDigit(s[0]) && (|s| > 4 ==> s[0] != '0')
            && Value(s[..|s| - 3] + s[|s| - 2..]) == kobo
    ensures kobo > 0 ==> Print(0 - kobo) == "-" + Print(kobo)
  {
    var whole, s := Digits(kobo / 100), PrintNat(kobo);
    assert s[..|s| - 3] == whole && s[|s| - 2..] == [Digit(kobo / 10 % 10), Digit(kobo % 10)];
    DigitsStandForNumber(kobo / 100);
    NoLeadingZero(kobo / 100);
    TwoMoreDigits(whole, kobo / 10 % 10, kobo % 10);
    KoboByDigits(kobo);
  }

  lemma {:induction false} KoboByDigits(kobo: nat)
    ensures kobo == 100 * (kobo / 100) + 10 * (kobo / 10 % 10) + kobo % 10
  {
  }

  lemma {:induction false} NoLeadingZero(n: nat)
    ensures |Digits(n)| > 1 ==> Digits(n)[0] != '0'
  {
    if n >= 10 {
      NoLeadingZero(n / 10);
      assert n < 100 ==> Digits(n / 10) == [Digit(n / 10)];
    }
  }

  /** The value of digits, from the ten digits of the decimal system. */
  lemma {:induction false} ValueByDigits(s: string, d: nat)
    requires d < 10
    ensures Value("") == 0 && Value(s + ["0123456789"[d]]) == 10 * Value(s) + d
    ensures Digit(d) == "0123456789"[d]
  {
    assert (s + ["0123456789"[d]])[..|s|] == s;
    assert "0123456789"[d] == '0' + d as char;
  }
}
