/** The fee engine: choosing a rule, and the arithmetic of one rule. */
module Fees {
  import opened Outcomes
  import opened Seqs
  import opened Ledger

  /** A rule's type with its value: a rate in ten-thousandths of a percent, or a whole number of kobo. */
  datatype FeeKind = Percentage(rate: int) | Flat(kobo: int) | Tiered(rate: int)
  datatype FeeConfig = FeeConfig(
    id: int, name: string, txType: TxType, kind: FeeKind, cap: int, minimum: int, minAmount: int, maxAmount: int,
    enabled: bool, priority: int)
  datatype FeeCalculation = FeeCalculation(feeInKobo: int, ruleApplied: string)

  const UNITS := 1_000_000

  // ---- Choosing ----

  predicate Concerns(r: FeeConfig, t: TxType) {
    r.txType == t && r.enabled
  }

  predicate InBand(r: FeeConfig, amount: int) {
    amount >= r.minAmount && (r.maxAmount == 0 || amount <= r.maxAmount)
  }

  function Concerning(t: TxType): FeeConfig -> bool {
    r => Concerns(r, t)
  }

  function Within(amount: int): FeeConfig -> bool {
    r => InBand(r, amount)
  }

  predicate Matches(r: FeeConfig, t: TxType, amount: int) {
    Concerns(r, t) && InBand(r, amount)
  }

  function Insert(r: FeeConfig, s: seq<FeeConfig>): seq<FeeConfig> {
    if s == [] || r.priority >= s[0].priority then [r] + s else [s[0]] + Insert(r, s[1..])
  }

  /** `sort((a, b) => b.priority - a.priority)`, which is stable. */
  function ByPriority(s: seq<FeeConfig>): seq<FeeConfig> {
    if s == [] then [] else Insert(s[0], ByPriority(s[1..]))
  }

  function Applicable(rules: seq<FeeConfig>, t: TxType, amount: int): seq<FeeConfig> {
    Filter(Filter(rules, Concerning(t)), Within(amount))
  }

  function Choice(rules: seq<FeeConfig>, t: TxType, amount: int): Option<FeeConfig> {
    var sorted := ByPriority(Applicable(rules, t, amount));
    if sorted == [] then None else Some(sorted[0])
  }

  // ---- Arithmetic ----

  /** `Math.round` of amount * rate / UNITS: the nearest integer, halves upwards. */
  function Rounded(amount: int, rate: int): int {
    (amount * rate + UNITS / 2) / UNITS
  }

  function RawFee(r: FeeConfig, amount: int): int {
    match r.kind
    case Flat(kobo) => kobo
    case Percentage(rate) => Rounded(amount, rate)
    case Tiered(rate) => Rounded(amount, rate)
  }

  function Clamped(r: FeeConfig, raw: int): int {
    var floored := if r.minimum > 0 && raw < r.minimum then r.minimum else raw;
    if r.cap > 0 && floored > r.cap then r.cap else floored
  }

  function Fee(r: FeeConfig, amount: int): int {
    Clamped(r, RawFee(r, amount))
  }

  function Calculation(rules: seq<FeeConfig>, t: TxType, amount: int): FeeCalculation {
    match Choice(rules, t, amount)
    case None => FeeCalculation(0, "none")
    case Some(r) => FeeCalculation(Fee(r, amount), r.name)
  }

  // ---- The sort ----

  function AtPriority(k: int): FeeConfig -> bool {
    (x: FeeConfig) => x.priority == k
  }

  function MatchingAt(t: TxType, amount: int, k: int): FeeConfig -> bool {
    x => Matches(x, t, amount) && x.priority == k
  }

  ghost predicate Descending(s: seq<FeeConfig>) {
    forall i, j :: 0 <= i < j < |s| ==> s[i].priority >= s[j].priority
  }

  lemma {:induction false} InsertKeeps(r: FeeConfig, s: seq<FeeConfig>, k: int)
    requires Descending(s)
    ensures Descending(Insert(r, s))
    ensures forall x :: x in Insert(r, s) <==> x == r || x in s
    ensures Filter(Insert(r, s), AtPriority(k)) == Filter([r] + s, AtPriority(k))
  {
    if s != [] && r.priority < s[0].priority {
      InsertKeeps(r, s[1..], k);
      var t := Insert(r, s[1..]);
      assert Insert(r, s) == [s[0]] + t;
      assert ([r] + s)[1..] == s;
      assert ([r] + s[1..])[1..] == s[1..];
      assert forall x :: x in s <==> x == s[0] || x in s[1..];
      forall i, j | 0 <= i < j < |t| + 1
        ensures ([s[0]] + t)[i].priority >= ([s[0]] + t)[j].priority
      {
        if i == 0 {
          assert t[j - 1] in t;
        }
      }
    }
  }

  /** Sorting is by descending priority, and rules of one priority keep their order: so it is a stable permutation. */
  lemma {:induction false} SortIsStable(s: seq<FeeConfig>, k: int)
    ensures Descending(ByPriority(s))
    ensures forall x :: x in ByPriority(s) <==> x in s
    ensures Filter(ByPriority(s), AtPriority(k)) == Filter(s, AtPriority(k))
  {
    if s != [] {
      SortIsStable(s[1..], k);
      InsertKeeps(s[0], ByPriority(s[1..]), k);
      assert ([s[0]] + ByPriority(s[1..]))[1..] == ByPriority(s[1..]);
      assert forall x :: x in s <==> x == s[0] || x in s[1..];
    }
  }

  // ---- Which rule is chosen ----

  /** Rule `i` matches, no matching rule outranks it, and every matching rule before it ranks lower. */
  ghost predicate FirstBest(rules: seq<FeeConfig>, t: TxType, amount: int, i: nat) {
    && i < |rules| && Matches(rules[i], t, amount)
    && (forall j :: 0 <= j < |rules| && Matches(rules[j], t, amount) ==> rules[j].priority <= rules[i].priority)
    && (forall j :: 0 <= j < i && Matches(rules[j], t, amount) ==> rules[j].priority < rules[i].priority)
  }

  lemma {:induction false} HeadOfFilter<T(!new)>(s: seq<T>, p: T -> bool) returns (i: nat)
    requires exists x :: x in s && p(x)
    ensures i < |s| && p(s[i]) && Filter(s, p) != [] && Filter(s, p)[0] == s[i]
    ensures forall j :: 0 <= j < i ==> !p(s[j])
  {
    if p(s[0]) {
      i := 0;
    } else {
      assert forall x :: x in s <==> x == s[0] || x in s[1..];
      var k := HeadOfFilter(s[1..], p);
      i := k + 1;
    }
  }

  lemma {:induction false} SortedApplicable(rules: seq<FeeConfig>, t: TxType, amount: int, k: int)
    ensures var sorted := ByPriority(Applicable(rules, t, amount));
            && Descending(sorted)
            && (forall x :: x in sorted <==> x in rules && Matches(x, t, amount))
            && Filter(sorted, AtPriority(k)) == Filter(rules, MatchingAt(t, amount, k))
  {
    var found, best := Applicable(rules, t, amount), MatchingAt(t, amount, k);
    SortIsStable(found, k);
    var inBandAt: FeeConfig -> bool := x => InBand(x, amount) && x.priority == k;
    FilterFilter(Filter(rules, Concerning(t)), Within(amount), AtPriority(k), inBandAt);
    FilterFilter(rules, Concerning(t), inBandAt, best);
  }

  lemma {:induction false} ChoiceHeadsFilter(rules: seq<FeeConfig>, t: TxType, amount: int)
    requires Choice(rules, t, amount).Some?
    ensures var best := Filter(rules, MatchingAt(t, amount, Choice(rules, t, amount).value.priority));
            best != [] && best[0] == Choice(rules, t, amount).value
  {
    var sorted := ByPriority(Applicable(rules, t, amount));
    SortedApplicable(rules, t, amount, sorted[0].priority);
    var h := HeadOfFilter(sorted, AtPriority(sorted[0].priority));
  }

  /** Filtering twice, sorting and taking the head finds the first matching rule of greatest priority. */
  lemma {:induction false} ChoiceIsFirstBest(rules: seq<FeeConfig>, t: TxType, amount: int) returns (i: nat)
    ensures Choice(rules, t, amount).None? <==> forall j :: 0 <= j < |rules| ==> !Matches(rules[j], t, amount)
    ensures Choice(rules, t, amount).Some? ==>
              FirstBest(rules, t, amount, i) && Choice(rules, t, amount).value == rules[i]
  {
    i := 0;
    var sorted := ByPriority(Applicable(rules, t, amount));
    SortedApplicable(rules, t, amount, 0);
    if sorted == [] {
      forall j | 0 <= j < |rules| ensures !Matches(rules[j], t, amount) {
        assert rules[j] in rules && rules[j] !in sorted;
      }
    } else {
      ChoiceHeadsFilter(rules, t, amount);
      var k := sorted[0].priority;
      var best := MatchingAt(t, amount, k);
      assert sorted[0] in sorted && sorted[0] in rules && best(sorted[0]);
      i := HeadOfFilter(rules, best);
      forall j | 0 <= j < |rules| && Matches(rules[j], t, amount)
        ensures rules[j].priority <= k && (j < i ==> rules[j].priority < k)
      {
        assert rules[j] in sorted;
        if j < i {
          assert !best(rules[j]);
        }
      }
    }
  }

  lemma {:induction false} FirstBestIsUnique(rules: seq<FeeConfig>, t: TxType, amount: int, i: nat, j: nat)
    requires FirstBest(rules, t, amount, i) && FirstBest(rules, t, amount, j)
    ensures i == j
  {
  }

  /** All matching rules of the greatest priority are one and the same record. */
  ghost predicate BestIsUnique(rules: seq<FeeConfig>, t: TxType, amount: int) {
    forall x, y :: Best(rules, t, amount, x) && Best(rules, t, amount, y) ==> x == y
  }

  ghost predicate Best(rules: seq<FeeConfig>, t: TxType, amount: int, x: FeeConfig) {
    x in rules && Matches(x, t, amount) && forall y :: y in rules && Matches(y, t, amount) ==> y.priority <= x.priority
  }

  lemma {:induction false} ChoiceIsBest(rules: seq<FeeConfig>, t: TxType, amount: int)
    ensures Choice(rules, t, amount).Some? <==> exists x :: x in rules && Matches(x, t, amount)
    ensures Choice(rules, t, amount).Some? ==> Best(rules, t, amount, Choice(rules, t, amount).value)
  {
    SortedApplicable(rules, t, amount, 0);
    var sorted := ByPriority(Applicable(rules, t, amount));
    if sorted != [] {
      assert sorted[0] in sorted;
    }
  }

  /** The order in which the database lists the rules is immaterial exactly when the best matching rule is unique. */
  lemma {:induction false} ChoiceIgnoresOrderIffBestIsUnique(rules: seq<FeeConfig>, t: TxType, amount: int)
    ensures BestIsUnique(rules, t, amount) <==>
              forall other: seq<FeeConfig> :: multiset(other) == multiset(rules) ==>
                Choice(other, t, amount) == Choice(rules, t, amount)
  {
    if BestIsUnique(rules, t, amount) {
      forall other: seq<FeeConfig> | multiset(other) == multiset(rules)
        ensures Choice(other, t, amount) == Choice(rules, t, amount)
      {
        ReorderedChoiceIsBest(rules, other, t, amount);
        ChoiceIsBest(rules, t, amount);
      }
    } else {
      var x, y :| Best(rules, t, amount, x) && Best(rules, t, amount, y) && x != y;
      var px := ToFront(rules, x);
      var py := ToFront(rules, y);
      FrontBestIsChosen(rules, px, t, amount);
      FrontBestIsChosen(rules, py, t, amount);
    }
  }

  /** Nor does that order affect the fee exactly when all the best matching rules charge the same. */
  lemma {:induction false} FeeIgnoresOrderIff(rules: seq<FeeConfig>, t: TxType, amount: int)
    ensures (forall x, y :: Best(rules, t, amount, x) && Best(rules, t, amount, y) ==> Fee(x, amount) == Fee(y, amount))
            <==> forall other: seq<FeeConfig> :: multiset(other) == multiset(rules) ==>
                   Calculation(other, t, amount).feeInKobo == Calculation(rules, t, amount).feeInKobo
  {
    if forall x, y :: Best(rules, t, amount, x) && Best(rules, t, amount, y) ==> Fee(x, amount) == Fee(y, amount) {
      forall other: seq<FeeConfig> | multiset(other) == multiset(rules)
        ensures Calculation(other, t, amount).feeInKobo == Calculation(rules, t, amount).feeInKobo
      {
        EqualBestChargeAlike(rules, other, t, amount);
      }
    } else {
      var x, y :| Best(rules, t, amount, x) && Best(rules, t, amount, y) && Fee(x, amount) != Fee(y, amount);
      var px := BestCanDecide(rules, x, t, amount);
      var py := BestCanDecide(rules, y, t, amount);
    }
  }

  lemma {:induction false} EqualBestChargeAlike(rules: seq<FeeConfig>, other: seq<FeeConfig>, t: TxType, amount: int)
    requires multiset(other) == multiset(rules)
    requires forall x, y :: Best(rules, t, amount, x) && Best(rules, t, amount, y) ==> Fee(x, amount) == Fee(y, amount)
    ensures Calculation(other, t, amount).feeInKobo == Calculation(rules, t, amount).feeInKobo
  {
    ReorderedChoiceIsBest(rules, other, t, amount);
    ChoiceIsBest(rules, t, amount);
  }

  lemma {:induction false} BestCanDecide(rules: seq<FeeConfig>, x: FeeConfig, t: TxType, amount: int)
      returns (other: seq<FeeConfig>)
    requires Best(rules, t, amount, x)
    ensures multiset(other) == multiset(rules) && Calculation(other, t, amount).feeInKobo == Fee(x, amount)
  {
    other := ToFront(rules, x);
    FrontBestIsChosen(rules, other, t, amount);
  }

  lemma {:induction false} ReorderedChoiceIsBest(rules: seq<FeeConfig>, other: seq<FeeConfig>, t: TxType, amount: int)
    requires multiset(other) == multiset(rules)
    ensures Choice(other, t, amount).Some? <==> Choice(rules, t, amount).Some?
    ensures Choice(other, t, amount).Some? ==> Best(rules, t, amount, Choice(other, t, amount).value)
  {
    assert forall x :: x in other <==> x in multiset(other);
    assert forall x :: x in rules <==> x in multiset(rules);
    ChoiceIsBest(rules, t, amount);
    ChoiceIsBest(other, t, amount);
  }

  lemma {:induction false} ToFront(rules: seq<FeeConfig>, x: FeeConfig) returns (other: seq<FeeConfig>)
    requires x in rules
    ensures multiset(other) == multiset(rules) && other != [] && other[0] == x
  {
    var i :| 0 <= i < |rules| && rules[i] == x;
    other := [x] + rules[..i] + rules[i + 1..];
    assert rules == rules[..i] + [x] + rules[i + 1..];
  }

  lemma {:induction false} FrontBestIsChosen(rules: seq<FeeConfig>, other: seq<FeeConfig>, t: TxType, amount: int)
    requires multiset(other) == multiset(rules) && other != [] && Best(rules, t, amount, other[0])
    ensures Choice(other, t, amount) == Some(other[0])
  {
    assert forall z :: z in other <==> z in multiset(other);
    assert forall z :: z in rules <==> z in multiset(rules);
    assert FirstBest(other, t, amount, 0);
    var i := ChoiceIsFirstBest(other, t, amount);
    assert Matches(other[0], t, amount);
    FirstBestIsUnique(other, t, amount, 0, i);
  }

  // ---- The choice by columns ----

  /**
    No rule is chosen if and only if none is active, of the transaction's type, and of a band that holds the amount;
    otherwise the one chosen is the first of greatest priority among those that are.
   */
  lemma {:induction false} ChoiceByColumns(rules: seq<FeeConfig>, t: TxType, amount: int) returns (i: nat)
    ensures Choice(rules, t, amount).None? <==>
              forall j :: 0 <= j < |rules| ==>
                var r := rules[j];
                !(r.txType == t && r.enabled && r.minAmount <= amount && (r.maxAmount == 0 || amount <= r.maxAmount))
    ensures Choice(rules, t, amount).Some? ==>
              && i < |rules| && Choice(rules, t, amount).value == rules[i]
              && var r := rules[i];
                 && r.txType == t && r.enabled && r.minAmount <= amount && (r.maxAmount == 0 || amount <= r.maxAmount)
                 && forall j :: 0 <= j < |rules| && j != i ==>
                      var q := rules[j];
                      q.txType == t && q.enabled && q.minAmount <= amount && (q.maxAmount == 0 || amount <= q.maxAmount)
                      ==> if j < i then q.priority < r.priority else q.priority <= r.priority
  {
    i := ChoiceIsFirstBest(rules, t, amount);
    if Choice(rules, t, amount).None? {
      assert forall j :: 0 <= j < |rules| ==> !Matches(rules[j], t, amount);
    } else {
      forall j | 0 <= j < |rules| && Matches(rules[j], t, amount) && j != i
        ensures if j < i then rules[j].priority < rules[i].priority else rules[j].priority <= rules[i].priority
      {
      }
    }
    assert forall j :: 0 <= j < |rules| ==>
      var r := rules[j];
      Matches(r, t, amount)
      <==> r.txType == t && r.enabled && r.minAmount <= amount && (r.maxAmount == 0 || amount <= r.maxAmount);
  }

  /** `raw` is what the rule charges before minimum and cap: its kobo, or its percentage to the nearest kobo. */
  predicate IsRaw(r: FeeConfig, amount: int, raw: int) {
    match r.kind
    case Flat(kobo) => raw == kobo
    case Percentage(rate) => -500_000 < 1_000_000 * raw - amount * rate <= 500_000
    case Tiered(rate) => -500_000 < 1_000_000 * raw - amount * rate <= 500_000
  }

  /** The fee charged: zero without a rule, else the rule's, raised to its minimum and then lowered to its cap. */
  lemma {:induction false} FeeIs(rules: seq<FeeConfig>, t: TxType, amount: int) returns (raw: int)
    ensures Choice(rules, t, amount).None? ==> Calculation(rules, t, amount) == FeeCalculation(0, "none")
    ensures Choice(rules, t, amount).Some? ==>
              var r, charged := Choice(rules, t, amount).value, Calculation(rules, t, amount);
              && IsRaw(r, amount, raw) && charged.ruleApplied == r.name
              && (r.cap > 0 ==> charged.feeInKobo <= r.cap)
              && (charged.feeInKobo > raw ==> charged.feeInKobo <= r.minimum)
              && (charged.feeInKobo < raw ==> r.cap > 0 && charged.feeInKobo == r.cap)
              && (r.minimum > 0 && charged.feeInKobo < r.minimum ==> r.cap > 0 && charged.feeInKobo == r.cap)
  {
    raw := 0;
    if Choice(rules, t, amount).Some? {
      var r := Choice(rules, t, amount).value;
      raw := RawFee(r, amount);
      if !r.kind.Flat? {
        RoundingError(amount, r.kind.rate);
      }
      ClampedBetween(r, raw);
    }
  }

  lemma {:induction false} ClampedBetween(r: FeeConfig, raw: int)
    ensures var fee := Clamped(r, raw);
            && (r.cap > 0 ==> fee <= r.cap) && (fee > raw ==> fee <= r.minimum)
            && (fee < raw ==> r.cap > 0 && fee == r.cap)
            && (r.minimum > 0 && fee < r.minimum ==> r.cap > 0 && fee == r.cap)
  {
  }

  // ---- The query behind the cache ----

  /** `find({ where: { status: ACTIVE }, order: { priority: 'DESC' } })`. */
  function ActiveRules(table: seq<FeeConfig>): seq<FeeConfig> {
    ByPriority(Filter(table, Enabled()))
  }

  function Enabled(): FeeConfig -> bool {
    (r: FeeConfig) => r.enabled
  }

  lemma {:induction false} QueriedMatching(table: seq<FeeConfig>, t: TxType, amount: int, k: int)
    ensures Filter(ActiveRules(table), MatchingAt(t, amount, k)) == Filter(table, MatchingAt(t, amount, k))
    ensures forall x :: x in ActiveRules(table) <==> x in table && x.enabled
  {
    var active, best, atK := Filter(table, Enabled()), MatchingAt(t, amount, k), AtPriority(k);
    SortIsStable(active, k);
    FilterFilter(ByPriority(active), atK, best, best);
    FilterFilter(active, atK, best, best);
    FilterFilter(table, Enabled(), best, best);
  }

  /** Choosing among the queried rules is choosing among the whole table. */
  lemma {:induction false} QueryKeepsChoice(table: seq<FeeConfig>, t: TxType, amount: int)
    ensures Choice(ActiveRules(table), t, amount) == Choice(table, t, amount)
  {
    QueriedMatching(table, t, amount, 0);
    ChoiceIsBest(table, t, amount);
    ChoiceIsBest(ActiveRules(table), t, amount);
    if Choice(table, t, amount).Some? {
      QueriedMatching(table, t, amount, Choice(table, t, amount).value.priority);
      ChoiceHeadsFilter(table, t, amount);
      ChoiceHeadsFilter(ActiveRules(table), t, amount);
    }
  }

  // ---- The arithmetic of one rule ----

  predicate NonNegative(r: FeeConfig) {
    match r.kind
    case Flat(kobo) => kobo >= 0
    case Percentage(rate) => rate >= 0
    case Tiered(rate) => rate >= 0
  }

  /** An unclamped percentage fee is within half a kobo of the exact one, and a half is rounded up. */
  lemma {:induction false} RoundingError(amount: int, rate: int)
    ensures -500_000 < 1_000_000 * Rounded(amount, rate) - amount * rate <= 500_000
  {
    var x := amount * rate + UNITS / 2;
    assert x == UNITS * (x / UNITS) + x % UNITS;
  }

  lemma {:induction false} RoundedIsMonotone(a: int, b: int, rate: int)
    requires a <= b && rate >= 0
    ensures Rounded(a, rate) <= Rounded(b, rate)
  {
    assert a * rate <= b * rate by {
      assert (b - a) * rate >= 0;
    }
    RoundingError(a, rate);
    RoundingError(b, rate);
  }

  /** A larger amount never costs less; the cap is never exceeded; the minimum is reached unless the cap is lower. */
  lemma {:induction false} FeeIsMonotoneAndBounded(r: FeeConfig, a: int, b: int)
    requires NonNegative(r) && 0 <= a <= b
    ensures 0 <= Fee(r, a) <= Fee(r, b)
    ensures r.cap > 0 ==> Fee(r, a) <= r.cap
    ensures r.minimum > 0 && (r.cap <= 0 || r.minimum <= r.cap) ==> Fee(r, a) >= r.minimum
    ensures r.minimum > 0 && 0 < r.cap < r.minimum ==> Fee(r, a) == r.cap
  {
    if !r.kind.Flat? {
      RoundedIsMonotone(a, b, r.kind.rate);
      RoundedIsMonotone(0, a, r.kind.rate);
    }
  }

  // ---- Splitting an amount ----

  function Total(amounts: seq<int>): int {
    if amounts == [] then 0 else amounts[0] + Total(amounts[1..])
  }

  function Fees(r: FeeConfig, amounts: seq<int>): int {
    if amounts == [] then 0 else Fee(r, amounts[0]) + Fees(r, amounts[1..])
  }

  function RoundedSum(amounts: seq<int>, rate: int): int {
    if amounts == [] then 0 else Rounded(amounts[0], rate) + RoundedSum(amounts[1..], rate)
  }

  lemma {:induction false} ExactExceedsRounded(amounts: seq<int>, rate: int)
    ensures Total(amounts) * rate - UNITS * RoundedSum(amounts, rate) <= (UNITS / 2 - 1) * |amounts|
  {
    if amounts != [] {
      ExactExceedsRounded(amounts[1..], rate);
      RoundingError(amounts[0], rate);
      assert (amounts[0] + Total(amounts[1..])) * rate == amounts[0] * rate + Total(amounts[1..]) * rate;
    }
  }

  /** The most that rounding `n` parts separately can lose: each up to just under half a kobo, and then rounded. */
  function SplittingLoss(n: nat): (loss: nat)
    ensures 0 < n ==> loss <= n / 2
  {
    ((UNITS / 2 - 1) * n + UNITS / 2) / UNITS
  }

  lemma {:induction false} RoundedTotal(amounts: seq<int>, rate: int)
    ensures Rounded(Total(amounts), rate) <= RoundedSum(amounts, rate) + SplittingLoss(|amounts|)
  {
    ExactExceedsRounded(amounts, rate);
    var loss := (UNITS / 2 - 1) * |amounts| + UNITS / 2;
    DivideUp(Total(amounts) * rate + UNITS / 2, RoundedSum(amounts, rate), loss);
  }

  lemma {:induction false} DivideUp(x: int, q: int, rest: int)
    requires x <= UNITS * q + rest
    ensures x / UNITS <= q + rest / UNITS
  {
  }

  /** Either some part met the cap, or the parts' fees add up to at least their raw fees and each to the minimum. */
  lemma {:induction false} PartsBelowCap(r: FeeConfig, amounts: seq<int>)
    requires NonNegative(r) && forall i :: 0 <= i < |amounts| ==> amounts[i] >= 0
    ensures Fees(r, amounts) >= 0
    ensures (r.cap > 0 && Fees(r, amounts) >= r.cap)
            || (&& (!r.kind.Flat? ==> Fees(r, amounts) >= RoundedSum(amounts, r.kind.rate))
                && (amounts != [] ==> Fees(r, amounts) >= Clamped(r, 0))
                && (r.kind.Flat? && amounts != [] ==> Fees(r, amounts) >= Fee(r, 0)))
  {
    if amounts != [] {
      PartsBelowCap(r, amounts[1..]);
      FeeIsMonotoneAndBounded(r, 0, amounts[0]);
    }
  }

  /** Splitting an amount saves in fees what rounding loses and no more, through rounding, minimum and cap. */
  lemma {:induction false} SplittingBound(r: FeeConfig, amounts: seq<int>)
    requires NonNegative(r) && amounts != [] && forall i :: 0 <= i < |amounts| ==> amounts[i] > 0
    ensures Fee(r, Total(amounts)) <= Fees(r, amounts) + SplittingLoss(|amounts|)
    ensures Fee(r, Total(amounts)) <= Fees(r, amounts) + |amounts| / 2
  {
    PartsBelowCap(r, amounts);
    if !r.kind.Flat? {
      RoundedTotal(amounts, r.kind.rate);
    }
  }

  function Repeated(n: nat, x: int): (s: seq<int>)
    ensures |s| == n && forall i :: 0 <= i < n ==> s[i] == x
  {
    if n == 0 then [] else [x] + Repeated(n - 1, x)
  }

  lemma {:induction false} RepeatedTotals(r: FeeConfig, n: nat, x: int)
    ensures Total(Repeated(n, x)) == n * x
    ensures Fee(r, x) == 0 ==> Fees(r, Repeated(n, x)) == 0
  {
    if n > 0 {
      RepeatedTotals(r, n - 1, x);
      assert Repeated(n, x)[1..] == Repeated(n - 1, x);
    }
  }

  /** A rate of one ten-thousandth of a percent. */
  const ONE_UNIT := FeeConfig(0, "", Transfer, Percentage(1), 0, 0, 0, 0, true, 0)

  lemma {:induction false} OneUnitFee(amount: int)
    ensures Fee(ONE_UNIT, amount) == (amount + UNITS / 2) / UNITS
  {
    assert amount * 1 == amount;
  }

  /** The bound is attained for every n: payments just under half a kobo of fee each are free, and cost it together. */
  lemma {:induction false} SplittingBoundIsSharp(n: nat)
    requires n > 0
    ensures var amounts := Repeated(n, 499_999);
            |amounts| == n && Fees(ONE_UNIT, amounts) == 0 && Fee(ONE_UNIT, Total(amounts)) == SplittingLoss(n)
    ensures n <= 500_000 ==> SplittingLoss(n) == n / 2
  {
    OneUnitFee(UNITS / 2 - 1);
    RepeatedTotals(ONE_UNIT, n, UNITS / 2 - 1);
    OneUnitFee(n * (UNITS / 2 - 1));
    LossOfFew(n);
  }

  lemma {:induction false} LossOfFew(n: nat)
    ensures 0 < n <= UNITS / 2 ==> SplittingLoss(n) == n / 2
  {
    var q := n / 2;
    assert n == 2 * q || n == 2 * q + 1;
  }
}
