/** The fee service with its cache of active rules, and what the cache is allowed to answer. */
module FeeCache {
  import opened Outcomes
  import opened Seqs
  import opened Ledger
  import opened Fees

  const CACHE_TTL_MS := 5 * 60 * 1000

  /** The table of rules, the cached query result if there is one, and the moment it stops being served. */
  datatype FeeState = FeeState(table: seq<FeeConfig>, cache: Option<seq<FeeConfig>>, cacheExpiry: Millis)
  {
    predicate Live(now: Millis) {
      cache.Some? && now < cacheExpiry
    }

    function RulesAt(now: Millis): seq<FeeConfig> {
      if Live(now) then cache.value else ActiveRules(table)
    }

    function Fetched(now: Millis): FeeState {
      if Live(now) then this else FeeState(table, Some(ActiveRules(table)), now + CACHE_TTL_MS)
    }

    function Invalidated(): FeeState {
      FeeState(table, None, 0)
    }
  }

  function FindRule(table: seq<FeeConfig>, id: int): (r: Option<nat>)
    ensures r.Some? ==> r.value < |table| && table[r.value].id == id
    ensures r.None? ==> forall i :: 0 <= i < |table| ==> table[i].id != id
  {
    Find(table, (r: FeeConfig) => r.id == id)
  }

  /** The body of an upsert: which rule, if an existing one is meant, and the columns given a value. */
  datatype FeeData = FeeData(
    id: Option<int>, name: string, txType: TxType, kind: FeeKind, cap: Option<int>, minimum: Option<int>,
    minAmount: Option<int>, maxAmount: Option<int>, enabled: Option<bool>, priority: Option<int>)

  /** What `base` becomes when the given columns are written to it. */
  function Merged(base: FeeConfig, data: FeeData): FeeConfig {
    FeeConfig(base.id, data.name, data.txType, data.kind, Or(data.cap, base.cap), Or(data.minimum, base.minimum),
              Or(data.minAmount, base.minAmount), Or(data.maxAmount, base.maxAmount), Or(data.enabled, base.enabled),
              Or(data.priority, base.priority))
  }

  /** The column defaults of a new row. */
  function Blank(id: int, t: TxType): FeeConfig {
    FeeConfig(id, "", t, Percentage(0), 0, 0, 0, 0, true, 0)
  }

  /** `save`: the existing row meant is updated, keeping columns not given; otherwise one with defaults is inserted. */
  function Saved(table: seq<FeeConfig>, data: FeeData, newId: int): Result<(seq<FeeConfig>, FeeConfig)> {
    if data.id.Some? && FindRule(table, data.id.value).Some? then
      var i := FindRule(table, data.id.value).value;
      Ok((table[i := Merged(table[i], data)], Merged(table[i], data)))
    else
      var rule := Merged(Blank(Or(data.id, newId), data.txType), data);
      if FindRule(table, rule.id).Some? then Err(UniqueViolation) else Ok((table + [rule], rule))
  }

  /** `update(id, { status: INACTIVE })`. */
  function Deactivated(table: seq<FeeConfig>, id: int): seq<FeeConfig> {
    if table == [] then []
    else [if table[0].id == id then table[0].(enabled := false) else table[0]] + Deactivated(table[1..], id)
  }

  /** Exactly the rule so identified is disabled; every other rule stays what it was. */
  lemma {:induction false} DeactivationIsExact(table: seq<FeeConfig>, id: int, i: nat)
    requires i < |table|
    ensures |Deactivated(table, id)| == |table|
    ensures Deactivated(table, id)[i] == if table[i].id == id then table[i].(enabled := false) else table[i]
  {
    if i > 0 {
      DeactivationIsExact(table[1..], id, i - 1);
    } else if |table| > 1 {
      DeactivationIsExact(table[1..], id, 0);
    }
  }

  /** The three default rules. */
  function Defaults(ids: (int, int, int)): seq<FeeConfig> {
    [ FeeConfig(ids.0, "Standard Transfer Fee", Transfer, Percentage(15_000), 500_00, 10_00, 0, 0, true, 1),
      FeeConfig(ids.1, "Withdrawal Fee", Withdrawal, Flat(2500), 0, 0, 0, 0, true, 1),
      FeeConfig(ids.2, "Free Deposit", Deposit, Flat(0), 0, 0, 0, 0, true, 1) ]
  }

  class FeesService {
    var cache: Option<seq<FeeConfig>>
    var cacheExpiry: Millis
    var table: seq<FeeConfig>

    ghost function State(): FeeState
      reads this
    {
      FeeState(table, cache, cacheExpiry)
    }

    constructor ()
      ensures State() == FeeState([], None, 0)
    {
      cache, cacheExpiry, table := None, 0, [];
    }

    method GetActiveRules(now: Millis) returns (rules: seq<FeeConfig>)
      modifies this
      ensures rules == old(State().RulesAt(now))
      ensures State() == old(State().Fetched(now))
    {
      if cache.Some? && now < cacheExpiry {
        return cache.value;
      }
      cache := Some(ActiveRules(table));
      cacheExpiry := now + CACHE_TTL_MS;
      return cache.value;
    }

    method InvalidateCache()
      modifies this
      ensures State() == old(State().Invalidated())
    {
      cache := None;
      cacheExpiry := 0;
    }

    /** The chosen rule is picked from a filtered copy, so the cached order is as the query left it. */
    method Calculate(t: TxType, amountKobo: int, now: Millis) returns (r: FeeCalculation)
      modifies this
      ensures r == Calculation(old(State().RulesAt(now)), t, amountKobo)
      ensures State() == old(State().Fetched(now))
    {
      var rules := GetActiveRules(now);
      var applicable := ByPriority(Applicable(rules, t, amountKobo));
      if |applicable| == 0 {
        return FeeCalculation(0, "none");
      }
      var rule := applicable[0];
      var rawFeeKobo;
      match rule.kind {
        case Flat(kobo) => rawFeeKobo := kobo;
        case Percentage(rate) => rawFeeKobo := Rounded(amountKobo, rate);
        case Tiered(rate) => rawFeeKobo := Rounded(amountKobo, rate);
      }
      if rule.minimum > 0 {
        rawFeeKobo := if rawFeeKobo < rule.minimum then rule.minimum else rawFeeKobo;
      }
      if rule.cap > 0 {
        rawFeeKobo := if rawFeeKobo > rule.cap then rule.cap else rawFeeKobo;
      }
      return FeeCalculation(rawFeeKobo, rule.name);
    }

    method Upsert(data: FeeData, newId: int) returns (r: Result<FeeConfig>)
      modifies this
      ensures State() == FeeState(Upserted(old(table), data, newId), None, 0)
      ensures var saved := Saved(old(table), data, newId);
              r == if saved.Ok? then Ok(saved.value.1) else Err(saved.error)
    {
      InvalidateCache();
      var saved :- Saved(table, data, newId);
      table := saved.0;
      return Ok(saved.1);
    }

    method Deactivate(id: int)
      modifies this
      ensures State() == FeeState(Deactivated(old(table), id), None, 0)
      ensures |table| == |old(table)|
      ensures forall i :: 0 <= i < |table| ==>
                table[i] == if old(table)[i].id == id then old(table)[i].(enabled := false) else old(table)[i]
    {
      InvalidateCache();
      if table != [] {
        DeactivationIsExact(table, id, 0);
      }
      forall i: nat | i < |table| {
        DeactivationIsExact(table, id, i);
      }
      table := Deactivated(table, id);
    }

    /** Unlike the other two writers, this one leaves the cache alone. */
    method SeedDefaults(ids: (int, int, int))
      modifies this
      ensures State() == Seeded(old(State()), ids)
    {
      if |table| > 0 {
        return;
      }
      table := table + Defaults(ids);
    }
  }

  function Upserted(table: seq<FeeConfig>, data: FeeData, newId: int): seq<FeeConfig> {
    var saved := Saved(table, data, newId);
    if saved.Ok? then saved.value.0 else table
  }

  function Seeded(s: FeeState, ids: (int, int, int)): FeeState {
    if s.table != [] then s else s.(table := Defaults(ids))
  }

  // ---- Runs of calculate, upsert and deactivate ----

  datatype FeeOp = Calculate(t: TxType, amount: int) | Upsert(data: FeeData, newId: int) | Deactivate(id: int)

  function Written(table: seq<FeeConfig>, op: FeeOp): seq<FeeConfig> {
    match op
    case Calculate(_, _) => table
    case Upsert(data, newId) => Upserted(table, data, newId)
    case Deactivate(id) => Deactivated(table, id)
  }

  function After(s: FeeState, op: FeeOp, now: Millis): FeeState {
    if op.Calculate? then s.Fetched(now) else FeeState(Written(s.table, op), None, 0)
  }

  /** Every calculation of a run, in order, as the service answers it. */
  function Answers(s: FeeState, run: seq<(FeeOp, Millis)>): seq<FeeCalculation>
    decreases |run|
  {
    if run == [] then []
    else
      var (op, now) := run[0];
      (if op.Calculate? then [Calculation(s.RulesAt(now), op.t, op.amount)] else [])
      + Answers(After(s, op, now), run[1..])
  }

  /** The same calculations made directly from the table, with no cache. */
  function Uncached(table: seq<FeeConfig>, run: seq<(FeeOp, Millis)>): seq<FeeCalculation>
    decreases |run|
  {
    if run == [] then []
    else
      var (op, _) := run[0];
      (if op.Calculate? then [Calculation(table, op.t, op.amount)] else []) + Uncached(Written(table, op), run[1..])
  }

  predicate Coherent(s: FeeState) {
    s.cache.Some? ==> s.cache.value == ActiveRules(s.table)
  }

  /** Whatever the times, a run cannot tell the cached service from one that reads the table every time. */
  lemma {:induction false} CacheIsInvisible(s: FeeState, run: seq<(FeeOp, Millis)>)
    requires Coherent(s)
    ensures Answers(s, run) == Uncached(s.table, run)
    decreases |run|
  {
    if run != [] {
      var (op, now) := run[0];
      if op.Calculate? {
        QueryKeepsChoice(s.table, op.t, op.amount);
      }
      CacheIsInvisible(After(s, op, now), run[1..]);
    }
  }

  // ---- What the writers mean for the next choice ----

  lemma {:induction false} DeactivatedMatching(table: seq<FeeConfig>, id: int, t: TxType, amount: int, k: int)
    ensures Filter(Deactivated(table, id), MatchingAt(t, amount, k))
            == Filter(Filter(table, (r: FeeConfig) => r.id != id), MatchingAt(t, amount, k))
    ensures forall x :: x in Deactivated(table, id) && x.enabled <==> x in table && x.enabled && x.id != id
  {
    if table != [] {
      DeactivatedMatching(table[1..], id, t, amount, k);
      var rest := Deactivated(table[1..], id);
      assert Deactivated(table, id)[1..] == rest;
      assert forall x :: x in table <==> x == table[0] || x in table[1..];
      assert forall x :: x in Deactivated(table, id) <==> x == Deactivated(table, id)[0] || x in rest;
      if table[0].id != id {
        var others := Filter(table[1..], (r: FeeConfig) => r.id != id);
        assert ([table[0]] + others)[1..] == others;
      }
    }
  }

  /** Deactivating a rule is, for every later choice, the same as that rule not being in the table. */
  lemma {:induction false} DeactivatedRuleIsGone(table: seq<FeeConfig>, id: int, t: TxType, amount: int)
    ensures Choice(Deactivated(table, id), t, amount) == Choice(Filter(table, (r: FeeConfig) => r.id != id), t, amount)
    ensures Choice(Deactivated(table, id), t, amount).Some? ==> Choice(Deactivated(table, id), t, amount).value.id != id
  {
    var others := Filter(table, (r: FeeConfig) => r.id != id);
    DeactivatedMatching(table, id, t, amount, 0);
    ChoiceIsBest(Deactivated(table, id), t, amount);
    ChoiceIsBest(others, t, amount);
    assert forall x :: x in others && Matches(x, t, amount) <==> x in Deactivated(table, id) && Matches(x, t, amount);
    if Choice(others, t, amount).Some? {
      DeactivatedMatching(table, id, t, amount, Choice(others, t, amount).value.priority);
      ChoiceHeadsFilter(others, t, amount);
      ChoiceHeadsFilter(Deactivated(table, id), t, amount);
    }
  }

  /** An upsert that is stored and outranks every other match decides the very next choice. */
  lemma {:induction false} StoredRuleDecides(table: seq<FeeConfig>, data: FeeData, newId: int, t: TxType, amount: int)
    requires Saved(table, data, newId).Ok?
    requires var rule := Saved(table, data, newId).value.1;
             Matches(rule, t, amount) && forall r :: r in table && Matches(r, t, amount) ==> r.priority < rule.priority
    ensures Choice(Upserted(table, data, newId), t, amount) == Some(Saved(table, data, newId).value.1)
  {
    var (saved, rule) := Saved(table, data, newId).value;
    assert rule in saved by {
      var found := if data.id.Some? then FindRule(table, data.id.value) else None;
      assert saved[if found.Some? then found.value else |table|] == rule;
    }
    ChoiceIsBest(saved, t, amount);
  }

  /** What the operations of a run do to the table: a calculation nothing, an upsert and a deactivation their part. */
  lemma {:induction false} RunsWrite(s: FeeState, op: FeeOp, now: Millis)
    ensures var t := After(s, op, now);
            match op
            case Calculate(_, _) => t.table == s.table && t.RulesAt(now) == s.RulesAt(now)
            case Upsert(data, newId) => t == FeeState(Upserted(s.table, data, newId), None, 0)
            case Deactivate(id) =>
              && t.cache == None && |t.table| == |s.table|
              && forall i :: 0 <= i < |s.table| ==>
                   t.table[i] == if s.table[i].id == id then s.table[i].(enabled := false) else s.table[i]
  {
    if op.Deactivate? {
      assert s.table == [] ==> Deactivated(s.table, op.id) == [];
      if s.table != [] {
        DeactivationIsExact(s.table, op.id, 0);
      }
      forall i: nat | i < |s.table| {
        DeactivationIsExact(s.table, op.id, i);
      }
    }
  }

  /** What an upsert stores, column by column; every other rule stays, and an insertion comes last. */
  lemma {:induction false} UpsertStores(table: seq<FeeConfig>, data: FeeData, newId: int)
    ensures var known := exists i :: 0 <= i < |table| && data.id == Some(table[i].id);
            var after, saved := Upserted(table, data, newId), Saved(table, data, newId);
            && (known ==>
                  && saved.Ok? && |after| == |table|
                  && exists i :: 0 <= i < |table| && data.id == Some(table[i].id) && after[i] == saved.value.1
                       && (forall j :: 0 <= j < |table| && j != i ==> after[j] == table[j])
                       && Given(data, after[i], table[i]) && after[i].id == table[i].id)
            && (!known ==>
                  var id := if data.id.Some? then data.id.value else newId;
                  if exists i :: 0 <= i < |table| && table[i].id == id then
                    saved == Err(UniqueViolation) && after == table
                  else
                    && saved.Ok? && after == table + [saved.value.1] && saved.value.1.id == id
                    && Given(data, saved.value.1, FeeConfig(id, "", data.txType, Percentage(0), 0, 0, 0, 0, true, 0)))
  {
    var found := if data.id.Some? then FindRule(table, data.id.value) else None;
    if found.Some? {
      assert data.id == Some(table[found.value].id);
    }
  }

  /** `after` has the columns given, and of the others those of `before`. */
  predicate Given(data: FeeData, after: FeeConfig, before: FeeConfig) {
    && after.name == data.name && after.txType == data.txType && after.kind == data.kind
    && (if data.cap.Some? then after.cap == data.cap.value else after.cap == before.cap)
    && (if data.minimum.Some? then after.minimum == data.minimum.value else after.minimum == before.minimum)
    && (if data.minAmount.Some? then after.minAmount == data.minAmount.value else after.minAmount == before.minAmount)
    && (if data.maxAmount.Some? then after.maxAmount == data.maxAmount.value else after.maxAmount == before.maxAmount)
    && (if data.enabled.Some? then after.enabled == data.enabled.value else after.enabled == before.enabled)
    && (if data.priority.Some? then after.priority == data.priority.value else after.priority == before.priority)
  }

  /** Rules fetched are served for five minutes, whatever becomes of the table; then, or invalidated, the table is. */
  lemma {:induction false} CacheLastsFiveMinutes(s: FeeState, now: Millis, later: Millis, table: seq<FeeConfig>)
    requires !s.Live(now)
    ensures var fetched := s.Fetched(now).(table := table);
            && fetched.RulesAt(later) == ActiveRules(if later < now + 300_000 then s.table else table)
            && fetched.Invalidated().RulesAt(later) == ActiveRules(table)
  {
  }

  // ---- Seeding ----

  /** Seeding keeps the served rules current at `t` exactly when it does nothing or nothing cached is live at `t`. */
  lemma {:induction false} SeedingStaysCurrentIff(s: FeeState, ids: (int, int, int), t: Millis)
    requires Coherent(s)
    ensures Seeded(s, ids).RulesAt(t) == ActiveRules(Seeded(s, ids).table) <==> s.table != [] || !s.Live(t)
  {
    if s.table == [] {
      var d := Defaults(ids);
      SortIsStable(Filter(d, Enabled()), 0);
      assert d[0] in d && d[0] in Filter(d, Enabled()) && d[0] in ActiveRules(d);
    }
  }

  /** What the default rules charge: 1.5% between 10.00 and 500.00 on transfers, 25.00 on withdrawals, nothing else. */
  lemma {:induction false} DefaultFees(amount: int, ids: (int, int, int)) returns (raw: int)
    requires amount >= 0
    ensures -500_000 < 1_000_000 * raw - amount * 15_000 <= 500_000
    ensures Calculation(Defaults(ids), Transfer, amount).feeInKobo
            == if raw < 1_000 then 1_000 else if raw > 50_000 then 50_000 else raw
    ensures Calculation(Defaults(ids), Withdrawal, amount).feeInKobo == 2_500
    ensures Calculation(Defaults(ids), Deposit, amount).feeInKobo == 0
  {
    var d := Defaults(ids);
    raw := Rounded(amount, 15_000);
    RoundingError(amount, 15_000);
    var i := ChoiceByColumns(d, Transfer, amount);
    var j := ChoiceByColumns(d, Withdrawal, amount);
    var k := ChoiceByColumns(d, Deposit, amount);
    assert d[0].txType == Transfer && d[1].txType == Withdrawal && d[2].txType == Deposit;
  }

  /** A transfer quoted before seeding keeps transfers free for the next five minutes, though a fee is now due. */
  lemma {:induction false} SeedingCanLeaveTransfersFree(now: Millis, later: Millis, amount: int, ids: (int, int, int))
    requires now <= later < now + 300_000
    ensures var quoted := FeeState([], None, 0).Fetched(now);
            var seeded := Seeded(quoted, ids);
            && Calculation(seeded.RulesAt(later), Transfer, amount).feeInKobo == 0
            && (amount >= 0 ==> Calculation(seeded.table, Transfer, amount).feeInKobo >= 10_00)
  {
    var d := Defaults(ids);
    if amount >= 0 {
      var i := ChoiceIsFirstBest(d, Transfer, amount);
      assert Matches(d[0], Transfer, amount) && !Matches(d[1], Transfer, amount) && !Matches(d[2], Transfer, amount);
      FeeIsMonotoneAndBounded(d[0], amount, amount);
    }
  }
}
