/**
  The rule cache when queries take time: fetches overlap with each other, with invalidations and with writes, and
  each of them finishes whenever it does.
 */
module FeeStaleness {
  import opened Outcomes
  import opened Ledger
  import opened Fees
  import opened FeeCache

  /** A query in flight: when it was sent, and what the database answered once it has. */
  datatype Fetch = Fetch(started: Millis, snapshot: Option<seq<FeeConfig>>)

  /** The service and the table, with the table's past and the rules handed out so far. */
  datatype Sys = Sys(
    now: Millis, table: seq<FeeConfig>, cache: Option<seq<FeeConfig>>, cacheExpiry: Millis, fetches: map<int, Fetch>,
    past: seq<(Millis, seq<FeeConfig>)>, uses: seq<(Millis, seq<FeeConfig>)>)

  datatype Step =
    | Ask(id: int)                        // getActiveRules is called: answered from the cache, or a query is sent
    | Read(id: int)                       // the database evaluates the query
    | Arrive(id: int)                     // the answer is cached and returned
    | Invalidate                          // invalidateCache
    | Write(table: seq<FeeConfig>)        // a write to the table takes effect

  predicate Possible(s: Sys, e: Step, now: Millis, maxFetch: nat) {
    && s.now <= now
    && match e
       case Ask(id) => id !in s.fetches
       case Read(id) => id in s.fetches && s.fetches[id].snapshot.None?
       case Arrive(id) => id in s.fetches && s.fetches[id].snapshot.Some? && now <= s.fetches[id].started + maxFetch
       case Invalidate => true
       case Write(_) => true
  }

  function Next(s: Sys, e: Step, now: Millis, maxFetch: nat): Sys
    requires Possible(s, e, now, maxFetch)
  {
    var table := if e.Write? then e.table else s.table;
    var t := s.(now := now, table := table, past := s.past + [(now, table)]);
    match e
    case Ask(id) =>
      if s.cache.Some? && now < s.cacheExpiry then t.(uses := s.uses + [(now, s.cache.value)])
      else t.(fetches := s.fetches[id := Fetch(now, None)])
    case Read(id) => t.(fetches := s.fetches[id := s.fetches[id].(snapshot := Some(ActiveRules(table)))])
    case Arrive(id) =>
      var rules := s.fetches[id].snapshot.value;
      t.(cache := Some(rules), cacheExpiry := now + CACHE_TTL_MS, fetches := s.fetches - {id},
         uses := s.uses + [(now, rules)])
    case Invalidate => t.(cache := None, cacheExpiry := 0)
    case Write(_) => t
  }

  function Start(table: seq<FeeConfig>, now: Millis): Sys {
    Sys(now, table, None, 0, map[], [], [])
  }

  predicate PossibleRun(s: Sys, run: seq<(Step, Millis)>, maxFetch: nat)
    decreases |run|
  {
    run != [] ==> Possible(s, run[0].0, run[0].1, maxFetch)
                  && PossibleRun(Next(s, run[0].0, run[0].1, maxFetch), run[1..], maxFetch)
  }

  function Final(s: Sys, run: seq<(Step, Millis)>, maxFetch: nat): Sys
    requires PossibleRun(s, run, maxFetch)
    decreases |run|
  {
    if run == [] then s else Final(Next(s, run[0].0, run[0].1, maxFetch), run[1..], maxFetch)
  }

  /** At some moment strictly after `from` and no later than `to` these were the table's active rules. */
  ghost predicate CurrentWithin(past: seq<(Millis, seq<FeeConfig>)>, rules: seq<FeeConfig>, from: Millis, to: Millis) {
    exists k :: 0 <= k < |past| && from < past[k].0 <= to && rules == ActiveRules(past[k].1)
  }

  ghost predicate FetchesBounded(s: Sys) {
    forall id :: id in s.fetches ==>
      && s.fetches[id].started <= s.now
      && (s.fetches[id].snapshot.Some? ==>
            CurrentWithin(s.past, s.fetches[id].snapshot.value, s.fetches[id].started - 1, s.now))
  }

  ghost predicate CacheBounded(s: Sys, maxFetch: nat) {
    s.cache.Some? ==> CurrentWithin(s.past, s.cache.value, s.cacheExpiry - CACHE_TTL_MS - maxFetch - 1, s.now)
  }

  ghost predicate UsesBounded(s: Sys, maxFetch: nat) {
    forall u :: 0 <= u < |s.uses| ==>
      CurrentWithin(s.past, s.uses[u].1, s.uses[u].0 - CACHE_TTL_MS - maxFetch, s.uses[u].0)
  }

  ghost predicate Bounded(s: Sys, maxFetch: nat) {
    FetchesBounded(s) && CacheBounded(s, maxFetch) && UsesBounded(s, maxFetch)
  }

  lemma {:induction false} Longer(past: seq<(Millis, seq<FeeConfig>)>, more: seq<(Millis, seq<FeeConfig>)>,
                                  rules: seq<FeeConfig>, from: Millis, to: Millis, from': Millis, to': Millis)
    requires CurrentWithin(past, rules, from, to) && past <= more && from' <= from && to <= to'
    ensures CurrentWithin(more, rules, from', to')
  {
    var k :| 0 <= k < |past| && from < past[k].0 <= to && rules == ActiveRules(past[k].1);
    assert more[k] == past[k];
  }

  lemma {:induction false} StepKeepsFetches(s: Sys, e: Step, now: Millis, maxFetch: nat)
    requires FetchesBounded(s) && Possible(s, e, now, maxFetch)
    ensures FetchesBounded(Next(s, e, now, maxFetch))
  {
    var t := Next(s, e, now, maxFetch);
    forall id | id in t.fetches && t.fetches[id].snapshot.Some?
      ensures CurrentWithin(t.past, t.fetches[id].snapshot.value, t.fetches[id].started - 1, now)
    {
      if e == Read(id) {
        assert t.past[|s.past|] == (now, t.table);
      } else {
        var from := t.fetches[id].started - 1;
        Longer(s.past, t.past, t.fetches[id].snapshot.value, from, s.now, from, now);
      }
    }
  }

  lemma {:induction false} StepKeepsCache(s: Sys, e: Step, now: Millis, maxFetch: nat)
    requires Bounded(s, maxFetch) && Possible(s, e, now, maxFetch)
    ensures CacheBounded(Next(s, e, now, maxFetch), maxFetch)
  {
    var t := Next(s, e, now, maxFetch);
    if t.cache.Some? {
      var from := t.cacheExpiry - CACHE_TTL_MS - maxFetch - 1;
      var from' := if e.Arrive? then s.fetches[e.id].started - 1 else from;
      Longer(s.past, t.past, t.cache.value, from', s.now, from, now);
    }
  }

  lemma {:induction false} StepKeepsUses(s: Sys, e: Step, now: Millis, maxFetch: nat)
    requires Bounded(s, maxFetch) && Possible(s, e, now, maxFetch)
    ensures UsesBounded(Next(s, e, now, maxFetch), maxFetch)
  {
    var t := Next(s, e, now, maxFetch);
    forall u | 0 <= u < |t.uses|
      ensures CurrentWithin(t.past, t.uses[u].1, t.uses[u].0 - CACHE_TTL_MS - maxFetch, t.uses[u].0)
    {
      var (at, rules) := t.uses[u];
      var from := at - CACHE_TTL_MS - maxFetch;
      if u < |s.uses| {
        assert s.uses[u] == t.uses[u];
        Longer(s.past, t.past, rules, from, at, from, at);
      } else {
        var from' := if e.Arrive? then s.fetches[e.id].started - 1 else s.cacheExpiry - CACHE_TTL_MS - maxFetch - 1;
        Longer(s.past, t.past, rules, from', s.now, from, at);
      }
    }
  }

  lemma {:induction false} RunKeepsBounded(s: Sys, run: seq<(Step, Millis)>, maxFetch: nat)
    requires Bounded(s, maxFetch) && PossibleRun(s, run, maxFetch)
    ensures Bounded(Final(s, run, maxFetch), maxFetch)
    decreases |run|
  {
    if run != [] {
      StepKeepsFetches(s, run[0].0, run[0].1, maxFetch);
      StepKeepsCache(s, run[0].0, run[0].1, maxFetch);
      StepKeepsUses(s, run[0].0, run[0].1, maxFetch);
      RunKeepsBounded(Next(s, run[0].0, run[0].1, maxFetch), run[1..], maxFetch);
    }
  }

  /**
    However fetches, invalidations and writes overlap, the rules used at any time were the active rules at some
    earlier moment less than the lifetime of the cache plus the longest fetch ago.
   */
  lemma {:induction false} StalenessIsBounded(table: seq<FeeConfig>, start: Millis, run: seq<(Step, Millis)>,
                                              maxFetch: nat)
    requires PossibleRun(Start(table, start), run, maxFetch)
    ensures var end := Final(Start(table, start), run, maxFetch);
            forall u :: 0 <= u < |end.uses| ==>
              CurrentWithin(end.past, end.uses[u].1, end.uses[u].0 - (300_000 + maxFetch), end.uses[u].0)
  {
    RunKeepsBounded(Start(table, start), run, maxFetch);
  }

  // ---- When a change has taken effect ----

  ghost predicate NothingWritten(run: seq<(Step, Millis)>) {
    forall i :: 0 <= i < |run| ==> !run[i].0.Write?
  }

  /** Whatever happens next, short of another write, only the table's active rules are used. */
  ghost predicate ServesTheTable(s: Sys, maxFetch: nat) {
    forall run :: PossibleRun(s, run, maxFetch) && NothingWritten(run) ==>
      var end := Final(s, run, maxFetch);
      forall u :: |s.uses| <= u < |end.uses| ==> end.uses[u].1 == ActiveRules(s.table)
  }

  /** The rules cached, if still live, and every answer that can still arrive are the table's active rules. */
  ghost predicate UpToDate(s: Sys, maxFetch: nat) {
    && (s.cache.Some? && s.now < s.cacheExpiry ==> s.cache.value == ActiveRules(s.table))
    && (forall id :: id in s.fetches && s.fetches[id].snapshot.Some? && s.now <= s.fetches[id].started + maxFetch ==>
          s.fetches[id].snapshot.value == ActiveRules(s.table))
  }

  lemma {:induction false} StepStaysUpToDate(s: Sys, e: Step, now: Millis, maxFetch: nat)
    requires UpToDate(s, maxFetch) && Possible(s, e, now, maxFetch) && !e.Write?
    ensures var t := Next(s, e, now, maxFetch);
            && UpToDate(t, maxFetch) && t.table == s.table && s.uses <= t.uses
            && forall u :: |s.uses| <= u < |t.uses| ==> t.uses[u].1 == ActiveRules(s.table)
  {
  }

  lemma {:induction false} UpToDateServesTheTable(s: Sys, run: seq<(Step, Millis)>, maxFetch: nat)
    requires UpToDate(s, maxFetch) && PossibleRun(s, run, maxFetch) && NothingWritten(run)
    ensures var end := Final(s, run, maxFetch);
            s.uses <= end.uses && forall u :: |s.uses| <= u < |end.uses| ==> end.uses[u].1 == ActiveRules(s.table)
    decreases |run|
  {
    if run != [] {
      var (e, now) := run[0];
      StepStaysUpToDate(s, e, now, maxFetch);
      UpToDateServesTheTable(Next(s, e, now, maxFetch), run[1..], maxFetch);
    }
  }

  lemma {:induction false} UnusedId(ids: set<int>) returns (fresh': int)
    ensures forall id :: id in ids ==> id < fresh'
    decreases |ids|
  {
    fresh' := 0;
    if id :| id in ids {
      var others := ids - {id};
      fresh' := UnusedId(others);
      assert forall x :: x in ids <==> x == id || x in others;
      fresh' := if id >= fresh' then id + 1 else fresh';
    }
  }

  lemma {:induction false} OneStep(s: Sys, e: Step, maxFetch: nat)
    requires Possible(s, e, s.now, maxFetch) && !e.Write? && ServesTheTable(s, maxFetch)
    ensures var end := Next(s, e, s.now, maxFetch);
            forall u :: |s.uses| <= u < |end.uses| ==> end.uses[u].1 == ActiveRules(s.table)
  {
    var end := Next(s, e, s.now, maxFetch);
    assert PossibleRun(end, [], maxFetch) && Final(end, [], maxFetch) == end;
    Unfold(s, [(e, s.now)], maxFetch);
  }

  /**
    From any state - so after any rule change, however made - only the current rules are used until the next write
    if and only if the cache is not live with others, and no query answered with others can still arrive.
   */
  lemma {:induction false} ServesTheTableIff(s: Sys, maxFetch: nat)
    ensures ServesTheTable(s, maxFetch) <==> UpToDate(s, maxFetch)
  {
    if UpToDate(s, maxFetch) {
      forall run | PossibleRun(s, run, maxFetch) && NothingWritten(run)
        ensures var end := Final(s, run, maxFetch);
                forall u :: |s.uses| <= u < |end.uses| ==> end.uses[u].1 == ActiveRules(s.table)
      {
        UpToDateServesTheTable(s, run, maxFetch);
      }
    }
    if ServesTheTable(s, maxFetch) {
      if s.cache.Some? && s.now < s.cacheExpiry {
        var id := UnusedId(s.fetches.Keys);
        OneStep(s, Ask(id), maxFetch);
        assert Next(s, Ask(id), s.now, maxFetch).uses[|s.uses|].1 == s.cache.value;
      }
      forall id | id in s.fetches && s.fetches[id].snapshot.Some? && s.now <= s.fetches[id].started + maxFetch
        ensures s.fetches[id].snapshot.value == ActiveRules(s.table)
      {
        OneStep(s, Arrive(id), maxFetch);
        assert Next(s, Arrive(id), s.now, maxFetch).uses[|s.uses|].1 == s.fetches[id].snapshot.value;
      }
    }
  }

  /**
    A rule change as the service makes it, whatever happens between the invalidation and the write it waits for,
    takes effect at once if and only if, when it is written, no other rules are cached and live, and no query
    already answered with other rules can still arrive.
   */
  lemma {:induction false} ChangeTakesEffectIff(s: Sys, at: Millis, between: seq<(Step, Millis)>, table: seq<FeeConfig>,
                                                now: Millis, maxFetch: nat)
    requires s.now <= at && PossibleRun(Next(s, Invalidate, at, maxFetch), between, maxFetch)
    requires Final(Next(s, Invalidate, at, maxFetch), between, maxFetch).now <= now
    ensures var before := Final(Next(s, Invalidate, at, maxFetch), between, maxFetch);
            ServesTheTable(Next(before, Write(table), now, maxFetch), maxFetch)
            <==> && (before.cache.Some? && now < before.cacheExpiry ==> before.cache.value == ActiveRules(table))
                 && forall id :: id in before.fetches && before.fetches[id].snapshot.Some?
                                 && now <= before.fetches[id].started + maxFetch ==>
                      before.fetches[id].snapshot.value == ActiveRules(table)
  {
    var before := Final(Next(s, Invalidate, at, maxFetch), between, maxFetch);
    ServesTheTableIff(Next(before, Write(table), now, maxFetch), maxFetch);
  }

  /** With no query in flight and none made while the write is awaited, a change takes effect at once. */
  lemma {:induction false} QuietChangeTakesEffect(s: Sys, at: Millis, table: seq<FeeConfig>, now: Millis, maxFetch: nat)
    requires s.now <= at <= now && s.fetches == map[]
    ensures ServesTheTable(Next(Next(s, Invalidate, at, maxFetch), Write(table), now, maxFetch), maxFetch)
  {
    ChangeTakesEffectIff(s, at, [], table, now, maxFetch);
  }

  /** A query answered while the write is awaited can fill the cache with the old rules, with nothing in flight. */
  lemma {:induction false} CacheCanRefillBeforeTheWrite(old': seq<FeeConfig>, new': seq<FeeConfig>, maxFetch: nat)
    ensures var run := [(Invalidate, 0), (Ask(1), 0), (Read(1), 0), (Arrive(1), 0), (Write(new'), 0)];
            && PossibleRun(Start(old', 0), run, maxFetch)
            && var end := Final(Start(old', 0), run, maxFetch);
               && end.table == new' && end.fetches == map[]
               && (ServesTheTable(end, maxFetch) <==> ActiveRules(old') == ActiveRules(new'))
  {
    var run := [(Invalidate, 0), (Ask(1), 0), (Read(1), 0), (Arrive(1), 0), (Write(new'), 0)];
    var s0 := Start(old', 0);
    var s1 := Next(s0, Invalidate, 0, maxFetch);
    var s2 := Next(s1, Ask(1), 0, maxFetch);
    var s3 := Next(s2, Read(1), 0, maxFetch);
    var s4 := Next(s3, Arrive(1), 0, maxFetch);
    var s5 := Next(s4, Write(new'), 0, maxFetch);
    Unfold(s4, run[4..], maxFetch);
    Unfold(s3, run[3..], maxFetch);
    Unfold(s2, run[2..], maxFetch);
    Unfold(s1, run[1..], maxFetch);
    Unfold(s0, run, maxFetch);
    ServesTheTableIff(s5, maxFetch);
  }

  /**
    The bound is attained, and invalidating does not prevent it: a query sent just before a rule change, answered
    as late as it may be, is cached after the invalidation and still served until the bound is all but reached.
   */
  lemma {:induction false} InvalidationCanBeUndone(old': seq<FeeConfig>, new': seq<FeeConfig>, maxFetch: nat)
    ensures var late := maxFetch + 300_000 - 1;
            var run := [(Ask(1), 0), (Read(1), 0), (Invalidate, 0), (Write(new'), 0),
                        (Arrive(1), maxFetch), (Ask(2), late)];
            && PossibleRun(Start(old', 0), run, maxFetch)
            && var end := Final(Start(old', 0), run, maxFetch);
               && end.table == new' && end.uses == [(maxFetch, ActiveRules(old')), (late, ActiveRules(old'))]
               && (ActiveRules(old') != ActiveRules(new') <==> end.uses[1].1 != ActiveRules(end.table))
  {
    var late := maxFetch + CACHE_TTL_MS - 1;
    var run := [(Ask(1), 0), (Read(1), 0), (Invalidate, 0), (Write(new'), 0), (Arrive(1), maxFetch), (Ask(2), late)];
    var s0 := Start(old', 0);
    var s1 := Next(s0, Ask(1), 0, maxFetch);
    var s2 := Next(s1, Read(1), 0, maxFetch);
    var s3 := Next(s2, Invalidate, 0, maxFetch);
    var s4 := Next(s3, Write(new'), 0, maxFetch);
    var s5 := Next(s4, Arrive(1), maxFetch, maxFetch);
    var s6 := Next(s5, Ask(2), late, maxFetch);
    Unfold(s5, run[5..], maxFetch);
    Unfold(s4, run[4..], maxFetch);
    Unfold(s3, run[3..], maxFetch);
    Unfold(s2, run[2..], maxFetch);
    Unfold(s1, run[1..], maxFetch);
    Unfold(s0, run, maxFetch);
  }

  lemma {:induction false} Unfold(s: Sys, run: seq<(Step, Millis)>, maxFetch: nat)
    requires run != [] && Possible(s, run[0].0, run[0].1, maxFetch)
    requires PossibleRun(Next(s, run[0].0, run[0].1, maxFetch), run[1..], maxFetch)
    ensures PossibleRun(s, run, maxFetch)
    ensures Final(s, run, maxFetch) == Final(Next(s, run[0].0, run[0].1, maxFetch), run[1..], maxFetch)
  {
  }
}
