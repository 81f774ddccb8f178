/** Wallet tiers and the monthly spending limit, over a concrete calendar. */
module Wallets {
  import opened Outcomes

  const DAY_MS := 24 * 60 * 60 * 1000

  type Instant = nat       // milliseconds since the start of 1970, in the server's time zone

  // ---- The calendar ----

  predicate IsLeap(year: nat) {
    year % 4 == 0 && (year % 100 != 0 || year % 400 == 0)
  }

  /** The length of a month; months are numbered from January 1970. */
  function DaysIn(month: nat): (days: nat)
    ensures 28 <= days <= 31
  {
    var m := month % 12;
    if m == 1 then (if IsLeap(1970 + month / 12) then 29 else 28)
    else if m == 3 || m == 5 || m == 8 || m == 10 then 30 else 31
  }

  /** The first instant of a month. */
  function StartOf(month: nat): Instant {
    if month == 0 then 0 else StartOf(month - 1) + DaysIn(month - 1) * DAY_MS
  }

  function MonthFrom(t: Instant, month: nat): (m: nat)
    requires StartOf(month) <= t
    ensures StartOf(m) <= t < StartOf(m + 1)
    decreases t - StartOf(month)
  {
    if t < StartOf(month + 1) then month else MonthFrom(t, month + 1)
  }

  function MonthOf(t: Instant): (m: nat)
    ensures StartOf(m) <= t < StartOf(m + 1)
  {
    MonthFrom(t, 0)
  }

  /** `new Date(now.getFullYear(), now.getMonth() + 1, 1)`. */
  function NextMonthStart(now: Instant): (t: Instant)
    ensures t > now
  {
    StartOf(MonthOf(now) + 1)
  }

  lemma {:induction false} StartsAscend(a: nat, b: nat)
    requires a < b
    ensures StartOf(a) < StartOf(b)
    decreases b
  {
    if a < b - 1 {
      StartsAscend(a, b - 1);
    }
  }

  lemma {:induction false} StartsAscendWeakly(a: nat, b: nat)
    requires a <= b
    ensures StartOf(a) <= StartOf(b)
  {
    if a < b {
      StartsAscend(a, b);
    }
  }

  lemma {:induction false} InOneMonth(t: Instant, k: nat, m: nat)
    requires StartOf(k) <= t < StartOf(k + 1) && StartOf(m) <= t < StartOf(m + 1)
    ensures k == m
  {
    if k < m {
      StartsAscendWeakly(k + 1, m);
    } else if m < k {
      StartsAscendWeakly(m + 1, k);
    }
  }

  lemma {:induction false} MonthIsUnique(t: Instant, m: nat)
    requires StartOf(m) <= t < StartOf(m + 1)
    ensures MonthOf(t) == m
  {
    InOneMonth(t, MonthOf(t), m);
  }

  // ---- Wallets ----

  datatype Tier = Basic | Standard | Premium
  datatype Limits = Limits(daily: int, single: int, monthly: int)

  function TierLimits(t: Tier): Limits {
    match t
    case Basic => Limits(100_000_00, 50_000_00, 500_000_00)
    case Standard => Limits(500_000_00, 200_000_00, 2_000_000_00)
    case Premium => Limits(5_000_000_00, 2_000_000_00, 20_000_000_00)
  }

  datatype Wallet = Wallet(
    accountId: nat, tier: Tier, dailyLimit: int, singleLimit: int, monthlySpend: int, monthlyLimit: int,
    spendResetDate: Option<Instant>)

  function NewWallet(accountId: nat): Wallet {
    Wallet(accountId, Basic, 100_000_00, 50_000_00, 0, 500_000_00, None)
  }

  datatype Refusal = WalletNotFound | OverSingleLimit | OverMonthlyLimit

  /** The wallet with its spending started afresh, if the reset date has passed. */
  function Refreshed(w: Wallet, now: Instant): Wallet {
    if w.spendResetDate.None? || now > w.spendResetDate.value then
      w.(monthlySpend := 0, spendResetDate := Some(NextMonthStart(now)))
    else w
  }

  /** What validation leaves in the database, and why it refuses if it does. */
  function Validated(w: Wallet, amount: int, now: Instant): (Wallet, Option<Refusal>) {
    if amount > w.singleLimit then (w, Some(OverSingleLimit))
    else
      var current := Refreshed(w, now);
      (current, if current.monthlySpend + amount > current.monthlyLimit then Some(OverMonthlyLimit) else None)
  }

  function Recorded(w: Wallet, amount: int): Wallet {
    w.(monthlySpend := w.monthlySpend + amount)
  }

  function Upgraded(w: Wallet, tier: Tier): Wallet {
    var limits := TierLimits(tier);
    w.(tier := tier, dailyLimit := limits.daily, singleLimit := limits.single, monthlyLimit := limits.monthly)
  }

  class WalletsService {
    var wallets: map<nat, Wallet>

    constructor ()
      ensures wallets == map[]
    {
      wallets := map[];
    }

    method CreateForAccount(id: nat, accountId: nat)
      requires id !in wallets
      modifies this
      ensures wallets == old(wallets)[id := NewWallet(accountId)]
    {
      wallets := wallets[id := NewWallet(accountId)];
    }

    method ValidateSpendLimit(walletId: nat, amountInKobo: int, now: Instant) returns (refusal: Option<Refusal>)
      modifies this
      ensures walletId !in old(wallets) ==> refusal == Some(WalletNotFound) && wallets == old(wallets)
      ensures walletId in old(wallets) ==>
                var (w, why) := Validated(old(wallets)[walletId], amountInKobo, now);
                refusal == why && wallets == old(wallets)[walletId := w]
    {
      if walletId !in wallets {
        return Some(WalletNotFound);
      }
      var wallet := wallets[walletId];
      if amountInKobo > wallet.singleLimit {
        assert wallets == wallets[walletId := wallet];
        return Some(OverSingleLimit);
      }
      if wallet.spendResetDate.None? || now > wallet.spendResetDate.value {
        wallet := wallet.(monthlySpend := 0);
        wallet := wallet.(spendResetDate := Some(NextMonthStart(now)));
        wallets := wallets[walletId := wallet];
      }
      assert wallets == old(wallets)[walletId := wallet];
      if wallet.monthlySpend + amountInKobo > wallet.monthlyLimit {
        return Some(OverMonthlyLimit);
      }
      return None;
    }

    method RecordSpend(walletId: nat, amountInKobo: int)
      modifies this
      ensures walletId in old(wallets) ==>
                wallets == old(wallets)[walletId := Recorded(old(wallets)[walletId], amountInKobo)]
      ensures walletId !in old(wallets) ==> wallets == old(wallets)
    {
      if walletId in wallets {
        var w := wallets[walletId];
        wallets := wallets[walletId := w.(monthlySpend := w.monthlySpend + amountInKobo)];
      }
    }

    method UpgradeTier(accountId: nat, tier: Tier) returns (refusal: Option<Refusal>)
      modifies this
      ensures (forall id :: id in old(wallets) ==> old(wallets)[id].accountId != accountId) ==>
                refusal == Some(WalletNotFound) && wallets == old(wallets)
      ensures (exists id :: id in old(wallets) && old(wallets)[id].accountId == accountId) ==>
                && refusal == None
                && exists id :: id in old(wallets) && old(wallets)[id].accountId == accountId
                                && wallets == old(wallets)[id := Upgraded(old(wallets)[id], tier)]
    {
      if walletId :| walletId in wallets && wallets[walletId].accountId == accountId {
        var wallet := wallets[walletId];
        var limits := TierLimits(tier);
        wallet := wallet.(tier := tier, dailyLimit := limits.daily);
        wallet := wallet.(singleLimit := limits.single);
        wallet := wallet.(monthlyLimit := limits.monthly);
        wallets := wallets[walletId := wallet];
        return None;
      }
      return Some(WalletNotFound);
    }
  }

  // ---- Runs of one wallet ----

  /** A spend that is validated and, if accepted, recorded in one step; or a change of tier, up or down. */
  datatype Event = Spend(amount: nat, now: Instant) | ChangeTier(tier: Tier)

  predicate Accepts(w: Wallet, e: Event) {
    e.Spend? && Validated(w, e.amount, e.now).1.None?
  }

  function After(w: Wallet, e: Event): Wallet {
    match e
    case ChangeTier(tier) => Upgraded(w, tier)
    case Spend(amount, now) =>
      var validated := Validated(w, amount, now).0;
      if Accepts(w, e) then Recorded(validated, amount) else validated
  }

  function Run(w: Wallet, events: seq<Event>): Wallet {
    if events == [] then w
    else After(Run(w, events[..|events| - 1]), events[|events| - 1])
  }

  predicate Clocked(events: seq<Event>) {
    forall i, j :: 0 <= i < j < |events| && events[i].Spend? && events[j].Spend? ==> events[i].now <= events[j].now
  }

  /** The total of the accepted spends dated strictly after one instant and no later than another. */
  function AcceptedIn(w: Wallet, events: seq<Event>, after: int, upTo: int): int {
    if events == [] then 0
    else
      var before, e := events[..|events| - 1], events[|events| - 1];
      AcceptedIn(w, before, after, upTo)
      + (if Accepts(Run(w, before), e) && after < e.now <= upTo then e.amount else 0)
  }

  /** Counted spending covers the window's, and will not be started afresh before the window ends. */
  ghost predicate Covers(w: Wallet, total: int, month: nat) {
    && w.monthlySpend >= 0 && total >= 0
    && (w.spendResetDate.Some? ==> exists m: nat :: w.spendResetDate.value == StartOf(m))
    && (total > 0 ==>
          w.monthlySpend >= total && w.spendResetDate.Some? && w.spendResetDate.value >= StartOf(month + 1))
  }

  lemma {:induction false} LaterStart(t: Instant, month: nat, m: nat)
    requires StartOf(month) < t <= StartOf(m)
    ensures StartOf(month + 1) <= StartOf(m)
  {
    if m <= month {
      if m < month {
        StartsAscend(m, month);
      }
      assert false;
    }
    if month + 1 < m {
      StartsAscend(month + 1, m);
    }
  }

  lemma {:induction false} SpendKeepsCovers(w: Wallet, total: int, e: Event, month: nat)
    requires Covers(w, total, month) && (e.Spend? ==> e.now <= StartOf(month + 1))
    ensures Covers(After(w, e), total + (if Accepts(w, e) && StartOf(month) < e.now then e.amount else 0), month)
  {
    if e.Spend? && e.amount <= w.singleLimit {
      var current := Refreshed(w, e.now);
      if current != w {
        assert current.spendResetDate.value == StartOf(MonthOf(e.now) + 1);
      }
      var m: nat :| current.spendResetDate.value == StartOf(m);
      if StartOf(month) < e.now {
        LaterStart(e.now, month, m);
      }
    }
  }

  lemma {:induction false} RunCovers(accountId: nat, events: seq<Event>, month: nat)
    requires forall i :: 0 <= i < |events| && events[i].Spend? ==> events[i].now <= StartOf(month + 1)
    ensures var w := NewWallet(accountId);
            Covers(Run(w, events), AcceptedIn(w, events, StartOf(month), StartOf(month + 1)), month)
  {
    if events != [] {
      var before, e := events[..|events| - 1], events[|events| - 1];
      RunCovers(accountId, before, month);
      var w := NewWallet(accountId);
      SpendKeepsCovers(Run(w, before), AcceptedIn(w, before, StartOf(month), StartOf(month + 1)), e, month);
    }
  }

  /** Event `k` is an accepted spend dated in the window. */
  predicate Counts(w: Wallet, events: seq<Event>, k: nat, after: int, upTo: int) {
    k < |events| && Accepts(Run(w, events[..k]), events[k]) && after < events[k].now <= upTo
  }

  /** A window's total is complete at the last spend that counts. */
  lemma {:induction false} CompleteAtLast(w: Wallet, events: seq<Event>, after: int, upTo: int) returns (k: nat)
    ensures AcceptedIn(w, events, after, upTo) == 0
            || (&& Counts(w, events, k, after, upTo)
                && AcceptedIn(w, events, after, upTo) == AcceptedIn(w, events[..k], after, upTo) + events[k].amount)
  {
    k := 0;
    if events != [] {
      var last := |events| - 1;
      var before := events[..last];
      if Counts(w, events, last, after, upTo) {
        k := last;
      } else {
        k := CompleteAtLast(w, before, after, upTo);
        assert AcceptedIn(w, before, after, upTo) != 0 ==> before[..k] == events[..k];
      }
    }
  }

  /**
    The accepted spends dated after the first instant of a month and up to the first of the next add up to no more
    than the monthly limit in force at the last of them - whatever tiers the wallet had meanwhile.
   */
  lemma {:induction false} MonthlySpendIsLimited(accountId: nat, events: seq<Event>, month: nat) returns (k: nat)
    requires Clocked(events)
    ensures var w, from, to := NewWallet(accountId), StartOf(month), StartOf(month + 1);
            AcceptedIn(w, events, from, to) == 0
            || (&& Counts(w, events, k, from, to)
                && AcceptedIn(w, events, from, to) == AcceptedIn(w, events[..k], from, to) + events[k].amount
                && AcceptedIn(w, events, from, to) <= Run(w, events[..k]).monthlyLimit)
  {
    var w, from, to := NewWallet(accountId), StartOf(month), StartOf(month + 1);
    k := CompleteAtLast(w, events, from, to);
    if AcceptedIn(w, events, from, to) != 0 {
      RunCovers(accountId, events[..k], month);
      MonthIsCovered(Run(w, events[..k]), AcceptedIn(w, events[..k], from, to), events[k], month);
    }
  }

  lemma {:induction false} MonthIsCovered(w: Wallet, total: int, e: Event, month: nat)
    requires Covers(w, total, month) && Accepts(w, e) && StartOf(month) < e.now <= StartOf(month + 1)
    ensures total + e.amount <= w.monthlyLimit
  {
  }

  // ---- The boundary instant ----

  lemma {:induction false} WindowsAdd(w: Wallet, events: seq<Event>, a: int, b: int, c: int, d: int)
    requires a <= b <= c <= d
    ensures AcceptedIn(w, events, a, c) <= AcceptedIn(w, events, a, b) + AcceptedIn(w, events, b, d)
  {
    if events != [] {
      WindowsAdd(w, events[..|events| - 1], a, b, c, d);
    }
  }

  lemma {:induction false} WiderWindow(w: Wallet, events: seq<Event>, after: int, upTo: int, later: int)
    requires upTo <= later
    ensures AcceptedIn(w, events, after, upTo) <= AcceptedIn(w, events, after, later)
  {
    if events != [] {
      WiderWindow(w, events[..|events| - 1], after, upTo, later);
    }
  }

  /**
    A calendar month's spending exceeds the limit in force at its last spend, dated within the month, by no more
    than what was spent at its very first instant.
   */
  lemma {:induction false} CalendarMonthIsLimitedButForItsFirstInstant(accountId: nat, events: seq<Event>, month: nat)
      returns (k: nat)
    requires Clocked(events)
    ensures var w, start, next := NewWallet(accountId), StartOf(month), StartOf(month + 1);
            var inMonth, atFirst := AcceptedIn(w, events, start - 1, next - 1), AcceptedIn(w, events, start - 1, start);
            inMonth <= atFirst
            || (Counts(w, events, k, start, next - 1) && inMonth <= atFirst + Run(w, events[..k]).monthlyLimit)
  {
    var w := NewWallet(accountId);
    StartsAscend(month, month + 1);
    k := FirstInstantAside(w, events, StartOf(month), StartOf(month + 1));
    if Counts(w, events, k, StartOf(month), StartOf(month + 1) - 1) {
      RunCovers(accountId, events[..k], month);
      var total := AcceptedIn(w, events[..k], StartOf(month), StartOf(month + 1));
      MonthIsCovered(Run(w, events[..k]), total, events[k], month);
    }
  }

  lemma {:induction false} FirstInstantAside(w: Wallet, events: seq<Event>, start: int, next: int) returns (k: nat)
    requires start < next
    ensures var inMonth, atFirst := AcceptedIn(w, events, start - 1, next - 1), AcceptedIn(w, events, start - 1, start);
            inMonth <= atFirst
            || (&& Counts(w, events, k, start, next - 1)
                && inMonth <= atFirst + AcceptedIn(w, events[..k], start, next) + events[k].amount)
  {
    WindowsAdd(w, events, start - 1, start, next - 1, next - 1);
    k := CompleteAtLast(w, events, start, next - 1);
    if AcceptedIn(w, events, start, next - 1) != 0 {
      WiderWindow(w, events[..k], start, next - 1, next);
    }
  }

  function Times(n: nat, e: Event): (s: seq<Event>)
    ensures |s| == n && forall i :: 0 <= i < n ==> s[i] == e
  {
    if n == 0 then [] else Times(n - 1, e) + [e]
  }

  /** A spend within both limits, before the reset date, is accepted and counted. */
  lemma {:induction false} OneMoreSpend(w: Wallet, first: seq<Event>, amount: nat, now: Instant, after: int, upTo: int)
    requires var v := Run(w, first);
             && v.spendResetDate.Some? && now <= v.spendResetDate.value && amount <= v.singleLimit
             && v.monthlySpend + amount <= v.monthlyLimit
    requires after < now <= upTo
    ensures Run(w, first + [Spend(amount, now)]) == Recorded(Run(w, first), amount)
    ensures AcceptedIn(w, first + [Spend(amount, now)], after, upTo) == AcceptedIn(w, first, after, upTo) + amount
  {
    assert (first + [Spend(amount, now)])[..|first|] == first;
  }

  lemma {:induction false} RepeatedSpends(w: Wallet, first: seq<Event>, n: nat, amount: nat, now: Instant, after: int,
                                          upTo: int)
    requires var v := Run(w, first);
             && v.spendResetDate.Some? && now <= v.spendResetDate.value && amount <= v.singleLimit
             && v.monthlySpend + n * amount <= v.monthlyLimit
    requires after < now <= upTo
    ensures var v, events := Run(w, first), first + Times(n, Spend(amount, now));
            && Run(w, events) == v.(monthlySpend := v.monthlySpend + n * amount)
            && AcceptedIn(w, events, after, upTo) == AcceptedIn(w, first, after, upTo) + n * amount
  {
    if n == 0 {
      assert first + Times(0, Spend(amount, now)) == first;
    } else {
      assert n * amount == (n - 1) * amount + amount;
      var before := first + Times(n - 1, Spend(amount, now));
      RepeatedSpends(w, first, n - 1, amount, now, after, upTo);
      OneMoreSpend(w, before, amount, now, after, upTo);
      assert first + Times(n, Spend(amount, now)) == before + [Spend(amount, now)];
    }
  }

  /** A spend of nothing after the reset date starts the month's spending afresh. */
  lemma {:induction false} EmptySpendResets(w: Wallet, first: seq<Event>, now: Instant, after: int, upTo: int)
    requires var v := Run(w, first);
             v.singleLimit >= 0 && v.monthlyLimit >= 0 && (v.spendResetDate.Some? ==> now > v.spendResetDate.value)
    ensures var v, events := Run(w, first), first + [Spend(0, now)];
            && Run(w, events) == v.(monthlySpend := 0, spendResetDate := Some(NextMonthStart(now)))
            && AcceptedIn(w, events, after, upTo) == AcceptedIn(w, first, after, upTo)
  {
    assert (first + [Spend(0, now)])[..|first|] == first;
  }

  /**
    Over the calendar month itself the limit does not hold: the reset waits for an instant after the month's first,
    so spending at that instant is counted with the month before, and a month can reach twice the limit.
   */
  lemma {:induction false} CalendarMonthCanReachTwiceTheLimit(accountId: nat, month: nat) returns (events: seq<Event>)
    requires month > 0
    ensures Clocked(events) && forall i :: 0 <= i < |events| ==> events[i].Spend?
    ensures AcceptedIn(NewWallet(accountId), events, StartOf(month) - 1, StartOf(month + 1) - 1)
            == 2 * NewWallet(accountId).monthlyLimit
  {
    var start, end := StartOf(month), StartOf(month + 1);
    FromLastInstant(month - 1, start);
    FromSecondInstant(month, start, end);
    events := TwiceTheLimit(NewWallet(accountId), start, end);
  }

  lemma {:induction false} MonthsAreLong(month: nat)
    ensures StartOf(month) + 1 < StartOf(month + 1)
  {
  }

  lemma {:induction false} NextWithin(t: Instant, month: nat, next: Instant)
    requires StartOf(month) <= t < next == StartOf(month + 1)
    ensures NextMonthStart(t) == next
  {
    MonthIsUnique(t, month);
  }

  lemma {:induction false} FromLastInstant(month: nat, next: Instant)
    requires next == StartOf(month + 1)
    ensures 0 < next && NextMonthStart(next - 1) == next
  {
    MonthsAreLong(month);
    NextWithin(next - 1, month, next);
  }

  lemma {:induction false} FromSecondInstant(month: nat, start: Instant, next: Instant)
    requires start == StartOf(month) && next == StartOf(month + 1)
    ensures start + 1 < next && NextMonthStart(start + 1) == next
  {
    MonthsAreLong(month);
    NextWithin(start + 1, month, next);
  }

  predicate Spends(events: seq<Event>, from: Instant, to: Instant) {
    forall i :: 0 <= i < |events| ==> events[i].Spend? && from <= events[i].now <= to
  }

  lemma {:induction false} ClockedAppend(first: seq<Event>, more: seq<Event>, from: Instant, mid: Instant, to: Instant)
    requires Clocked(first) && Clocked(more) && from <= mid <= to && Spends(first, from, mid) && Spends(more, mid, to)
    ensures Clocked(first + more) && Spends(first + more, from, to)
  {
  }

  lemma {:induction false} TwiceTheLimit(w: Wallet, start: Instant, end: Instant) returns (events: seq<Event>)
    requires w == NewWallet(w.accountId) && 0 < start && start + 1 < end
    requires NextMonthStart(start - 1) == start && NextMonthStart(start + 1) == end
    ensures Clocked(events) && Spends(events, 0, start + 1)
    ensures AcceptedIn(w, events, start - 1, end - 1) == 2 * w.monthlyLimit
  {
    events := FillFromNew(w, start, end);
    events := FillTheMonth(w, events, start + 1, start + 1, start - 1, end - 1);
  }

  /** A new wallet's limit used up at the first instant of a month, and still counted with the month before. */
  lemma {:induction false} FillFromNew(w: Wallet, start: Instant, end: Instant) returns (events: seq<Event>)
    requires w == NewWallet(w.accountId) && 0 < start && start + 1 < end && NextMonthStart(start - 1) == start
    ensures Clocked(events) && Spends(events, 0, start)
    ensures Run(w, events) == w.(monthlySpend := 500_000_00, spendResetDate := Some(start))
    ensures AcceptedIn(w, events, start - 1, end - 1) == 500_000_00
  {
    events := FillTheMonth(w, [], start - 1, start, start - 1, end - 1);
  }

  /** Ten spends that use up a month's limit: the counter is started afresh at `reset`, and they are dated `now`. */
  lemma {:induction false} FillTheMonth(w: Wallet, first: seq<Event>, reset: Instant, now: Instant, after: int,
                                        upTo: int)
      returns (events: seq<Event>)
    requires var v := Run(w, first);
             && v.singleLimit == 50_000_00 && v.monthlyLimit == 500_000_00
             && (v.spendResetDate.Some? ==> reset > v.spendResetDate.value)
    requires reset <= now <= NextMonthStart(reset) && after < now <= upTo && now <= reset + 1
    requires Clocked(first) && Spends(first, 0, reset)
    ensures Clocked(events) && Spends(events, 0, now)
    ensures Run(w, events) == Run(w, first).(monthlySpend := 500_000_00, spendResetDate := Some(NextMonthStart(reset)))
    ensures AcceptedIn(w, events, after, upTo) == AcceptedIn(w, first, after, upTo) + 500_000_00
  {
    EmptySpendResets(w, first, reset, after, upTo);
    var begun := first + [Spend(0, reset)];
    ClockedAppend(first, [Spend(0, reset)], 0, reset, now);
    RepeatedSpends(w, begun, 10, 50_000_00, now, after, upTo);
    ClockedAppend(begun, Times(10, Spend(50_000_00, now)), 0, now, now);
    events := begun + Times(10, Spend(50_000_00, now));
  }

  // ---- Exactly when a calendar month keeps its limit ----

  /** What every wallet satisfies before a month's first spend: see `WalletsBecomeReady`. */
  ghost predicate Ready(w: Wallet, month: nat) {
    && w.monthlySpend >= 0 && w.singleLimit > 0 && w.monthlyLimit > 0
    && (w.spendResetDate.Some? ==> w.spendResetDate.value <= StartOf(month))
  }

  predicate InMonth(events: seq<Event>, month: nat) {
    forall i :: 0 <= i < |events| ==> events[i].Spend? && StartOf(month) <= events[i].now < StartOf(month + 1)
  }

  /** No sequence of spends within the month, its first instant included, has more than the limit accepted. */
  ghost predicate KeepsLimitIn(w: Wallet, month: nat) {
    forall events :: Clocked(events) && InMonth(events, month) ==>
      AcceptedIn(w, events, StartOf(month) - 1, StartOf(month + 1) - 1) <= w.monthlyLimit
  }

  /** Nothing was accepted yet, and nothing will be before the counter is started afresh. */
  ghost predicate NotBegun(v: Wallet, total: int, start: Instant) {
    && total == 0
    && (v.spendResetDate.Some? ==>
          v.spendResetDate.value < start || (v.spendResetDate.value == start && v.monthlySpend >= v.monthlyLimit))
  }

  /** Or the counter was started afresh within the month and covers all that was accepted. */
  ghost predicate Begun(v: Wallet, total: int, next: Instant) {
    v.spendResetDate == Some(next) && v.monthlySpend >= total
  }

  ghost predicate MonthSoFar(w: Wallet, v: Wallet, total: int, start: Instant, next: Instant) {
    && v.singleLimit == w.singleLimit && v.monthlyLimit == w.monthlyLimit && v.monthlySpend >= 0
    && 0 <= total <= v.monthlyLimit && (NotBegun(v, total, start) || Begun(v, total, next))
  }

  lemma {:induction false} SpendKeepsMonth(w: Wallet, v: Wallet, total: int, e: Event, start: Instant, next: Instant)
    requires MonthSoFar(w, v, total, start, next) && e.Spend? && start <= e.now < next && NextMonthStart(e.now) == next
    ensures MonthSoFar(w, After(v, e), total + (if Accepts(v, e) then e.amount else 0), start, next)
  {
  }

  lemma {:induction false} MonthKeepsLimit(w: Wallet, events: seq<Event>, month: nat)
    requires Ready(w, month) && InMonth(events, month)
    requires w.spendResetDate != Some(StartOf(month)) || w.monthlySpend >= w.monthlyLimit
    ensures var start, next := StartOf(month), StartOf(month + 1);
            MonthSoFar(w, Run(w, events), AcceptedIn(w, events, start - 1, next - 1), start, next)
  {
    if events != [] {
      var before, e := events[..|events| - 1], events[|events| - 1];
      var start: int, next: int := StartOf(month), StartOf(month + 1);
      MonthKeepsLimit(w, before, month);
      NextWithin(e.now, month, next);
      SpendKeepsMonth(w, Run(w, before), AcceptedIn(w, before, start - 1, next - 1), e, start, next);
    }
  }

  lemma {:induction false} FirstKobo(w: Wallet, now: Instant, after: int, upTo: int)
    requires w.spendResetDate == Some(now) && w.singleLimit > 0 && w.monthlySpend < w.monthlyLimit
    requires after < now <= upTo
    ensures var first := [Spend(1, now)];
            Run(w, first) == Recorded(w, 1) && AcceptedIn(w, first, after, upTo) == 1 && Clocked(first)
  {
    OneMoreSpend(w, [], 1, now, after, upTo);
    assert [] + [Spend(1, now)] == [Spend(1, now)];
  }

  /** After the reset date, a full limit can be spent in single kobos, all at one instant. */
  lemma {:induction false} FullLimitOfKobos(w: Wallet, first: seq<Event>, from: Instant, now: Instant, after: int,
                                            upTo: int)
      returns (events: seq<Event>)
    requires var v := Run(w, first);
             v.singleLimit > 0 && v.monthlyLimit >= 0 && (v.spendResetDate.Some? ==> now > v.spendResetDate.value)
    requires after < now <= upTo && from <= now && Clocked(first) && Spends(first, from, now)
    ensures Clocked(events) && Spends(events, from, now)
    ensures AcceptedIn(w, events, after, upTo) == AcceptedIn(w, first, after, upTo) + Run(w, first).monthlyLimit
  {
    var limit := Run(w, first).monthlyLimit;
    var begun := first + [Spend(0, now)];
    EmptySpendResets(w, first, now, after, upTo);
    ClockedAppend(first, [Spend(0, now)], from, now, now);
    assert limit * 1 == limit;
    RepeatedSpends(w, begun, limit, 1, now, after, upTo);
    ClockedAppend(begun, Times(limit, Spend(1, now)), from, now, now);
    events := begun + Times(limit, Spend(1, now));
  }

  /** One kobo at the first instant counts with the month before; a full limit follows. */
  lemma {:induction false} OneKoboTooMuch(w: Wallet, start: Instant, next: Instant) returns (events: seq<Event>)
    requires w.spendResetDate == Some(start) && start + 1 < next
    requires w.singleLimit > 0 && 0 <= w.monthlySpend < w.monthlyLimit
    ensures Clocked(events) && Spends(events, start, start + 1)
    ensures AcceptedIn(w, events, start - 1, next - 1) == w.monthlyLimit + 1
  {
    var before: int, last: int := start - 1, next - 1;
    FirstKobo(w, start, before, last);
    events := FullLimitOfKobos(w, [Spend(1, start)], start, start + 1, before, last);
  }

  /**
    While the tier stays, a calendar month keeps its limit, whatever is spent when, if and only if the counter is
    not to be started afresh at the month's very first instant, or was used up before it.
   */
  lemma {:induction false} CalendarMonthKeepsLimitIff(w: Wallet, month: nat)
    requires Ready(w, month)
    ensures KeepsLimitIn(w, month) <==> w.spendResetDate != Some(StartOf(month)) || w.monthlySpend >= w.monthlyLimit
  {
    if w.spendResetDate != Some(StartOf(month)) || w.monthlySpend >= w.monthlyLimit {
      forall events | Clocked(events) && InMonth(events, month)
        ensures AcceptedIn(w, events, StartOf(month) - 1, StartOf(month + 1) - 1) <= w.monthlyLimit
      {
        MonthKeepsLimit(w, events, month);
      }
    } else {
      MonthsAreLong(month);
      var events := OneKoboTooMuch(w, StartOf(month), StartOf(month + 1));
      assert InMonth(events, month);
    }
  }

  /** Every wallet is ready for a month by then, whatever happened before: so the condition is there for all of them. */
  lemma {:induction false} WalletsBecomeReady(accountId: nat, earlier: seq<Event>, month: nat)
    requires forall i :: 0 <= i < |earlier| && earlier[i].Spend? ==> earlier[i].now < StartOf(month)
    ensures Ready(Run(NewWallet(accountId), earlier), month)
  {
    if earlier != [] {
      var before, e := earlier[..|earlier| - 1], earlier[|earlier| - 1];
      WalletsBecomeReady(accountId, before, month);
      if e.Spend? {
        NextIsNoLater(e.now, month);
      }
    }
  }

  lemma {:induction false} NextIsNoLater(now: Instant, month: nat)
    requires now < StartOf(month)
    ensures NextMonthStart(now) <= StartOf(month)
  {
    var m := MonthOf(now);
    if month <= m {
      StartsAscendWeakly(month, m);
      assert false;
    }
    StartsAscendWeakly(m + 1, month);
  }

  // ---- Limits, tiers and months in figures ----

  /** A spend is accepted if and only if it is within the single limit and fits in what is left of the month's. */
  lemma {:induction false} SpendIsAcceptedIff(w: Wallet, amount: int, now: Instant)
    ensures var (v, why) := Validated(w, amount, now);
            var afresh := w.spendResetDate.None? || now > w.spendResetDate.value;
            && (why.None? <==>
                  amount <= w.singleLimit && (if afresh then 0 else w.monthlySpend) + amount <= w.monthlyLimit)
            && (amount > w.singleLimit ==> why == Some(OverSingleLimit) && v == w)
            && (amount <= w.singleLimit && !afresh ==> v == w)
            && (amount <= w.singleLimit && afresh ==>
                  v == w.(monthlySpend := 0, spendResetDate := Some(NextMonthStart(now))))
            && (amount <= w.singleLimit && why.Some? ==> why == Some(OverMonthlyLimit))
  {
  }

  /** What an event leaves: an accepted spend is counted, a refused one at most starts the counter afresh. */
  lemma {:induction false} EventsInFigures(w: Wallet, amount: nat, now: Instant, tier: Tier)
    ensures var afresh := w.spendResetDate.None? || now > w.spendResetDate.value;
            var v := if afresh && amount <= w.singleLimit
                     then w.(monthlySpend := 0, spendResetDate := Some(NextMonthStart(now))) else w;
            After(w, Spend(amount, now))
            == if amount <= w.singleLimit && v.monthlySpend + amount <= w.monthlyLimit
               then v.(monthlySpend := v.monthlySpend + amount) else v
    ensures After(w, ChangeTier(tier)) == Upgraded(w, tier)
  {
  }

  /** The table of tiers; a new wallet's column defaults agree with its first entry. */
  lemma {:induction false} TiersInFigures(w: Wallet, accountId: nat)
    ensures Upgraded(w, Basic)
            == w.(tier := Basic, dailyLimit := 10_000_000, singleLimit := 5_000_000, monthlyLimit := 50_000_000)
    ensures Upgraded(w, Standard)
            == w.(tier := Standard, dailyLimit := 50_000_000, singleLimit := 20_000_000, monthlyLimit := 200_000_000)
    ensures Upgraded(w, Premium)
            == w.(tier := Premium, dailyLimit := 500_000_000, singleLimit := 200_000_000, monthlyLimit := 2_000_000_000)
    ensures Upgraded(NewWallet(accountId), Basic) == NewWallet(accountId)
    ensures NewWallet(accountId).accountId == accountId && NewWallet(accountId).monthlySpend == 0
    ensures NewWallet(accountId).spendResetDate == None
  {
  }

  /** The days of a year before each of its months, and before the next year. */
  function DayOfYear(m: nat, leap: int): int
    requires m <= 12
  {
    [0, 31, 59, 90, 120, 151, 181, 212, 243, 273, 304, 334, 365][m] + if m > 1 then leap else 0
  }

  /** The length of each month of a year; `leap` is 1 if it has a 29th of February, 0 otherwise. */
  lemma {:induction false} MonthLength(k: nat, m: nat, leap: int)
    requires m < 12
    requires leap == if (1970 + k) % 4 == 0 && ((1970 + k) % 100 != 0 || (1970 + k) % 400 == 0) then 1 else 0
    ensures StartOf(12 * k + m + 1)
            == StartOf(12 * k + m) + (DayOfYear(m + 1, leap) - DayOfYear(m, leap)) * 86_400_000
  {
    assert (12 * k + m) % 12 == m && (12 * k + m) / 12 == k;
  }

  lemma {:induction false} YearSoFar(year: int, before: int, now: int, daysBefore: int, days: int)
    requires before == year + daysBefore * 86_400_000 && now == before + (days - daysBefore) * 86_400_000
    ensures now == year + days * 86_400_000
  {
  }

  lemma {:induction false} MonthsOfAYear(k: nat, m: nat, leap: int)
    requires m <= 12
    requires leap == if (1970 + k) % 4 == 0 && ((1970 + k) % 100 != 0 || (1970 + k) % 400 == 0) then 1 else 0
    ensures StartOf(12 * k + m) == StartOf(12 * k) + DayOfYear(m, leap) * 86_400_000
    decreases m
  {
    if m > 0 {
      MonthsOfAYear(k, m - 1, leap);
      MonthLength(k, m - 1, leap);
      var before, now := StartOf(12 * k + (m - 1)), StartOf(12 * k + (m - 1) + 1);
      assert 12 * k + (m - 1) + 1 == 12 * k + m;
      YearSoFar(StartOf(12 * k), before, now, DayOfYear(m - 1, leap), DayOfYear(m, leap));
    }
  }

  /** The Gregorian count of days since 1970: one leap year in four, but for three centuries in four. */
  lemma {:induction false} YearStarts(k: nat)
    ensures StartOf(12 * k) == DaysBefore(1970 + k) * 86_400_000
    decreases k
  {
    if k > 0 {
      YearStarts(k - 1);
      NextYear(k - 1, StartOf(12 * (k - 1)));
      assert 12 * (k - 1) + 12 == 12 * k;
    }
  }

  /** Days between the beginning of 1970 and that of another year. */
  function DaysBefore(year: nat): int
    requires year >= 1970
  {
    365 * (year - 1970) + (year - 1) / 4 - (year - 1) / 100 + (year - 1) / 400 - 477
  }

  lemma {:induction false} NextYear(k: nat, start: int)
    requires start == StartOf(12 * k)
    ensures StartOf(12 * k + 12) == start + (DaysBefore(1970 + k + 1) - DaysBefore(1970 + k)) * 86_400_000
  {
    var leap := if (1970 + k) % 4 == 0 && ((1970 + k) % 100 != 0 || (1970 + k) % 400 == 0) then 1 else 0;
    MonthsOfAYear(k, 12, leap);
    LeapsCounted(1969 + k, leap);
  }

  lemma {:induction false} LeapsCounted(y: nat, leap: int)
    requires leap == if (y + 1) % 4 == 0 && ((y + 1) % 100 != 0 || (y + 1) % 400 == 0) then 1 else 0
    ensures (y + 1) / 4 - (y + 1) / 100 + (y + 1) / 400 == y / 4 - y / 100 + y / 400 + leap
  {
    NextQuotient(y, 4);
    NextQuotient(y, 100);
    NextQuotient(y, 400);
    CenturiesDivide(y + 1);
  }

  lemma {:induction false} NextQuotient(y: nat, d: nat)
    requires d == 4 || d == 100 || d == 400
    ensures (y + 1) / d == y / d + if (y + 1) % d == 0 then 1 else 0
  {
  }

  lemma {:induction false} CenturiesDivide(y: nat)
    ensures y % 400 == 0 ==> y % 100 == 0
    ensures y % 100 == 0 ==> y % 4 == 0
  {
    if y % 100 == 0 {
      FourDivides(y, 25 * (y / 100));
    }
    if y % 400 == 0 {
      HundredDivides(y, 4 * (y / 400));
    }
  }

  lemma {:induction false} FourDivides(y: nat, q: nat)
    requires y == 4 * q
    ensures y % 4 == 0
  {
  }

  lemma {:induction false} HundredDivides(y: nat, q: nat)
    requires y == 100 * q
    ensures y % 100 == 0
  {
  }

  /** The next month's first instant, by the date: whatever the day and time of a month, it is the month after it. */
  lemma {:induction false} NextMonthByDate(k: nat, m: nat, leap: int, now: Instant)
    requires m < 12
    requires leap == if (1970 + k) % 4 == 0 && ((1970 + k) % 100 != 0 || (1970 + k) % 400 == 0) then 1 else 0
    requires var year := DaysBefore(1970 + k);
             (year + DayOfYear(m, leap)) * 86_400_000 <= now < (year + DayOfYear(m + 1, leap)) * 86_400_000
    ensures NextMonthStart(now) == (DaysBefore(1970 + k) + DayOfYear(m + 1, leap)) * 86_400_000
  {
    YearStarts(k);
    MonthsOfAYear(k, m, leap);
    MonthsOfAYear(k, m + 1, leap);
    NextWithin(now, 12 * k + m, StartOf(12 * k + (m + 1)));
  }
}
