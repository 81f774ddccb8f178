/** The transaction PIN and its lockout. */
module TransactionPin {
  import opened Outcomes

  const MAX_ATTEMPTS := 3
  const LOCKOUT_MS := 15 * 60 * 1000

  type Time = int
  type UserId = string

  datatype Attempts = Attempts(count: nat, lockedUntil: Time)

  datatype Refusal = Locked(minutes: int) | UserNotFound | PinNotSet | WrongPin(remaining: int)

  /** The attempt counters, which live in memory, and the stored PIN of each user, which may be unset. */
  datatype PinState = PinState(attempts: map<UserId, Attempts>, pins: map<UserId, Option<string>>)

  function AttemptsOf(s: PinState, user: UserId): Attempts {
    if user in s.attempts then s.attempts[user] else Attempts(0, 0)
  }

  function AfterFailure(a: Attempts, now: Time): Attempts {
    var count := a.count + 1;
    Attempts(count, if count >= MAX_ATTEMPTS then now + LOCKOUT_MS else a.lockedUntil)
  }

  /** `Math.ceil` of a number of milliseconds in minutes. */
  function MinutesUp(ms: int): int {
    (ms + 59_999) / 60_000
  }

  /** What verification answers, and the state it leaves; `matches` compares a PIN with a stored hash. */
  function Verified(s: PinState, user: UserId, pin: string, now: Time, matches: (string, string) -> bool)
      : (PinState, Option<Refusal>) {
    var a := AttemptsOf(s, user);
    if user in s.attempts && a.lockedUntil > now then (s, Some(Locked(MinutesUp(a.lockedUntil - now))))
    else if user !in s.pins then (s, Some(UserNotFound))
    else if s.pins[user].None? then (s, Some(PinNotSet))
    else if !matches(pin, s.pins[user].value) then
      var failed := AfterFailure(a, now);
      (s.(attempts := s.attempts[user := failed]), Some(WrongPin(MAX_ATTEMPTS - failed.count)))
    else (s.(attempts := s.attempts - {user}), None)
  }

  /** A user's stored PIN replaced; `update` does nothing for an unknown user. */
  function Stored(s: PinState, user: UserId, hash: string): PinState {
    if user in s.pins then s.(pins := s.pins[user := Some(hash)]) else s
  }

  class TransactionPinService {
    var attempts: map<UserId, Attempts>
    var pins: map<UserId, Option<string>>
    const matches: (string, string) -> bool
    const hash: string -> string

    ghost function State(): PinState
      reads this
    {
      PinState(attempts, pins)
    }

    constructor (pins: map<UserId, Option<string>>, matches: (string, string) -> bool, hash: string -> string)
      ensures State() == PinState(map[], pins) && this.matches == matches && this.hash == hash
    {
      attempts := map[];
      this.pins, this.matches, this.hash := pins, matches, hash;
    }

    method SetPin(user: UserId, pin: string) returns (refusal: Option<Refusal>)
      modifies this
      ensures State() == old(Stored(State(), user, hash(pin)))
      ensures attempts == old(attempts)
      ensures pins == if user in old(pins) then old(pins)[user := Some(hash(pin))] else old(pins)
      ensures refusal == if user in old(pins) then None else Some(UserNotFound)
    {
      if user !in pins {
        return Some(UserNotFound);
      }
      pins := pins[user := Some(hash(pin))];
      return None;
    }

    method CheckLockout(user: UserId, now: Time) returns (refusal: Option<Refusal>)
      ensures refusal == if user in attempts && attempts[user].lockedUntil > now
                         then Some(Locked(MinutesUp(attempts[user].lockedUntil - now))) else None
    {
      if user in attempts && attempts[user].lockedUntil > now {
        return Some(Locked(MinutesUp(attempts[user].lockedUntil - now)));
      }
      return None;
    }

    method RecordFailedAttempt(user: UserId, now: Time)
      modifies this`attempts
      ensures attempts == old(attempts)[user := AfterFailure(AttemptsOf(old(State()), user), now)]
    {
      var state := if user in attempts then attempts[user] else Attempts(0, 0);
      state := state.(count := state.count + 1);
      if state.count >= MAX_ATTEMPTS {
        state := state.(lockedUntil := now + LOCKOUT_MS);
      }
      attempts := attempts[user := state];
    }

    method ClearAttempts(user: UserId)
      modifies this`attempts
      ensures attempts == old(attempts) - {user}
    {
      attempts := attempts - {user};
    }

    method VerifyPin(user: UserId, pin: string, now: Time) returns (refusal: Option<Refusal>)
      modifies this`attempts
      ensures (State(), refusal) == Verified(old(State()), user, pin, now, matches)
    {
      refusal := CheckLockout(user, now);
      if refusal.Some? {
        return;
      }
      if user !in pins {
        return Some(UserNotFound);
      }
      if pins[user].None? {
        return Some(PinNotSet);
      }
      var valid := matches(pin, pins[user].value);
      if !valid {
        RecordFailedAttempt(user, now);
        var remaining := MAX_ATTEMPTS - (if user in attempts then attempts[user].count else 0);
        return Some(WrongPin(remaining));
      }
      ClearAttempts(user);
      return None;
    }

    method ChangePin(user: UserId, currentPin: string, newPin: string, now: Time) returns (refusal: Option<Refusal>)
      modifies this
      ensures var (s, why) := Verified(old(State()), user, currentPin, now, matches);
              refusal == why && State() == if why.Some? then s else Stored(s, user, hash(newPin))
      ensures refusal.None? ==>
                pins == old(pins)[user := Some(hash(newPin))] && attempts == old(attempts) - {user}
      ensures refusal.Some? ==> pins == old(pins)
    {
      refusal := VerifyPin(user, currentPin, now);
      if refusal.Some? {
        return;
      }
      if user in pins {
        pins := pins[user := Some(hash(newPin))];
      }
      ClearAttempts(user);
      assert attempts - {user} == attempts;
    }
  }

  // ---- Runs ----

  datatype Call =
    | Verify(user: UserId, pin: string, now: Time)
    | Change(user: UserId, pin: string, newHash: string, now: Time)
    | Set(user: UserId, newHash: string, now: Time)

  /** One call as one step, with the answer to its verification if it has one. */
  function After(s: PinState, c: Call, matches: (string, string) -> bool): (PinState, Option<Refusal>) {
    match c
    case Verify(user, pin, now) => Verified(s, user, pin, now, matches)
    case Change(user, pin, newHash, now) =>
      var (t, why) := Verified(s, user, pin, now, matches);
      (if why.Some? then t else Stored(t, user, newHash), why)
    case Set(user, newHash, _) => (Stored(s, user, newHash), None)
  }

  /** A wrong PIN of this user was compared with the stored one. */
  predicate Guessed(s: PinState, c: Call, user: UserId, matches: (string, string) -> bool) {
    var why := After(s, c, matches).1;
    c.user == user && why.Some? && why.value.WrongPin?
  }

  predicate Succeeded(s: PinState, c: Call, user: UserId, matches: (string, string) -> bool) {
    !c.Set? && c.user == user && After(s, c, matches).1.None?
  }

  function Guesses(s: PinState, calls: seq<Call>, user: UserId, matches: (string, string) -> bool): nat
    decreases |calls|
  {
    if calls == [] then 0
    else (if Guessed(s, calls[0], user, matches) then 1 else 0)
         + Guesses(After(s, calls[0], matches).0, calls[1..], user, matches)
  }

  predicate NoSuccess(s: PinState, calls: seq<Call>, user: UserId, matches: (string, string) -> bool)
    decreases |calls|
  {
    calls != [] ==> !Succeeded(s, calls[0], user, matches)
                    && NoSuccess(After(s, calls[0], matches).0, calls[1..], user, matches)
  }

  /** The calls come in order of time, within an interval. */
  predicate Within(calls: seq<Call>, from: Time, to: Time)
    decreases |calls|
  {
    calls != [] ==> from <= calls[0].now <= to && Within(calls[1..], calls[0].now, to)
  }

  lemma {:induction false} OthersAreUntouched(s: PinState, c: Call, other: UserId, matches: (string, string) -> bool)
    requires other != c.user
    ensures var t := After(s, c, matches).0;
            AttemptsOf(t, other) == AttemptsOf(s, other) && (other in t.attempts <==> other in s.attempts)
    ensures var t := After(s, c, matches).0;
            (other in t.pins <==> other in s.pins) && (other in s.pins ==> t.pins[other] == s.pins[other])
  {
  }

  /** A PIN is accepted if and only if no lock is on and it matches the one stored; what each answer leaves. */
  lemma {:induction false} VerificationIs(s: PinState, user: UserId, pin: string, now: Time,
                                          matches: (string, string) -> bool)
    ensures var (t, why) := After(s, Verify(user, pin, now), matches);
            var locked := user in s.attempts && s.attempts[user].lockedUntil > now;
            var count := 1 + if user in s.attempts then s.attempts[user].count else 0;
            && t.pins == s.pins
            && (why.None? <==> !locked && user in s.pins && s.pins[user].Some? && matches(pin, s.pins[user].value))
            && (why.None? ==> t.attempts == s.attempts - {user})
            && (why.Some? && (locked || user !in s.pins || s.pins[user].None?) ==> t == s)
            && (locked ==>
                  && why.Some? && why.value.Locked?
                  && var minutes := why.value.minutes;
                     60_000 * (minutes - 1) < s.attempts[user].lockedUntil - now <= 60_000 * minutes)
            && (!locked && user !in s.pins ==> why == Some(UserNotFound))
            && (!locked && user in s.pins && s.pins[user].None? ==> why == Some(PinNotSet))
            && (!locked && user in s.pins && s.pins[user].Some? && !matches(pin, s.pins[user].value) ==>
                  && why == Some(WrongPin(3 - count))
                  && t.attempts.Keys == s.attempts.Keys + {user} && t.attempts[user].count == count
                  && (count >= 3 ==> t.attempts[user].lockedUntil == now + 900_000))
  {
  }

  /** After an accepted change the new PIN is the one that decides, and nothing else is. */
  lemma {:induction false} ChangedPinDecides(s: PinState, user: UserId, current: string, newHash: string, now: Time,
                                             pin: string, later: Time, matches: (string, string) -> bool)
    requires After(s, Change(user, current, newHash, now), matches).1.None?
    ensures var t := After(s, Change(user, current, newHash, now), matches).0;
            && t.pins == s.pins[user := Some(newHash)] && t.attempts == s.attempts - {user}
            && (After(t, Verify(user, pin, later), matches).1.None? <==> matches(pin, newHash))
  {
  }

  /** A change is accepted exactly when the current PIN is; refused, it leaves what that verification leaves. */
  lemma {:induction false} ChangeIsVerified(s: PinState, user: UserId, current: string, newHash: string, now: Time,
                                            matches: (string, string) -> bool)
    ensures var (t, why) := After(s, Change(user, current, newHash, now), matches);
            var (v, whyNot) := After(s, Verify(user, current, now), matches);
            why == whyNot && (why.Some? ==> t == v && t.pins == s.pins)
  {
  }

  /** A PIN that was set decides once no lock is on; a user who is not known gets none. */
  lemma {:induction false} SetPinDecides(s: PinState, user: UserId, newHash: string, now: Time, pin: string,
                                         later: Time, matches: (string, string) -> bool)
    ensures var t := After(s, Set(user, newHash, now), matches).0;
            && t.attempts == s.attempts && (user !in s.pins ==> t == s)
            && (user in s.pins ==>
                  && t.pins == s.pins[user := Some(newHash)]
                  && (After(t, Verify(user, pin, later), matches).1.None?
                      <==> matches(pin, newHash) && (user in s.attempts ==> s.attempts[user].lockedUntil <= later)))
  {
  }

  /** How many wrong PINs can still be compared by `to`, for a user with these attempts at `from`. */
  function Allowed(a: Attempts, from: Time, to: Time): int {
    if a.count < MAX_ATTEMPTS - 1 then
      (MAX_ATTEMPTS - a.count) + (if to >= from then (to - from) / LOCKOUT_MS else 0)
    else
      var next := if a.lockedUntil > from then a.lockedUntil else from;
      if next > to then 0 else 1 + (to - next) / LOCKOUT_MS
  }

  lemma {:induction false} GuessUsesAllowance(a: Attempts, from: Time, now: Time, to: Time)
    requires from <= now <= to && (a.count >= MAX_ATTEMPTS - 1 ==> a.lockedUntil <= now)
    ensures Allowed(AfterFailure(a, now), now, to) + 1 <= Allowed(a, from, to)
  {
    QuotientIsMonotone(to - now, to - from);
    var next := if a.lockedUntil > from then a.lockedUntil else from;
    if next <= now {
      QuotientIsMonotone(to - now, to - next);
    }
  }

  lemma {:induction false} QuotientIsMonotone(x: int, y: int)
    requires 0 <= x <= y
    ensures 0 <= x / LOCKOUT_MS <= y / LOCKOUT_MS
  {
  }

  lemma {:induction false} WaitingGainsNothing(a: Attempts, from: Time, now: Time, to: Time)
    requires from <= now <= to
    ensures 0 <= Allowed(a, now, to) <= Allowed(a, from, to)
  {
    QuotientIsMonotone(to - now, to - from);
    var next := if a.lockedUntil > from then a.lockedUntil else from;
    var later := if a.lockedUntil > now then a.lockedUntil else now;
    if later <= to {
      QuotientIsMonotone(to - later, to - next);
    } else if next <= to {
      QuotientIsMonotone(0, to - next);
    }
  }

  lemma {:induction false} GuessesWithinAllowance(s: PinState, calls: seq<Call>, user: UserId, from: Time, to: Time,
                                                  matches: (string, string) -> bool)
    requires Within(calls, from, to) && NoSuccess(s, calls, user, matches) && from <= to
    ensures Guesses(s, calls, user, matches) <= Allowed(AttemptsOf(s, user), from, to)
    decreases |calls|
  {
    WaitingGainsNothing(AttemptsOf(s, user), from, from, to);
    if calls != [] {
      var c := calls[0];
      var t := After(s, c, matches).0;
      GuessesWithinAllowance(t, calls[1..], user, c.now, to, matches);
      WaitingGainsNothing(AttemptsOf(s, user), from, c.now, to);
      if c.user != user {
        OthersAreUntouched(s, c, user, matches);
      } else if Guessed(s, c, user, matches) {
        LockIsRespected(s, c, user, matches);
        GuessUsesAllowance(AttemptsOf(s, user), from, c.now, to);
      }
    }
  }

  lemma {:induction false} LockIsRespected(s: PinState, c: Call, user: UserId, matches: (string, string) -> bool)
    requires Guessed(s, c, user, matches)
    ensures AttemptsOf(s, user).lockedUntil <= c.now || user !in s.attempts
    ensures AttemptsOf(After(s, c, matches).0, user) == AfterFailure(AttemptsOf(s, user), c.now)
  {
  }

  /**
    In any interval without a success, at most three wrong PINs of a user are compared, plus one for every full
    lockout the interval lasts: the count outlives the lock, so each later failure locks again.
   */
  lemma {:induction false} LockoutLimitsGuesses(s: PinState, calls: seq<Call>, user: UserId, from: Time, length: nat,
                                                matches: (string, string) -> bool)
    requires Within(calls, from, from + length) && NoSuccess(s, calls, user, matches)
    ensures Guesses(s, calls, user, matches) <= 3 + length / 900_000
  {
    GuessesWithinAllowance(s, calls, user, from, from + length, matches);
    var a := AttemptsOf(s, user);
    var next := if a.lockedUntil > from then a.lockedUntil else from;
    QuotientIsMonotone(0, length);
    if next <= from + length {
      QuotientIsMonotone(from + length - next, length);
    }
  }

  // ---- The limit is met ----

  /** A wrong PIN at the end of each of `n` consecutive lockouts. */
  function Patient(user: UserId, pin: string, from: Time, n: nat): seq<Call>
    decreases n
  {
    if n == 0 then [] else [Verify(user, pin, from)] + Patient(user, pin, from + LOCKOUT_MS, n - 1)
  }

  lemma {:induction false} PatienceIsRewarded(s: PinState, user: UserId, pin: string, from: Time, n: nat,
                                              matches: (string, string) -> bool)
    requires user in s.pins && s.pins[user].Some? && !matches(pin, s.pins[user].value)
    requires user in s.attempts && s.attempts[user].count >= MAX_ATTEMPTS - 1 && s.attempts[user].lockedUntil <= from
    ensures var calls := Patient(user, pin, from, n);
            Guesses(s, calls, user, matches) == n && NoSuccess(s, calls, user, matches)
    decreases n
  {
    if n > 0 {
      var calls := Patient(user, pin, from, n);
      assert calls[1..] == Patient(user, pin, from + LOCKOUT_MS, n - 1);
      PatienceIsRewarded(After(s, calls[0], matches).0, user, pin, from + LOCKOUT_MS, n - 1, matches);
    }
  }

  lemma {:induction false} PatientWithin(user: UserId, pin: string, from: Time, start: Time, n: nat, to: Time)
    requires from <= start && (n > 0 ==> start + (n - 1) * LOCKOUT_MS <= to)
    ensures Within(Patient(user, pin, start, n), from, to)
    decreases n
  {
    if n > 0 {
      var calls := Patient(user, pin, start, n);
      assert calls[1..] == Patient(user, pin, start + LOCKOUT_MS, n - 1);
      assert (n - 1) * LOCKOUT_MS >= 0;
      if n > 1 {
        assert (n - 1) * LOCKOUT_MS == (n - 2) * LOCKOUT_MS + LOCKOUT_MS;
      }
      PatientWithin(user, pin, start, start + LOCKOUT_MS, n - 1, to);
    }
  }

  /** No smaller limit would do: for every length some calls reach it. */
  lemma {:induction false} LockoutLimitIsSharp(s: PinState, user: UserId, pin: string, from: Time, length: nat,
                                               matches: (string, string) -> bool)
      returns (calls: seq<Call>)
    requires user in s.pins && s.pins[user].Some? && !matches(pin, s.pins[user].value)
    requires user !in s.attempts && from >= 0
    ensures Within(calls, from, from + length) && NoSuccess(s, calls, user, matches)
    ensures Guesses(s, calls, user, matches) == 3 + length / 900_000
  {
    var n := 1 + length / LOCKOUT_MS;
    var rest := Patient(user, pin, from, n);
    var wrong := Verify(user, pin, from);
    var s1 := After(s, wrong, matches).0;
    var s2 := After(s1, wrong, matches).0;
    PatienceIsRewarded(s2, user, pin, from, n, matches);
    PatientWithin(user, pin, from, from, n, from + length);
    calls := [wrong] + ([wrong] + rest);
    assert calls[1..] == [wrong] + rest && ([wrong] + rest)[1..] == rest;
  }
}
