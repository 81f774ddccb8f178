/**
  Interleavings of two movements of which one would be refused on its own: they always amount to a serial order.
  With the case of two movements that would both succeed, this makes the condition for serial schedules complete.
 */
module Refusal {
  import opened Outcomes
  import opened Ledger
  import opened Interleaving
  import opened Serializability

  /** The movement has not yet looked at any account. */
  predicate Early(pc: Pc) {
    pc == Begin || pc == Insert || pc == ReadSource
  }

  /** The same but for the values read and written. */
  ghost predicate SameShape(p: Proc, q: Proc) {
    p.pc == q.pc && p.staged.Keys == q.staged.Keys && p.read.Some? == q.read.Some? && (Early(p.pc) ==> p == q)
  }

  ghost predicate EarlyIsEmpty(p: Proc) {
    Early(p.pc) ==> p.staged == map[] && p.read == None
  }

  lemma {:induction false} SoloEarlyIsEmpty(job: Job, c: Config, n: nat)
    requires EarlyIsEmpty(c.proc)
    ensures EarlyIsEmpty(Solo(job, c, n).proc)
    decreases n
  {
    if n > 0 {
      SoloEarlyIsEmpty(job, Step(job, c.proc, c.store, {}), n - 1);
    }
  }

  /** Until it looks at an account, a movement does the same on any two stores in which its row is equally free. */
  lemma {:induction false} EarlyIsAlike(job: Job, s: Store, t: Store, n: nat)
    requires Taken(s.rows, job.env.txId, job.tx.reference) == Taken(t.rows, job.env.txId, job.tx.reference)
    requires Early(Solo(job, Config(FRESH, s), n).proc.pc)
    ensures Solo(job, Config(FRESH, t), n) == Config(Solo(job, Config(FRESH, s), n).proc, t)
  {
    if n > 0 {
      var a, b := Step(job, FRESH, s, {}), Step(job, FRESH, t, {});
      assert Solo(job, Config(FRESH, s), n) == Solo(job, a, n - 1);
      assert Solo(job, Config(FRESH, t), n) == Solo(job, b, n - 1);
      if n > 1 {
        EarlyFromInsert(job, s, t, a.proc, n - 1);
      }
    }
  }

  lemma {:induction false} EarlyFromInsert(job: Job, s: Store, t: Store, p: Proc, n: nat)
    requires Taken(s.rows, job.env.txId, job.tx.reference) == Taken(t.rows, job.env.txId, job.tx.reference)
    requires n > 0 && (p.pc == Insert || p.pc == Finished) && Early(Solo(job, Config(p, s), n).proc.pc)
    ensures Solo(job, Config(p, t), n) == Config(Solo(job, Config(p, s), n).proc, t)
  {
    if p.pc == Finished {
      FinishedStays(job, Config(p, s), n);
    } else {
      var a, b := Step(job, p, s, {}), Step(job, p, t, {});
      assert a.proc == b.proc && a.store == s && b.store == t;
      assert Solo(job, Config(p, s), n) == Solo(job, a, n - 1) && Solo(job, Config(p, t), n) == Solo(job, b, n - 1);
      if n > 1 {
        NeverEarlyAgain(job, a, n - 1);
      }
    }
  }

  /** Once a movement has looked at an account it is past that stage for good. */
  lemma {:induction false} NeverEarlyAgain(job: Job, c: Config, n: nat)
    requires c.proc.pc != Begin && c.proc.pc != Insert && (c.proc.pc == ReadSource ==> job.tx.source.Some? && n > 0)
    ensures !Early(Solo(job, c, n).proc.pc)
    decreases n
  {
    if n > 0 {
      NeverEarlyAgain(job, Step(job, c.proc, c.store, {}), n - 1);
    }
  }

  // ---- The world beside a movement that is refused ----

  /** The left movement is refused on `s`; `a` is as far as it would be alone, and so is `b` for the right one. */
  ghost predicate Beside(l: Job, r: Job, s: Store, w: World, a: Config, b: Config) {
    && Confined(l, s, a) && Confined(r, s, b) && a.store.accounts == s.accounts
    && SameShape(w.left, a.proc) && w.right == b.proc
    && (a.proc.pc != Finished ==> w.store == b.store)
    && w.store.accounts == b.store.accounts
    && multiset(w.store.rows) == multiset(b.store.rows) + Added(s, a)
    && (b.proc.pc == Finished ==> !Early(a.proc.pc))
  }

  /** Alone, the left movement never commits. */
  ghost predicate Doomed(l: Job, s: Store, a: Config) {
    EarlyIsEmpty(a.proc) && (a.proc.pc == Commit ==> AtCommit in l.env.faults) && Able(l, a.proc)
  }

  lemma {:induction false} RefusedIsDoomed(l: Job, s: Store, n: nat)
    requires Feasible(l) && !Succeeds(s, l)
    ensures var a := Solo(l, Config(FRESH, s), n);
            Doomed(l, s, a) && Confined(l, s, a) && a.store.accounts == s.accounts
  {
    SoloEarlyIsEmpty(l, Config(FRESH, s), n);
    SoloAble(l, Config(FRESH, s), n);
    SoloIsAtomic(l, s, n);
    SoloIsAtomic(l, s, n + 1);
    SoloAdds(l, Config(FRESH, s), n, 1);
    var a := Solo(l, Config(FRESH, s), n);
    assert Solo(l, a, 1) == Solo(l, Step(l, a.proc, a.store, {}), 0);
    FailureIsRecordedIff(s, l.tx, l.env);
  }

  lemma {:induction false} SoloAble(job: Job, c: Config, n: nat)
    requires Able(job, c.proc)
    ensures Able(job, Solo(job, c, n).proc)
    decreases n
  {
    if n > 0 {
      SoloAble(job, Step(job, c.proc, c.store, {}), n - 1);
    }
  }

  lemma {:induction false} OthersRowsAside(base: seq<Tx>, rows: seq<Tx>, extra: multiset<Tx>, id: TxId,
                                           reference: string)
    requires multiset(rows) == multiset(base) + extra
    requires forall x :: x in extra ==> x.id != Some(id) && x.reference != reference
    ensures Taken(rows, id, reference) == Taken(base, id, reference)
  {
    assert forall x :: x in rows <==> x in multiset(rows);
    assert forall x :: x in base <==> x in multiset(base);
    if Taken(rows, id, reference) {
      var i :| 0 <= i < |rows| && (rows[i].id == Some(id) || rows[i].reference == reference);
      assert rows[i] in rows && rows[i] in base;
    }
    if Taken(base, id, reference) {
      var i :| 0 <= i < |base| && (base[i].id == Some(id) || base[i].reference == reference);
      assert base[i] in base && base[i] in rows;
    }
  }

  /** What a movement alone has added is its own row, which hides no other movement's. */
  lemma {:induction false} AddedIsOwn(l: Job, r: Job, s: Store, a: Config)
    requires Confined(l, s, a) && DifferentRows(l, r)
    ensures forall x :: x in Added(s, a) ==> x.id != Some(r.env.txId) && x.reference != r.tx.reference
    ensures multiset(a.store.rows) == multiset(s.rows) + Added(s, a)
  {
    AppendedRows(s.rows, a.store.rows);
    var added := a.store.rows[|s.rows|..];
    forall x | x in Added(s, a) ensures x.id == Some(l.env.txId) && x.reference == l.tx.reference {
      assert x in added;
      var k :| 0 <= k < |added| && added[k] == x;
      assert a.store.rows[|s.rows| + k] == x;
    }
  }

  lemma {:induction false} FreeForLeft(l: Job, r: Job, s: Store, w: World, a: Config, b: Config)
    requires Beside(l, r, s, w, a, b) && DifferentRows(l, r) && a.proc.pc != Finished
    ensures Taken(w.store.rows, l.env.txId, l.tx.reference) == Taken(a.store.rows, l.env.txId, l.tx.reference)
  {
    AddedIsOwn(r, l, s, b);
    OthersRowsAside(s.rows, b.store.rows, Added(s, b), l.env.txId, l.tx.reference);
  }

  lemma {:induction false} FreeForRight(l: Job, r: Job, s: Store, w: World, a: Config, b: Config)
    requires Beside(l, r, s, w, a, b) && DifferentRows(l, r)
    ensures Taken(w.store.rows, r.env.txId, r.tx.reference) == Taken(b.store.rows, r.env.txId, r.tx.reference)
  {
    AddedIsOwn(l, r, s, a);
    OthersRowsAside(b.store.rows, w.store.rows, Added(s, a), r.env.txId, r.tx.reference);
  }

  /** Two stores on which a movement's next step is the same, and so is what it adds. */
  lemma {:induction false} SameStep(job: Job, p: Proc, t: Store, u: Store, locked: set<AccountId>)
    requires t.accounts == u.accounts
    requires Taken(t.rows, job.env.txId, job.tx.reference) == Taken(u.rows, job.env.txId, job.tx.reference)
    ensures var c, d := Step(job, p, t, locked), Step(job, p, u, {});
            || c == Config(p, t)
            || (&& c.proc == d.proc && c.store.accounts == d.store.accounts
                && t.rows <= c.store.rows && u.rows <= d.store.rows
                && c.store.rows[|t.rows|..] == d.store.rows[|u.rows|..])
  {
  }

  /** What two steps have in common, seen from outside: where they lead, what they add, and that no money moves. */
  ghost predicate AlikeSteps(t: Store, u: Store, c: Config, d: Config) {
    && SameShape(c.proc, d.proc) && c.store.accounts == t.accounts && d.store.accounts == u.accounts
    && t.rows <= c.store.rows && u.rows <= d.store.rows && c.store.rows[|t.rows|..] == d.store.rows[|u.rows|..]
    && (d.proc.pc != Finished ==> c.store == t && d.store == u)
  }

  lemma {:induction false} EarlyStepAlike(job: Job, p: Proc, t: Store, u: Store, locked: set<AccountId>)
    requires Early(p.pc) && t.accounts == u.accounts
    requires Taken(t.rows, job.env.txId, job.tx.reference) == Taken(u.rows, job.env.txId, job.tx.reference)
    ensures AlikeSteps(t, u, Step(job, p, t, locked), Step(job, p, u, {}))
  {
  }

  lemma {:induction false} WriteStepAlike(job: Job, p: Proc, q: Proc, t: Store, u: Store, locked: set<AccountId>)
    requires SameShape(p, q) && (p.pc == WriteSource || p.pc == WriteDest) && Able(job, q)
    ensures var c, d := Step(job, p, t, locked), Step(job, q, u, {}); c == Config(p, t) || AlikeSteps(t, u, c, d)
  {
  }

  lemma {:induction false} LateStepAlike(job: Job, p: Proc, q: Proc, t: Store, u: Store, locked: set<AccountId>)
    requires SameShape(p, q) && !Early(p.pc) && p.pc != WriteSource && p.pc != WriteDest && Able(job, q)
    requires |t.accounts| == |u.accounts| && (p.pc == Commit ==> AtCommit in job.env.faults)
    requires Taken(t.rows, job.env.txId, job.tx.reference) == Taken(u.rows, job.env.txId, job.tx.reference)
    ensures AlikeSteps(t, u, Step(job, p, t, locked), Step(job, q, u, {}))
  {
  }

  /** The left movement's step in the world has the shape of its step alone, unless it has to wait. */
  lemma {:induction false} LeftKeepsShape(l: Job, r: Job, s: Store, w: World, a: Config, b: Config)
    requires Beside(l, r, s, w, a, b) && DifferentRows(l, r) && Doomed(l, s, a) && a.proc.pc != Finished
    ensures var c, d := Step(l, w.left, w.store, w.right.staged.Keys), Step(l, a.proc, a.store, {});
            c == Config(w.left, w.store) || AlikeSteps(w.store, a.store, c, d)
  {
    FreeForLeft(l, r, s, w, a, b);
    if Early(a.proc.pc) {
      EarlyStepAlike(l, a.proc, w.store, a.store, w.right.staged.Keys);
    } else if a.proc.pc == WriteSource || a.proc.pc == WriteDest {
      WriteStepAlike(l, w.left, a.proc, w.store, a.store, w.right.staged.Keys);
    } else {
      LateStepAlike(l, w.left, a.proc, w.store, a.store, w.right.staged.Keys);
    }
  }

  lemma {:induction false} LeftBeside(l: Job, r: Job, s: Store, w: World, a: Config, b: Config)
    requires Beside(l, r, s, w, a, b) && DifferentRows(l, r) && Doomed(l, s, a) && a.proc.pc != Finished
    ensures var w', d := Turn(l, r, w, true), Step(l, a.proc, a.store, {});
            w' == w || Beside(l, r, s, w', d, b)
  {
    var c, d := Step(l, w.left, w.store, w.right.staged.Keys), Step(l, a.proc, a.store, {});
    LeftKeepsShape(l, r, s, w, a, b);
    if c != Config(w.left, w.store) {
      StepConfined(l, s, a);
      if !Early(a.proc.pc) {
        NeverEarlyAgain(l, a, 1);
        assert Solo(l, a, 1) == Solo(l, d, 0);
      }
      assert a.store.rows == s.rows;
      AppendedRows(w.store.rows, c.store.rows);
    }
  }

  lemma {:induction false} SameAddition(t: Store, c: Store, d: Store)
    requires c.accounts == d.accounts && t.rows <= c.rows && t.rows <= d.rows
    requires c.rows[|t.rows|..] == d.rows[|t.rows|..]
    ensures c == d
  {
    assert c.rows == t.rows + c.rows[|t.rows|..] && d.rows == t.rows + d.rows[|t.rows|..];
  }

  lemma {:induction false} RightAdded(l: Job, r: Job, s: Store, w: World, a: Config, b: Config, c: Config, d: Config)
    requires Beside(l, r, s, w, a, b) && Confined(r, s, d) && c.proc == d.proc && c.store.accounts == d.store.accounts
    requires w.store.rows <= c.store.rows && b.store.rows <= d.store.rows
    requires c.store.rows[|w.store.rows|..] == d.store.rows[|b.store.rows|..]
    ensures a.proc.pc != Finished ==> c.store == d.store
    ensures d.proc.pc != Finished || !Early(a.proc.pc) ==> Beside(l, r, s, World(w.left, c.proc, c.store), a, d)
  {
    AppendedRows(w.store.rows, c.store.rows);
    AppendedRows(b.store.rows, d.store.rows);
    if a.proc.pc != Finished {
      SameAddition(w.store, c.store, d.store);
    }
  }

  lemma {:induction false} RightBeside(l: Job, r: Job, s: Store, w: World, a: Config, b: Config)
    requires Beside(l, r, s, w, a, b) && DifferentRows(l, r) && b.proc.pc != Finished
    ensures var w', d := Turn(l, r, w, false), Step(r, b.proc, b.store, {});
            || w' == w
            || (&& w'.left == w.left && w'.right == d.proc && (a.proc.pc != Finished ==> w'.store == d.store)
                && (d.proc.pc != Finished || !Early(a.proc.pc) ==> Beside(l, r, s, w', a, d)))
  {
    var c, d := Step(r, w.right, w.store, w.left.staged.Keys), Step(r, b.proc, b.store, {});
    FreeForRight(l, r, s, w, a, b);
    SameStep(r, b.proc, w.store, b.store, w.left.staged.Keys);
    if c != Config(w.right, w.store) {
      StepConfined(r, s, b);
      RightAdded(l, r, s, w, a, b, c, d);
    }
  }

  // ---- How such a world ends ----

  lemma {:induction false} FinishedOnce(job: Job, c: Config, m: nat, n: nat)
    requires Solo(job, c, m).proc.pc == Finished && Solo(job, c, n).proc.pc == Finished
    ensures Solo(job, c, m) == Solo(job, c, n)
  {
    SoloAdds(job, c, m, n);
    SoloAdds(job, c, n, m);
    FinishedStays(job, Solo(job, c, m), n);
    FinishedStays(job, Solo(job, c, n), m);
  }

  lemma {:induction false} FinishedIs(job: Job, s: Store, n: nat)
    requires Feasible(job) && Solo(job, Config(FRESH, s), n).proc.pc == Finished
    ensures Ends(job, Config(FRESH, s), n, Settle(s, job.tx, job.env).store)
  {
    SoloIsSettle(job, s);
    FinishedOnce(job, Config(FRESH, s), n, 10);
  }

  lemma {:induction false} SettlesAlike(job: Job, t: Store, u: Store)
    requires t.accounts == u.accounts
    requires Taken(t.rows, job.env.txId, job.tx.reference) == Taken(u.rows, job.env.txId, job.tx.reference)
    ensures var t', u' := Settle(t, job.tx, job.env).store, Settle(u, job.tx, job.env).store;
            && t'.accounts == u'.accounts && t.rows <= t'.rows && u.rows <= u'.rows
            && t'.rows[|t.rows|..] == u'.rows[|u.rows|..]
  {
  }

  /** A movement after one that was refused does what it would have done. */
  lemma {:induction false} AfterRefused(l: Job, r: Job, s: Store)
    requires Feasible(l) && DifferentRows(l, r) && !Succeeds(s, l)
    ensures var sl, sr, both := Settle(s, l.tx, l.env).store, Settle(s, r.tx, r.env).store, Serially(s, l, r);
            && s.rows <= sl.rows && both.accounts == sr.accounts
            && multiset(both.rows) == multiset(sr.rows) + multiset(sl.rows[|s.rows|..])
  {
    var sl, sr := Settle(s, l.tx, l.env).store, Settle(s, r.tx, r.env).store;
    SettleConfined(l, s);
    FailureIsRecordedIff(s, l.tx, l.env);
    var a := Config(Proc(Finished, None, map[]), sl);
    AddedIsOwn(l, r, s, a);
    OthersRowsAside(s.rows, sl.rows, Added(s, a), r.env.txId, r.tx.reference);
    SettlesAlike(r, sl, s);
    AppendedRows(sl.rows, Serially(s, l, r).rows);
    AppendedRows(s.rows, sr.rows);
    AppendedRows(s.rows, sl.rows);
  }

  ghost predicate EndsSerially(l: Job, r: Job, s: Store, w: World) {
    Complete(w) ==> SameOutcome(w.store, Serially(s, l, r)) || SameOutcome(w.store, Serially(s, r, l))
  }

  /** With the right movement finished, the left one goes on alone. */
  lemma {:induction false} AloneAfterRight(l: Job, r: Job, w: World, schedule: seq<bool>) returns (n: nat)
    requires w.right.pc == Finished && w.right.staged == map[]
    ensures var c := Solo(l, Config(w.left, w.store), n);
            Play(l, r, w, schedule) == World(c.proc, w.right, c.store)
    decreases |schedule|
  {
    n := 0;
    if schedule != [] {
      n := AloneAfterRight(l, r, Turn(l, r, w, schedule[0]), schedule[1..]);
      n := if schedule[0] then n + 1 else n;
    }
  }

  /** Had the left movement looked at no account when the right one finished, it runs after it. */
  lemma {:induction false} LateIsSecond(l: Job, r: Job, s: Store, w: World, i: nat, j: nat, schedule: seq<bool>)
    requires Feasible(l) && Feasible(r) && DifferentRows(l, r)
    requires var a, b := Solo(l, Config(FRESH, s), i), Solo(r, Config(FRESH, s), j);
             Early(a.proc.pc) && b.proc.pc == Finished && w == World(a.proc, b.proc, b.store)
    ensures EndsSerially(l, r, s, Play(l, r, w, schedule))
  {
    FinishedIs(r, s, j);
    SettleConfined(r, s);
    var sr := Settle(s, r.tx, r.env).store;
    var b := Config(Proc(Finished, None, map[]), sr);
    AddedIsOwn(r, l, s, b);
    OthersRowsAside(s.rows, sr.rows, Added(s, b), l.env.txId, l.tx.reference);
    EarlyIsAlike(l, s, sr, i);
    var n := AloneAfterRight(l, r, w, schedule);
    SoloAdds(l, Config(FRESH, sr), i, n);
    if Play(l, r, w, schedule).left.pc == Finished {
      FinishedIs(l, sr, i + n);
    }
  }

  lemma {:induction false} BesideEnds(l: Job, r: Job, s: Store, w: World, i: nat, j: nat)
    requires Feasible(l) && Feasible(r) && DifferentRows(l, r) && !Succeeds(s, l)
    requires Beside(l, r, s, w, Solo(l, Config(FRESH, s), i), Solo(r, Config(FRESH, s), j))
    ensures EndsSerially(l, r, s, w)
  {
    if Complete(w) {
      FinishedIs(l, s, i);
      FinishedIs(r, s, j);
      AfterRefused(l, r, s);
    }
  }

  lemma {:induction false} NextAlone(job: Job, s: Store, n: nat)
    ensures var c := Solo(job, Config(FRESH, s), n);
            Solo(job, Config(FRESH, s), n + 1) == Step(job, c.proc, c.store, {})
  {
    SoloAdds(job, Config(FRESH, s), n, 1);
    var c := Solo(job, Config(FRESH, s), n);
    assert Solo(job, c, 1) == Solo(job, Step(job, c.proc, c.store, {}), 0);
  }

  lemma {:induction false} LeftAdvances(l: Job, r: Job, s: Store, w: World, i: nat, b: Config)
    requires Feasible(l) && DifferentRows(l, r) && !Succeeds(s, l)
    requires Beside(l, r, s, w, Solo(l, Config(FRESH, s), i), b)
    ensures var w' := Turn(l, r, w, true); w' == w || Beside(l, r, s, w', Solo(l, Config(FRESH, s), i + 1), b)
  {
    var a := Solo(l, Config(FRESH, s), i);
    if a.proc.pc != Finished {
      RefusedIsDoomed(l, s, i);
      LeftBeside(l, r, s, w, a, b);
      NextAlone(l, s, i);
    }
  }

  lemma {:induction false} RightAdvances(l: Job, r: Job, s: Store, w: World, a: Config, j: nat)
    requires DifferentRows(l, r) && Beside(l, r, s, w, a, Solo(r, Config(FRESH, s), j))
    ensures var w', d := Turn(l, r, w, false), Solo(r, Config(FRESH, s), j + 1);
            || w' == w
            || Beside(l, r, s, w', a, d)
            || (Early(a.proc.pc) && d.proc.pc == Finished && w' == World(a.proc, d.proc, d.store))
  {
    var b := Solo(r, Config(FRESH, s), j);
    if b.proc.pc != Finished {
      RightBeside(l, r, s, w, a, b);
      NextAlone(r, s, j);
    }
  }

  /** Whatever the schedule, a movement refused on its own leaves the two in some serial order. */
  lemma {:induction false} RefusedPlay(l: Job, r: Job, s: Store, w: World, i: nat, j: nat, schedule: seq<bool>)
    requires Feasible(l) && Feasible(r) && DifferentRows(l, r) && !Succeeds(s, l)
    requires Beside(l, r, s, w, Solo(l, Config(FRESH, s), i), Solo(r, Config(FRESH, s), j))
    ensures EndsSerially(l, r, s, Play(l, r, w, schedule))
    decreases |schedule|
  {
    var a, b := Solo(l, Config(FRESH, s), i), Solo(r, Config(FRESH, s), j);
    if schedule == [] {
      BesideEnds(l, r, s, w, i, j);
    } else {
      var w' := Turn(l, r, w, schedule[0]);
      if w' == w {
        RefusedPlay(l, r, s, w, i, j, schedule[1..]);
      } else if schedule[0] {
        LeftAdvances(l, r, s, w, i, b);
        RefusedPlay(l, r, s, w', i + 1, j, schedule[1..]);
      } else {
        RightAdvances(l, r, s, w, a, j);
        if Beside(l, r, s, w', a, Solo(r, Config(FRESH, s), j + 1)) {
          RefusedPlay(l, r, s, w', i, j + 1, schedule[1..]);
        } else {
          LateIsSecond(l, r, s, w', i, j + 1, schedule[1..]);
        }
      }
    }
  }

  lemma {:induction false} RefusedIsSerial(l: Job, r: Job, s: Store, schedule: seq<bool>)
    requires Feasible(l) && Feasible(r) && DifferentRows(l, r) && !Succeeds(s, l)
    ensures EndsSerially(l, r, s, Play(l, r, Start(s), schedule))
  {
    RefusedPlay(l, r, s, Start(s), 0, 0, schedule);
  }

  // ---- Either movement ----

  function Swapped(schedule: seq<bool>): seq<bool> {
    if schedule == [] then [] else [!schedule[0]] + Swapped(schedule[1..])
  }

  function Mirror(w: World): World {
    World(w.right, w.left, w.store)
  }

  lemma {:induction false} MirroredPlay(l: Job, r: Job, w: World, schedule: seq<bool>)
    ensures Play(r, l, Mirror(w), Swapped(schedule)) == Mirror(Play(l, r, w, schedule))
    decreases |schedule|
  {
    if schedule != [] {
      assert Swapped(schedule)[1..] == Swapped(schedule[1..]);
      MirroredPlay(l, r, Turn(l, r, w, schedule[0]), schedule[1..]);
    }
  }

  /**
    With no lock on reads, every schedule of two movements ends as one after the other would, if and only if they
    share no account or one of them would be refused on its own.
   */
  lemma {:induction false} SerializableIff(l: Job, r: Job, s: Store)
    requires Feasible(l) && Feasible(r) && DifferentRows(l, r) && MovesMoney(l)
    ensures (forall schedule :: EndsSerially(l, r, s, Play(l, r, Start(s), schedule)))
            <==> Apart(l, r) || !Succeeds(s, l) || !Succeeds(s, r)
  {
    if !Succeeds(s, l) {
      forall schedule ensures EndsSerially(l, r, s, Play(l, r, Start(s), schedule)) {
        RefusedIsSerial(l, r, s, schedule);
      }
    } else if !Succeeds(s, r) {
      forall schedule ensures EndsSerially(l, r, s, Play(l, r, Start(s), schedule)) {
        RefusedIsSerial(r, l, s, Swapped(schedule));
        MirroredPlay(l, r, Start(s), schedule);
      }
    } else {
      SerializableIffDisjoint(l, r, s);
      if Apart(l, r) {
        forall schedule ensures EndsSerially(l, r, s, Play(l, r, Start(s), schedule)) {
        }
      } else {
        var schedule, x := UpdatesCanBeLost(l, r, s);
        assert !EndsSerially(l, r, s, Play(l, r, Start(s), schedule));
      }
    }
  }
}
