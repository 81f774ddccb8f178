/** When interleaved movements amount to running one after the other: exactly when they share no account. */
module Serializability {
  import opened Outcomes
  import opened Ledger
  import opened Interleaving
  import History

  datatype World = World(left: Proc, right: Proc, store: Store)

  function Turn(l: Job, r: Job, w: World, leftMoves: bool): World {
    if leftMoves then
      var c := Step(l, w.left, w.store, w.right.staged.Keys);
      World(c.proc, w.right, c.store)
    else
      var c := Step(r, w.right, w.store, w.left.staged.Keys);
      World(w.left, c.proc, c.store)
  }

  /** The movements take steps in the order of the schedule: true for the left one, false for the right one. */
  function Play(l: Job, r: Job, w: World, schedule: seq<bool>): World
    decreases |schedule|
  {
    if schedule == [] then w else Play(l, r, Turn(l, r, w, schedule[0]), schedule[1..])
  }

  function Start(s: Store): World {
    World(FRESH, FRESH, s)
  }

  predicate Complete(w: World) {
    w.left.pc == Finished && w.right.pc == Finished
  }

  predicate Apart(l: Job, r: Job) {
    Footprint(l) !! Footprint(r)
  }

  predicate DifferentRows(l: Job, r: Job) {
    l.env.txId != r.env.txId && l.tx.reference != r.tx.reference
  }

  // ---- Each movement proceeds as if alone ----

  /** A movement alone, some steps in: until it finishes it has changed nothing, and then only what is its own. */
  ghost predicate Confined(job: Job, s0: Store, c: Config) {
    && (c.proc.pc != Finished ==> c.store == s0)
    && c.proc.staged.Keys <= Footprint(job)
    && |c.store.accounts| == |s0.accounts|
    && (forall i :: 0 <= i < |s0.accounts| && i !in Footprint(job) ==> c.store.accounts[i] == s0.accounts[i])
    && s0.rows <= c.store.rows
    && (forall k :: |s0.rows| <= k < |c.store.rows| ==>
          c.store.rows[k].id == Some(job.env.txId) && c.store.rows[k].reference == job.tx.reference)
  }

  ghost function Added(s0: Store, c: Config): multiset<Tx>
    requires s0.rows <= c.store.rows
  {
    multiset(c.store.rows[|s0.rows|..])
  }

  /** The world is the two movements run alone from `s0`, side by side. */
  ghost predicate SideBySide(l: Job, r: Job, s0: Store, w: World, a: Config, b: Config) {
    && Confined(l, s0, a) && Confined(r, s0, b) && w.left == a.proc && w.right == b.proc
    && |w.store.accounts| == |s0.accounts|
    && (forall i :: 0 <= i < |s0.accounts| ==>
          w.store.accounts[i] == if i in Footprint(l) then a.store.accounts[i] else b.store.accounts[i])
    && multiset(w.store.rows) == multiset(s0.rows) + Added(s0, a) + Added(s0, b)
  }

  lemma {:induction false} StepConfined(job: Job, s0: Store, c: Config)
    requires Confined(job, s0, c)
    ensures Confined(job, s0, Step(job, c.proc, c.store, {}))
  {
  }

  lemma {:induction false} TakenIsLocal(l: Job, r: Job, s0: Store, w: World, a: Config, b: Config)
    requires SideBySide(l, r, s0, w, a, b) && DifferentRows(l, r) && a.proc.pc != Finished
    ensures Taken(w.store.rows, l.env.txId, l.tx.reference) == Taken(a.store.rows, l.env.txId, l.tx.reference)
  {
    var id, reference := l.env.txId, l.tx.reference;
    assert a.store.rows[|s0.rows|..] == [];
    var extra := b.store.rows[|s0.rows|..];
    assert forall x :: x in w.store.rows <==> x in multiset(w.store.rows);
    assert forall x :: x in s0.rows <==> x in multiset(s0.rows);
    assert forall x :: x in extra <==> x in multiset(extra);
    if Taken(w.store.rows, id, reference) {
      var i :| 0 <= i < |w.store.rows| && (w.store.rows[i].id == Some(id) || w.store.rows[i].reference == reference);
      var x := w.store.rows[i];
      assert x in w.store.rows;
      assert x in s0.rows || x in extra;
    }
    if Taken(s0.rows, id, reference) {
      var i :| 0 <= i < |s0.rows| && (s0.rows[i].id == Some(id) || s0.rows[i].reference == reference);
      assert s0.rows[i] in w.store.rows;
    }
  }

  /** The step the left movement takes in the world is the one it takes alone. */
  lemma {:induction false} SameMove(l: Job, r: Job, s0: Store, w: World, a: Config, b: Config)
    requires SideBySide(l, r, s0, w, a, b) && Apart(l, r) && DifferentRows(l, r) && a.proc.pc != Finished
    ensures Step(l, w.left, w.store, w.right.staged.Keys).proc == Step(l, a.proc, a.store, {}).proc
    ensures var d := Step(l, a.proc, a.store, {}).store;
            var c := Step(l, w.left, w.store, w.right.staged.Keys).store;
            && d.rows[|s0.rows|..] == c.rows[|w.store.rows|..] && w.store.rows <= c.rows
            && |c.accounts| == |s0.accounts|
            && forall i :: 0 <= i < |s0.accounts| ==>
                 c.accounts[i] == if i in Footprint(l) then d.accounts[i] else w.store.accounts[i]
  {
    TakenIsLocal(l, r, s0, w, a, b);
    var p, locked := a.proc, w.right.staged.Keys;
    if p.pc == Commit || p.pc.RecordFailure? {
    } else {
      assert Step(l, a.proc, a.store, {}).store == a.store;
      assert Step(l, p, w.store, locked).store == w.store;
    }
  }

  lemma {:induction false} AppendedRows(base: seq<Tx>, rows: seq<Tx>)
    requires base <= rows
    ensures multiset(rows) == multiset(base) + multiset(rows[|base|..])
  {
    assert rows == base + rows[|base|..];
  }

  lemma {:induction false} Advanced(l: Job, r: Job, s0: Store, w: World, a: Config, b: Config, c: Config, d: Config)
    requires SideBySide(l, r, s0, w, a, b) && a.proc.pc != Finished && Confined(l, s0, d) && c.proc == d.proc
    requires w.store.rows <= c.store.rows && d.store.rows[|s0.rows|..] == c.store.rows[|w.store.rows|..]
    requires |c.store.accounts| == |s0.accounts|
    requires forall i :: 0 <= i < |s0.accounts| ==>
               c.store.accounts[i] == if i in Footprint(l) then d.store.accounts[i] else w.store.accounts[i]
    ensures SideBySide(l, r, s0, World(c.proc, w.right, c.store), d, b)
  {
    assert a.store.rows[|s0.rows|..] == [];
    AppendedRows(w.store.rows, c.store.rows);
  }

  lemma {:induction false} LeftTurn(l: Job, r: Job, s0: Store, w: World, a: Config, b: Config)
    requires SideBySide(l, r, s0, w, a, b) && Apart(l, r) && DifferentRows(l, r)
    ensures SideBySide(l, r, s0, Turn(l, r, w, true), Step(l, a.proc, a.store, {}), b)
  {
    if a.proc.pc != Finished {
      StepConfined(l, s0, a);
      SameMove(l, r, s0, w, a, b);
      Advanced(l, r, s0, w, a, b, Step(l, w.left, w.store, w.right.staged.Keys), Step(l, a.proc, a.store, {}));
    }
  }

  lemma {:induction false} Mirrored(l: Job, r: Job, s0: Store, w: World, a: Config, b: Config)
    requires SideBySide(l, r, s0, w, a, b) && Apart(l, r)
    ensures SideBySide(r, l, s0, World(w.right, w.left, w.store), b, a)
  {
  }

  lemma {:induction false} PlayedSideBySide(l: Job, r: Job, s0: Store, w: World, a: Config, b: Config,
                                            schedule: seq<bool>)
      returns (i: nat, j: nat)
    requires SideBySide(l, r, s0, w, a, b) && Apart(l, r) && DifferentRows(l, r)
    ensures SideBySide(l, r, s0, Play(l, r, w, schedule), Solo(l, a, i), Solo(r, b, j))
    decreases |schedule|
  {
    i, j := 0, 0;
    if schedule != [] {
      if schedule[0] {
        LeftTurn(l, r, s0, w, a, b);
        i, j := PlayedSideBySide(l, r, s0, Turn(l, r, w, true), Step(l, a.proc, a.store, {}), b, schedule[1..]);
        i := i + 1;
      } else {
        var m := World(w.right, w.left, w.store);
        Mirrored(l, r, s0, w, a, b);
        LeftTurn(r, l, s0, m, b, a);
        var m' := Turn(r, l, m, true);
        Mirrored(r, l, s0, m', Step(r, b.proc, b.store, {}), a);
        i, j := PlayedSideBySide(l, r, s0, Turn(l, r, w, false), a, Step(r, b.proc, b.store, {}), schedule[1..]);
        j := j + 1;
      }
    }
  }

  /** Alone, a movement shows nothing of itself until it shows everything. */
  lemma {:induction false} SoloIsAtomic(job: Job, s: Store, n: nat)
    requires Feasible(job)
    ensures var c := Solo(job, Config(FRESH, s), n);
            && Confined(job, s, c)
            && (c.proc.pc != Finished ==> c.store == s)
            && (c.proc.pc == Finished ==> c.store == Settle(s, job.tx, job.env).store)
  {
    SoloConfined(job, s, Config(FRESH, s), n);
    var c := Solo(job, Config(FRESH, s), n);
    if c.proc.pc == Finished {
      SoloIsSettle(job, s);
      SoloAdds(job, Config(FRESH, s), n, 10);
      SoloAdds(job, Config(FRESH, s), 10, n);
      FinishedStays(job, c, 10);
      FinishedStays(job, Solo(job, Config(FRESH, s), 10), n);
    }
  }

  lemma {:induction false} SoloConfined(job: Job, s0: Store, c: Config, n: nat)
    requires Confined(job, s0, c)
    ensures Confined(job, s0, Solo(job, c, n))
    decreases n
  {
    if n > 0 {
      StepConfined(job, s0, c);
      SoloConfined(job, s0, Step(job, c.proc, c.store, {}), n - 1);
    }
  }

  /** In no schedule do both movements hold an uncommitted write of one account: the second write waits. */
  lemma {:induction false} NoDirtyWrites(l: Job, r: Job, w: World, schedule: seq<bool>)
    requires w.left.staged.Keys !! w.right.staged.Keys
    ensures var end := Play(l, r, w, schedule); end.left.staged.Keys !! end.right.staged.Keys
    decreases |schedule|
  {
    if schedule != [] {
      NoDirtyWrites(l, r, Turn(l, r, w, schedule[0]), schedule[1..]);
    }
  }

  // ---- Disjoint accounts ----

  function Serially(s: Store, first: Job, second: Job): Store {
    Settle(Settle(s, first.tx, first.env).store, second.tx, second.env).store
  }

  ghost predicate SameOutcome(s: Store, t: Store) {
    s.accounts == t.accounts && multiset(s.rows) == multiset(t.rows)
  }

  /** Running second changes nothing about a movement whose accounts the first one did not touch. */
  lemma {:induction false} SecondIsUndisturbed(l: Job, r: Job, s: Store)
    requires Feasible(l) && Feasible(r) && Apart(l, r) && DifferentRows(l, r)
    ensures var first, other, both := Settle(s, l.tx, l.env).store, Settle(s, r.tx, r.env).store, Serially(s, l, r);
            && s.rows <= other.rows && first.rows <= both.rows
            && both.rows[|first.rows|..] == other.rows[|s.rows|..]
            && |both.accounts| == |s.accounts| == |first.accounts| == |other.accounts|
            && forall i :: 0 <= i < |s.accounts| ==>
                 both.accounts[i] == if i in Footprint(r) then other.accounts[i] else first.accounts[i]
  {
    SettleConfined(l, s);
    SettleConfined(r, s);
    var first := Settle(s, l.tx, l.env).store;
    SettleConfined(r, first);
    SecondFailsAlike(l, r, s, first);
  }

  lemma {:induction false} SecondFailsAlike(l: Job, r: Job, s: Store, first: Store)
    requires Apart(l, r) && DifferentRows(l, r) && Confined(l, s, Config(Proc(Finished, None, map[]), first))
    ensures Taken(first.rows, r.env.txId, r.tx.reference) == Taken(s.rows, r.env.txId, r.tx.reference)
    ensures Failure(first, r.tx, r.env) == Failure(s, r.tx, r.env)
  {
    if Taken(s.rows, r.env.txId, r.tx.reference) {
      var i :| 0 <= i < |s.rows| && (s.rows[i].id == Some(r.env.txId) || s.rows[i].reference == r.tx.reference);
      assert first.rows[i] == s.rows[i];
    }
  }

  lemma {:induction false} SettleConfined(job: Job, s: Store)
    requires Feasible(job)
    ensures Confined(job, s, Config(Proc(Finished, None, map[]), Settle(s, job.tx, job.env).store))
  {
    SoloIsSettle(job, s);
    SoloIsAtomic(job, s, 10);
  }

  /** What the committed store shows when each movement has shown all of itself or nothing. */
  function Shown(s: Store, l: Job, r: Job, left: bool, right: bool): Store {
    if left && right then Serially(s, l, r)
    else if left then Settle(s, l.tx, l.env).store
    else if right then Settle(s, r.tx, r.env).store
    else s
  }

  lemma {:induction false} SideBySideIs(l: Job, r: Job, s: Store, w: World, a: Config, b: Config, both: Store)
    requires SideBySide(l, r, s, w, a, b) && Apart(l, r)
    requires a.store.rows <= both.rows && both.rows[|a.store.rows|..] == b.store.rows[|s.rows|..]
    requires |both.accounts| == |s.accounts|
    requires forall i :: 0 <= i < |s.accounts| ==>
               both.accounts[i] == if i in Footprint(r) then b.store.accounts[i] else a.store.accounts[i]
    ensures SameOutcome(w.store, both)
  {
    AppendedRows(s.rows, a.store.rows);
    AppendedRows(a.store.rows, both.rows);
  }

  /**
    At every moment of every schedule the committed store is that of some of the two movements having run, one
    after the other: nothing half-applied is ever visible, and stopping anywhere leaves nothing half-applied.
   */
  lemma {:induction false} NothingHalfDoneIsVisible(l: Job, r: Job, s: Store, schedule: seq<bool>)
    requires Feasible(l) && Feasible(r) && Apart(l, r) && DifferentRows(l, r)
    ensures var w := Play(l, r, Start(s), schedule);
            SameOutcome(w.store, Shown(s, l, r, w.left.pc == Finished, w.right.pc == Finished))
  {
    var init := Config(FRESH, s);
    var i, j := PlayedSideBySide(l, r, s, Start(s), init, init, schedule);
    var w, a, b := Play(l, r, Start(s), schedule), Solo(l, init, i), Solo(r, init, j);
    SoloIsAtomic(l, s, i);
    SoloIsAtomic(r, s, j);
    ShownIs(l, r, s, w, a, b);
  }

  lemma {:induction false} ShownIs(l: Job, r: Job, s: Store, w: World, a: Config, b: Config)
    requires Feasible(l) && Feasible(r) && Apart(l, r) && DifferentRows(l, r) && SideBySide(l, r, s, w, a, b)
    requires a.store == if a.proc.pc == Finished then Settle(s, l.tx, l.env).store else s
    requires b.store == if b.proc.pc == Finished then Settle(s, r.tx, r.env).store else s
    ensures SameOutcome(w.store, Shown(s, l, r, w.left.pc == Finished, w.right.pc == Finished))
  {
    SecondIsUndisturbed(l, r, s);
    SideBySideIs(l, r, s, w, a, b, Shown(s, l, r, w.left.pc == Finished, w.right.pc == Finished));
  }

  /** Every complete schedule of movements on disjoint accounts ends as both serial orders do. */
  lemma {:induction false} DisjointSchedulesAreSerial(l: Job, r: Job, s: Store, schedule: seq<bool>)
    requires Feasible(l) && Feasible(r) && Apart(l, r) && DifferentRows(l, r)
    requires Complete(Play(l, r, Start(s), schedule))
    ensures var end := Play(l, r, Start(s), schedule).store;
            SameOutcome(end, Serially(s, l, r)) && SameOutcome(end, Serially(s, r, l))
  {
    NothingHalfDoneIsVisible(l, r, s, schedule);
    SecondIsUndisturbed(l, r, s);
    SecondIsUndisturbed(r, l, s);
    SettleConfined(l, s);
    SettleConfined(r, s);
    var sl, sr := Settle(s, l.tx, l.env).store, Settle(s, r.tx, r.env).store;
    AppendedRows(s.rows, sl.rows);
    AppendedRows(s.rows, sr.rows);
    AppendedRows(sl.rows, Serially(s, l, r).rows);
    AppendedRows(sr.rows, Serially(s, r, l).rows);
  }

  // ---- Shared accounts, one after the other ----

  predicate Succeeds(s: Store, job: Job) {
    AtBegin !in job.env.faults && Failure(s, job.tx, job.env).None?
  }

  predicate SucceedEitherWay(s: Store, l: Job, r: Job) {
    && Succeeds(s, l) && Succeeds(Settle(s, l.tx, l.env).store, r)
    && Succeeds(s, r) && Succeeds(Settle(s, r.tx, r.env).store, l)
  }

  lemma {:induction false} MovedPointwise(accounts: seq<Account>, tx: Tx, i: nat)
    requires RefersTo(accounts, tx) && i < |accounts|
    ensures Moved(accounts, tx)[i] == Changed(accounts[i], Delta(tx, i))
  {
  }

  lemma {:induction false} SucceededRow(s: Store, job: Job)
    requires Succeeds(s, job)
    ensures RefersTo(s.accounts, job.tx)
    ensures Settle(s, job.tx, job.env).store
            == Store(Moved(s.accounts, job.tx), s.rows + [Done(job)])
  {
  }

  /** The row of a movement that succeeded. */
  function Done(job: Job): Tx {
    job.tx.(id := Some(job.env.txId), status := Completed)
  }

  lemma {:induction false} MovesCommute(accounts: seq<Account>, t: Tx, u: Tx)
    requires RefersTo(accounts, t) && RefersTo(accounts, u)
    ensures Moved(Moved(accounts, t), u) == Moved(Moved(accounts, u), t)
  {
    var tu, ut := Moved(Moved(accounts, t), u), Moved(Moved(accounts, u), t);
    forall i: nat | i < |accounts| ensures tu[i] == ut[i] {
      MovedTwice(accounts, t, u, i);
      MovedTwice(accounts, u, t, i);
    }
  }

  function Delta(tx: Tx, i: AccountId): int {
    (if tx.destination == Some(i) then tx.amount else 0) - (if tx.source == Some(i) then tx.amount + tx.fee else 0)
  }

  lemma {:induction false} MovedTwice(accounts: seq<Account>, t: Tx, u: Tx, i: nat)
    requires RefersTo(accounts, t) && RefersTo(accounts, u) && i < |accounts|
    ensures Moved(Moved(accounts, t), u)[i] == Changed(accounts[i], Delta(t, i) + Delta(u, i))
  {
    MovedPointwise(accounts, t, i);
    MovedPointwise(Moved(accounts, t), u, i);
  }

  /** Movements that succeed in both orders, accounts shared or not, end with the same balances and rows in both. */
  lemma {:induction false} OrderIsImmaterial(l: Job, r: Job, s: Store)
    requires SucceedEitherWay(s, l, r)
    ensures SameOutcome(Serially(s, l, r), Serially(s, r, l))
  {
    SucceededRow(s, l);
    SucceededRow(s, r);
    SucceededRow(Settle(s, l.tx, l.env).store, r);
    SucceededRow(Settle(s, r.tx, r.env).store, l);
    MovesCommute(s.accounts, l.tx, r.tx);
  }

  // ---- Shared accounts, interleaved ----

  function Times(n: nat, leftMoves: bool): seq<bool> {
    if n == 0 then [] else [leftMoves] + Times(n - 1, leftMoves)
  }

  lemma {:induction false} PlayOn(l: Job, r: Job, w: World, first: seq<bool>, more: seq<bool>)
    ensures Play(l, r, w, first + more) == Play(l, r, Play(l, r, w, first), more)
    decreases |first|
  {
    if first == [] {
      assert first + more == more;
    } else {
      assert (first + more)[1..] == first[1..] + more;
      PlayOn(l, r, Turn(l, r, w, first[0]), first[1..], more);
    }
  }

  lemma {:induction false} RightAlone(l: Job, r: Job, w: World, n: nat)
    requires w.left.staged == map[]
    ensures var c := Solo(r, Config(w.right, w.store), n);
            Play(l, r, w, Times(n, false)) == World(w.left, c.proc, c.store)
    decreases n
  {
    if n > 0 {
      assert Times(n, false)[1..] == Times(n - 1, false);
      RightAlone(l, r, Turn(l, r, w, false), n - 1);
    }
  }

  lemma {:induction false} LeftAlone(l: Job, r: Job, w: World, n: nat)
    requires w.right.staged.Keys !! Footprint(l)
    ensures var c := Solo(l, Config(w.left, w.store), n);
            Play(l, r, w, Times(n, true)) == World(c.proc, w.right, c.store)
    decreases n
  {
    if n > 0 {
      assert Times(n, true)[1..] == Times(n - 1, true);
      assert Step(l, w.left, w.store, w.right.staged.Keys) == Step(l, w.left, w.store, {});
      LeftAlone(l, r, Turn(l, r, w, true), n - 1);
    }
  }

  /** The right movement has read an account that the left one changes before the right one writes it. */
  lemma {:induction false} HasReadShared(l: Job, r: Job, s: Store) returns (k: nat, x: AccountId)
    requires Feasible(r) && Succeeds(s, r) && !Apart(l, r)
    ensures x in Footprint(l) && x in Footprint(r) && x < |s.accounts|
    ensures var c := Solo(r, Config(FRESH, s), k);
            && c.store == s && c.proc.read == Some(s.accounts[x]) && c.proc.staged.Keys !! Footprint(l)
            && (r.tx.source == Some(x) ==> c.proc.pc == WriteSource)
            && (r.tx.source != Some(x) ==> c.proc.pc == WriteDest && r.tx.destination == Some(x))
  {
    var c1 := Step(r, FRESH, s, {});
    var c2 := Step(r, c1.proc, s, {});
    var c3 := Step(r, c2.proc, s, {});
    k := 3;
    assert Solo(r, Config(FRESH, s), 3) == Solo(r, c1, 2) == Solo(r, c2, 1) == Solo(r, c3, 0);
    if r.tx.source.Some? && r.tx.source.value in Footprint(l) {
      x := r.tx.source.value;
    } else {
      x := r.tx.destination.value;
      if r.tx.source.Some? {
        var c4 := Step(r, c3.proc, s, {});
        var c5 := Step(r, c4.proc, s, {});
        k := 5;
        SoloAdds(r, Config(FRESH, s), 3, 2);
        assert Solo(r, c3, 2) == Solo(r, c4, 1) == Solo(r, c5, 0);
      }
    }
  }

  /** Resumed on a changed store, a movement still writes what it computed from the balance it had read. */
  lemma {:induction false} WritesWhatItRead(r: Job, p: Proc, s: Store, x: AccountId, read: Account)
    requires Feasible(r) && p.read == Some(read) && x < |s.accounts|
    requires r.tx.destination.Some? ==> r.tx.destination.value < |s.accounts|
    requires AtMark !in r.env.faults && AtCommit !in r.env.faults
    requires r.tx.destination.Some? ==> AtCredit !in r.env.faults
    requires (r.tx.source == Some(x) && p.pc == WriteSource)
             || (r.tx.source != Some(x) && r.tx.destination == Some(x) && p.pc == WriteDest)
    ensures var c := Solo(r, Config(p, s), 10);
            && c.proc.pc == Finished && |c.store.accounts| == |s.accounts|
            && c.store.accounts[x] == Changed(read, Delta(r.tx, x))
            && c.store.rows == s.rows + [Done(r)]
  {
    if p.pc == WriteSource {
      WriteSourceEnds(r, p, s, 10);
    } else {
      WriteDestEnds(r, p, s, 10);
    }
  }

  lemma {:induction false} CanResume(l: Job, r: Job, s: Store)
    requires Succeeds(s, l) && Succeeds(s, r)
    ensures |Settle(s, l.tx, l.env).store.accounts| == |s.accounts|
    ensures Settle(s, l.tx, l.env).store.rows == s.rows + [Done(l)]
    ensures r.tx.destination.Some? ==> r.tx.destination.value < |s.accounts|
    ensures AtMark !in r.env.faults && AtCommit !in r.env.faults
    ensures r.tx.destination.Some? ==> AtCredit !in r.env.faults
  {
    SucceededRow(s, l);
    SucceededRow(s, r);
  }

  predicate MovesMoney(job: Job) {
    job.tx.amount > 0 && job.tx.amount + job.tx.fee > 0
  }

  /** Right until it has read, then left to the end, then right to the end. */
  function Overlapping(k: nat): seq<bool> {
    Times(k, false) + Times(10, true) + Times(10, false)
  }

  lemma {:induction false} PlayOverlapping(l: Job, r: Job, s: Store, k: nat)
    requires Feasible(l)
    requires var c := Solo(r, Config(FRESH, s), k); c.store == s && c.proc.staged.Keys !! Footprint(l)
    ensures var p := Solo(r, Config(FRESH, s), k).proc;
            var end := Solo(r, Config(p, Settle(s, l.tx, l.env).store), 10);
            var w := Play(l, r, Start(s), Overlapping(k));
            w.left.pc == Finished && w.right == end.proc && w.store == end.store
  {
    var c := Solo(r, Config(FRESH, s), k);
    RightAlone(l, r, Start(s), k);
    LeftAlone(l, r, World(FRESH, c.proc, s), 10);
    SoloIsSettle(l, s);
    var done := Solo(l, Config(FRESH, s), 10);
    RightAlone(l, r, World(done.proc, c.proc, done.store), 10);
    PlayOn(l, r, Start(s), Times(k, false), Times(10, true));
    PlayOn(l, r, Start(s), Times(k, false) + Times(10, true), Times(10, false));
  }

  /** A serial order either does to each account what both movements do, or it refuses the second. */
  lemma {:induction false} SerialOrderDiffers(first: Job, second: Job, s: Store, x: AccountId, end: Store)
    requires Succeeds(s, first) && x < |s.accounts| == |end.accounts|
    requires multiset(end.rows) == multiset(s.rows) + multiset{Done(first)} + multiset{Done(second)}
    requires end.accounts[x] != Changed(s.accounts[x], Delta(first.tx, x) + Delta(second.tx, x))
    ensures !SameOutcome(end, Serially(s, first, second))
  {
    SucceededRow(s, first);
    var once := Settle(s, first.tx, first.env).store;
    if Succeeds(once, second) {
      SucceededRow(once, second);
      MovedTwice(s.accounts, first.tx, second.tx, x);
    } else {
      RefusedRowDiffers(once, second);
    }
  }

  lemma {:induction false} RefusedRowDiffers(s: Store, job: Job)
    requires !Succeeds(s, job)
    ensures multiset(Settle(s, job.tx, job.env).store.rows) != multiset(s.rows) + multiset{Done(job)}
  {
    FailureIsRecordedIff(s, job.tx, job.env);
    var rows := Settle(s, job.tx, job.env).store.rows;
    if rows != s.rows {
      var failed := rows[|s.rows|];
      assert rows == s.rows + [failed] && failed.status == FailedTx;
      assert multiset(rows) == multiset(s.rows) + multiset{failed};
      assert (multiset(s.rows) + multiset{failed})[failed] != (multiset(s.rows) + multiset{Done(job)})[failed];
    } else {
      assert (multiset(s.rows) + multiset{Done(job)})[Done(job)] != multiset(rows)[Done(job)];
    }
  }

  /** A row that counts for an account whose balance it did not change. */
  lemma {:induction false} LostUpdateBreaksReplay(l: Job, r: Job, s: Store, x: AccountId, end: Store)
    requires x < |s.accounts| == |end.accounts| && end.rows == s.rows + [Done(l)] + [Done(r)]
    requires end.accounts[x] == Changed(s.accounts[x], Delta(r.tx, x)) && Delta(l.tx, x) != 0
    requires History.Replays(s)
    ensures !History.Replays(end)
  {
    History.NetOfOne(s.rows, Done(l), x);
    History.NetOfOne(s.rows + [Done(l)], Done(r), x);
  }

  /**
    Of any two movements that share an account and would each succeed, one's effect on it can be lost: both end
    COMPLETED, but the balance shows only the other's. No serial order ends so, and a log that the balances
    replayed they no longer do - even when the account could only afford one of the two.
   */
  lemma {:induction false} UpdatesCanBeLost(l: Job, r: Job, s: Store) returns (schedule: seq<bool>, x: AccountId)
    requires Feasible(l) && Feasible(r) && !Apart(l, r) && Succeeds(s, l) && Succeeds(s, r) && MovesMoney(l)
    ensures x in Footprint(l) && x in Footprint(r) && x < |s.accounts|
    ensures var w := Play(l, r, Start(s), schedule);
            && Complete(w) && w.store.rows == s.rows + [Done(l)] + [Done(r)]
            && |w.store.accounts| == |s.accounts| && w.store.accounts[x] == Changed(s.accounts[x], Delta(r.tx, x))
            && !SameOutcome(w.store, Serially(s, l, r)) && !SameOutcome(w.store, Serially(s, r, l))
            && (SucceedEitherWay(s, l, r) ==> w.store.accounts != Serially(s, l, r).accounts)
            && (History.Replays(s) ==> !History.Replays(w.store))
  {
    var k;
    k, x := HasReadShared(l, r, s);
    schedule := Overlapping(k);
    PlayOverlapping(l, r, s, k);
    CanResume(l, r, s);
    WritesWhatItRead(r, Solo(r, Config(FRESH, s), k).proc, Settle(s, l.tx, l.env).store, x, s.accounts[x]);
    LostUpdateShows(l, r, s, x, Play(l, r, Start(s), schedule).store);
  }

  lemma {:induction false} LostUpdateShows(l: Job, r: Job, s: Store, x: AccountId, end: Store)
    requires Feasible(l) && Succeeds(s, l) && Succeeds(s, r) && MovesMoney(l)
    requires x in Footprint(l) && x < |s.accounts| == |end.accounts|
    requires end.rows == s.rows + [Done(l)] + [Done(r)] && end.accounts[x] == Changed(s.accounts[x], Delta(r.tx, x))
    ensures !SameOutcome(end, Serially(s, l, r)) && !SameOutcome(end, Serially(s, r, l))
    ensures SucceedEitherWay(s, l, r) ==> end.accounts != Serially(s, l, r).accounts
    ensures History.Replays(s) ==> !History.Replays(end)
  {
    assert Delta(l.tx, x) != 0;
    SerialOrderDiffers(l, r, s, x, end);
    SerialOrderDiffers(r, l, s, x, end);
    if SucceedEitherWay(s, l, r) {
      SucceededRow(s, l);
      SucceededRow(Settle(s, l.tx, l.env).store, r);
      MovedTwice(s.accounts, l.tx, r.tx, x);
    }
    if History.Replays(s) {
      LostUpdateBreaksReplay(l, r, s, x, end);
    }
  }

  /**
    With no lock on reads, two movements that would each succeed end as if run in one order or the other, whatever
    the schedule, exactly when they have no account in common; where both orders succeed, in the balances alone.
   */
  lemma {:induction false} SerializableIffDisjoint(l: Job, r: Job, s: Store)
    requires Feasible(l) && Feasible(r) && DifferentRows(l, r) && Succeeds(s, l) && Succeeds(s, r) && MovesMoney(l)
    ensures Apart(l, r) <==>
              forall schedule :: Complete(Play(l, r, Start(s), schedule)) ==>
                var end := Play(l, r, Start(s), schedule).store;
                SameOutcome(end, Serially(s, l, r)) || SameOutcome(end, Serially(s, r, l))
    ensures SucceedEitherWay(s, l, r) ==>
              (Apart(l, r) <==>
                 forall schedule :: Complete(Play(l, r, Start(s), schedule)) ==>
                   Play(l, r, Start(s), schedule).store.accounts == Serially(s, l, r).accounts)
  {
    if Apart(l, r) {
      forall schedule | Complete(Play(l, r, Start(s), schedule))
        ensures SameOutcome(Play(l, r, Start(s), schedule).store, Serially(s, l, r))
      {
        DisjointSchedulesAreSerial(l, r, s, schedule);
      }
    } else {
      var schedule, x := UpdatesCanBeLost(l, r, s);
    }
  }

  /** The job takes out of an account, to no other, all it holds. */
  predicate Empties(job: Job, s: Store, account: AccountId) {
    && job.tx.source == Some(account) && job.tx.destination == None && account < |s.accounts|
    && job.tx.amount + job.tx.fee == s.accounts[account].balance && job.tx.amount > 0 && s.accounts[account].balance > 0
  }

  /** An account can pay out its whole balance twice, both payments COMPLETED, though each refuses the other in turn. */
  lemma {:induction false} BalanceCanBeSpentTwice(l: Job, r: Job, s: Store, account: AccountId)
      returns (schedule: seq<bool>)
    requires Empties(l, s, account) && Empties(r, s, account) && Succeeds(s, l) && Succeeds(s, r)
    ensures var w := Play(l, r, Start(s), schedule);
            && Complete(w) && w.store.rows == s.rows + [Done(l)] + [Done(r)]
            && |w.store.accounts| == |s.accounts| && w.store.accounts[account].balance == 0
    ensures !Succeeds(Settle(s, l.tx, l.env).store, r) && !Succeeds(Settle(s, r.tx, r.env).store, l)
  {
    assert account in Footprint(l) && account in Footprint(r);
    var x;
    schedule, x := UpdatesCanBeLost(l, r, s);
    EmptiedRefuses(l, r, s, account);
    EmptiedRefuses(r, l, s, account);
  }

  lemma {:induction false} EmptiedRefuses(first: Job, second: Job, s: Store, account: AccountId)
    requires Empties(first, s, account) && Empties(second, s, account) && Succeeds(s, first)
    ensures !Succeeds(Settle(s, first.tx, first.env).store, second)
  {
    SucceededRow(s, first);
    MovedPointwise(s.accounts, first.tx, account);
  }

  function WithdrawalJob(amount: int, txId: TxId, reference: string): Job {
    var env := Env(0, txId, reference, {});
    Job(WithdrawalRow(WithdrawalRequest(0, amount, None), NGN, None, env), env)
  }

  function OneAccount(balance: int): Store {
    Store([Account("0000000001", "owner", NGN, Active, balance, balance)], [])
  }

  lemma {:induction false} WithdrawalOfAllSucceeds(amount: int, txId: TxId, reference: string)
    requires amount > 0
    ensures Succeeds(OneAccount(amount), WithdrawalJob(amount, txId, reference))
    ensures Empties(WithdrawalJob(amount, txId, reference), OneAccount(amount), 0)
  {
  }

  /** One account holding 100 and two withdrawals of 100: both end COMPLETED, and the balance is 0. */
  lemma {:induction false} HundredPaidTwice() returns (schedule: seq<bool>)
    ensures var l, r := WithdrawalJob(100, 1, "TXN-1"), WithdrawalJob(100, 2, "TXN-2");
            var w := Play(l, r, Start(OneAccount(100)), schedule);
            && Complete(w) && w.store.rows == [Done(l), Done(r)]
            && |w.store.accounts| == 1 && w.store.accounts[0].balance == 0
  {
    WithdrawalOfAllSucceeds(100, 1, "TXN-1");
    WithdrawalOfAllSucceeds(100, 2, "TXN-2");
    var l, r := WithdrawalJob(100, 1, "TXN-1"), WithdrawalJob(100, 2, "TXN-2");
    schedule := BalanceCanBeSpentTwice(l, r, OneAccount(100), 0);
  }
}
