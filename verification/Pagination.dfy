/** Transaction lists in pages. */
module Pagination {
  import opened Outcomes
  import opened Seqs
  import opened Ledger
  import opened History

  const MAX_TAKE := 100

  datatype Page<T> = Page(data: seq<T>, total: nat, page: nat, limit: nat, totalPages: nat)

  /** `skip` and `take` of the query builder: out of range means fewer rows, or none. */
  function Window<T>(s: seq<T>, skip: nat, take: nat): seq<T> {
    if skip >= |s| then [] else if skip + take <= |s| then s[skip..skip + take] else s[skip..]
  }

  function CeilDiv(n: nat, d: nat): (q: nat)
    requires d > 0
    ensures d * q >= n > d * (q - 1) || (n == 0 && q == 0)
  {
    (n + d - 1) / d
  }

  function Paginate<T>(data: seq<T>, total: nat, page: nat, limit: nat): Page<T>
    requires limit > 0
  {
    Page(data, total, page, limit, CeilDiv(total, limit))
  }

  /** One page of an ordered list, as the two list endpoints build it. */
  function PageOf<T>(all: seq<T>, page: nat, limit: nat): Page<T>
    requires page > 0 && limit > 0
  {
    Paginate(Window(all, (page - 1) * limit, if limit < MAX_TAKE then limit else MAX_TAKE), |all|, page, limit)
  }

  predicate Touches(tx: Tx, id: AccountId) {
    tx.source == Some(id) || tx.destination == Some(id)
  }

  function TouchesIt(id: AccountId): Tx -> bool {
    (tx: Tx) => Touches(tx, id)
  }

  function Reversed<T>(s: seq<T>): (r: seq<T>)
    ensures |r| == |s| && forall i :: 0 <= i < |s| ==> r[i] == s[|s| - 1 - i]
  {
    if s == [] then [] else Reversed(s[1..]) + [s[0]]
  }

  /** `findByAccount`: the owner's view of an account's rows, newest first. */
  function FindByAccount(s: Store, id: AccountId, user: string, page: nat, limit: nat): Result<Page<Tx>>
    requires page > 0 && limit > 0
  {
    match FindOne(s, id, Some(user))
    case Err(e) => Err(e)
    case Ok(_) => Ok(PageOf(Reversed(Filter(s.rows, TouchesIt(id))), page, limit))
  }

  // ---- All pages together ----

  function FirstPages<T>(all: seq<T>, limit: nat, n: nat): seq<T>
    requires limit > 0
  {
    if n == 0 then [] else FirstPages(all, limit, n - 1) + PageOf(all, n, limit).data
  }

  function UpTo<T>(all: seq<T>, n: nat): seq<T> {
    if n <= |all| then all[..n] else all
  }

  lemma {:induction false} WindowExtends<T>(all: seq<T>, skip: nat, limit: nat, take: nat)
    requires take == limit || (|all| <= take < limit && (skip == 0 || skip >= limit))
    ensures UpTo(all, skip) + Window(all, skip, take) == UpTo(all, skip + limit)
  {
  }

  lemma {:induction false} PagesAreAPrefix<T>(all: seq<T>, limit: nat, n: nat)
    requires 0 < limit && (limit <= MAX_TAKE || |all| <= MAX_TAKE)
    ensures FirstPages(all, limit, n) == UpTo(all, n * limit)
    decreases n
  {
    if n > 0 {
      PagesAreAPrefix(all, limit, n - 1);
      NextMultiple(n, limit);
      WindowExtends(all, (n - 1) * limit, limit, if limit < MAX_TAKE then limit else MAX_TAKE);
    }
  }

  lemma {:induction false} NextMultiple(n: nat, limit: nat)
    requires n > 0
    ensures n * limit == (n - 1) * limit + limit && (n - 1) * limit >= 0
    ensures n == 1 || (n - 1) * limit >= limit
  {
    if n > 1 {
      assert (n - 1) * limit == (n - 2) * limit + limit;
      assert (n - 2) * limit >= 0;
    }
  }

  /** With more than 100 rows to a page but only 100 taken, every page but the last leaves a gap. */
  lemma {:induction false} ShortByTheGap<T>(all: seq<T>, limit: nat, n: nat)
    requires limit > MAX_TAKE && n > 0
    ensures |FirstPages(all, limit, n - 1)| <= (n - 1) * MAX_TAKE <= (n - 1) * limit
    ensures |all| > MAX_TAKE && n * limit >= |all| ==> |FirstPages(all, limit, n)| < |all|
    decreases n
  {
    if n > 1 {
      ShortByTheGap(all, limit, n - 1);
      assert (n - 1) * MAX_TAKE == (n - 2) * MAX_TAKE + MAX_TAKE;
      assert (n - 1) * limit == (n - 2) * limit + limit;
    }
  }

  /**
    The pages from the first to the last are the whole list, each row once and in order, exactly when a page holds
    no more rows than are ever taken, or the list is no longer than that; and pages after the last are empty.
   */
  lemma {:induction false} PagesCoverIff<T>(all: seq<T>, limit: nat)
    requires limit > 0
    ensures FirstPages(all, limit, CeilDiv(|all|, limit)) == all <==> limit <= 100 || |all| <= 100
    ensures forall page: nat :: page > CeilDiv(|all|, limit) ==> PageOf(all, page, limit).data == []
  {
    var n := CeilDiv(|all|, limit);
    if limit <= MAX_TAKE || |all| <= MAX_TAKE {
      PagesAreAPrefix(all, limit, n);
      assert n * limit >= |all|;
    } else {
      assert n * limit >= |all|;
      ShortByTheGap(all, limit, n);
    }
    forall page: nat | page > n ensures PageOf(all, page, limit).data == [] {
      BeyondTheLast(all, limit, page);
    }
  }

  lemma {:induction false} MultiplesAscend(a: nat, b: nat, limit: nat)
    requires a <= b
    ensures a * limit <= b * limit
    decreases b
  {
    if a < b {
      MultiplesAscend(a, b - 1, limit);
      NextMultiple(b, limit);
    }
  }

  lemma {:induction false} BeyondTheLast<T>(all: seq<T>, limit: nat, page: nat)
    requires limit > 0 && page > CeilDiv(|all|, limit)
    ensures PageOf(all, page, limit).data == []
  {
    MultiplesAscend(CeilDiv(|all|, limit), page - 1, limit);
  }

  /** What the owner has seen after the first `n` pages. */
  function Seen(s: Store, id: AccountId, user: string, limit: nat, n: nat): seq<Tx>
    requires limit > 0
  {
    if n == 0 then []
    else
      match FindByAccount(s, id, user, n, limit)
      case Err(_) => Seen(s, id, user, limit, n - 1)
      case Ok(page) => Seen(s, id, user, limit, n - 1) + page.data
  }

  lemma {:induction false} SeenIsFirstPages(s: Store, id: AccountId, user: string, limit: nat, n: nat)
    requires limit > 0 && FindOne(s, id, Some(user)).Ok?
    ensures Seen(s, id, user, limit, n) == FirstPages(Reversed(Filter(s.rows, TouchesIt(id))), limit, n)
    decreases n
  {
    if n > 0 {
      SeenIsFirstPages(s, id, user, limit, n - 1);
    }
  }

  /** An account's rows, newest first. */
  ghost predicate IsHistory(newest: seq<Tx>, rows: seq<Tx>, id: AccountId) {
    && (forall tx :: tx in newest <==> tx in rows && (tx.source == Some(id) || tx.destination == Some(id)))
    && (forall i, j :: 0 <= i < j < |newest| ==> newest[i].createdAt >= newest[j].createdAt)
  }

  lemma {:induction false} HistoryOf(rows: seq<Tx>, id: AccountId)
    requires InOrder(rows)
    ensures IsHistory(Reversed(Filter(rows, TouchesIt(id))), rows, id)
  {
    var mine := Filter(rows, TouchesIt(id));
    FilterInOrder(rows, TouchesIt(id));
    ReversedHolds(mine);
  }

  /**
    An owner paging through an account sees exactly the rows touching it, newest first over any timed run, if and
    only if a page holds at most 100 rows or the account does; else some are never shown.
   */
  lemma {:induction false} AccountPagesAreItsHistory(events: seq<Event>, from: Time, id: AccountId, user: string,
                                                     limit: nat)
    requires Clocked(events, from) && 0 < limit && FindOne(Run(EMPTY, events), id, Some(user)).Ok?
    ensures var s := Run(EMPTY, events);
            var first, newest := FindByAccount(s, id, user, 1, limit), Reversed(Filter(s.rows, TouchesIt(id)));
            && first.Ok? && first.value.total == |newest| && IsHistory(newest, s.rows, id)
            && (Seen(s, id, user, limit, first.value.totalPages) == newest
                <==> limit <= 100 || first.value.total <= 100)
  {
    var s := Run(EMPTY, events);
    LogIsInOrder(events, from);
    HistoryOf(s.rows, id);
    var newest := Reversed(Filter(s.rows, TouchesIt(id)));
    PagesCoverIff(newest, limit);
    SeenIsFirstPages(s, id, user, limit, CeilDiv(|newest|, limit));
    FirstPageCounts(s, id, user, limit);
  }

  lemma {:induction false} FirstPageCounts(s: Store, id: AccountId, user: string, limit: nat)
    requires limit > 0 && FindOne(s, id, Some(user)).Ok?
    ensures var first, total := FindByAccount(s, id, user, 1, limit), |Filter(s.rows, TouchesIt(id))|;
            first.Ok? && first.value.total == total && first.value.totalPages == CeilDiv(total, limit)
  {
  }

  lemma {:induction false} ReversedHolds(s: seq<Tx>)
    ensures forall tx :: tx in Reversed(s) <==> tx in s
  {
    forall tx | tx in s ensures tx in Reversed(s) {
      var i :| 0 <= i < |s| && s[i] == tx;
      assert Reversed(s)[|s| - 1 - i] == tx;
    }
  }

  lemma {:induction false} WindowIsShort<T>(s: seq<T>, skip: nat, take: nat)
    ensures |Window(s, skip, take)| <= take
  {
  }

  lemma {:induction false} PageSays<T>(all: seq<T>, page: nat, limit: nat)
    requires page > 0 && limit > 0
    ensures var p := PageOf(all, page, limit);
            p.page == page && p.limit == limit && p.total == |all| && |p.data| <= 100
            && p.totalPages == CeilDiv(|all|, limit)
  {
    var skip: nat := (page - 1) * limit;
    WindowIsShort(all, skip, if limit < MAX_TAKE then limit else MAX_TAKE);
  }

  /** A list is refused to all but the account's owner, and says which page of how many it is. */
  lemma {:induction false} ListIsForTheOwner(s: Store, id: AccountId, user: string, page: nat, limit: nat)
    requires page > 0 && limit > 0
    ensures var r := FindByAccount(s, id, user, page, limit);
            && (r.Ok? <==> id < |s.accounts| && s.accounts[id].owner == user)
            && (id >= |s.accounts| ==> r == Err(AccountNotFound))
            && (id < |s.accounts| && s.accounts[id].owner != user ==> r == Err(AccessDenied))
            && (r.Ok? ==> r.value.page == page && r.value.limit == limit && |r.value.data| <= 100
                          && limit * r.value.totalPages >= r.value.total
                          && (r.value.total > 0 ==> r.value.total > limit * (r.value.totalPages - 1)))
  {
    PageSays(Reversed(Filter(s.rows, TouchesIt(id))), page, limit);
  }
}
