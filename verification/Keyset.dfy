/**
 Keyset pagination over any table with a strict total order: a page holds the first rows after the
 cursor, and the cursor is the key of the last row shown. Walking the cursors to the end lists the
 whole table once, in order.
 */
module Keyset {
  import opened Prelude

  ghost predicate StrictOrder<T(!new)>(rows: set<T>, before: (T, T) -> bool) {
    && (forall x, y :: x in rows && y in rows && x != y ==> before(x, y) || before(y, x))
    && (forall x, y :: x in rows && y in rows && before(x, y) ==> x != y && !before(y, x))
    && (forall x, y, z :: x in rows && y in rows && z in rows && before(x, y) && before(y, z) ==> before(x, z))
  }

  /** `xs` is the ORDER BY of `rows`. */
  ghost predicate IsListing<T(!new)>(rows: set<T>, before: (T, T) -> bool, xs: seq<T>) {
    && (forall x :: x in xs <==> x in rows)
    && (forall i, j :: 0 <= i < j < |xs| ==> before(xs[i], xs[j]))
  }

  lemma {:induction false} FirstExists<T(!new)>(rows: set<T>, before: (T, T) -> bool) returns (x: T)
    requires StrictOrder(rows, before) && rows != {}
    ensures x in rows && forall y :: y in rows && y != x ==> before(x, y)
    decreases |rows|
  {
    var u := Member(rows);
    if rows == {u} {
      x := u;
    } else {
      x := FirstExists(rows - {u}, before);
      if before(u, x) {
        x := u;
      }
    }
  }

  lemma {:induction false} ListingExists<T(!new)>(rows: set<T>, before: (T, T) -> bool) returns (xs: seq<T>)
    requires StrictOrder(rows, before)
    ensures IsListing(rows, before, xs)
    decreases |rows|
  {
    if rows == {} {
      xs := [];
    } else {
      var x := FirstExists(rows, before);
      var rest := ListingExists(rows - {x}, before);
      assert forall i :: 0 <= i < |rest| ==> rest[i] in rest && rest[i] in rows - {x};
      xs := [x] + rest;
    }
  }

  lemma ListingLength<T(!new)>(rows: set<T>, before: (T, T) -> bool, xs: seq<T>)
    requires StrictOrder(rows, before) && IsListing(rows, before, xs)
    ensures |xs| == |rows| && Distinct(xs)
  {
    forall i, j | 0 <= i < j < |xs| ensures xs[i] != xs[j] {
      assert xs[i] in xs && xs[j] in xs;
    }
    DistinctSameSetSameLength(xs, rows);
  }

  lemma ListingHead<T(!new)>(rows: set<T>, before: (T, T) -> bool, xs: seq<T>, y: T)
    requires StrictOrder(rows, before) && IsListing(rows, before, xs) && y in rows && y != xs[0]
    requires xs != []
    ensures before(xs[0], y)
  {
    assert y in xs;
  }

  /** An order has one listing. */
  lemma {:induction false} ListingIsUnique<T(!new)>(rows: set<T>, before: (T, T) -> bool, xs: seq<T>, ys: seq<T>)
    requires StrictOrder(rows, before) && IsListing(rows, before, xs) && IsListing(rows, before, ys)
    ensures xs == ys
    decreases |xs|
  {
    ListingLength(rows, before, xs);
    ListingLength(rows, before, ys);
    if xs != [] {
      assert xs[0] in xs && ys[0] in ys;
      if xs[0] != ys[0] {
        ListingHead(rows, before, xs, ys[0]);
        ListingHead(rows, before, ys, xs[0]);
      }
      ListingTail(rows, before, xs);
      ListingTail(rows, before, ys);
      ListingIsUnique(rows - {xs[0]}, before, xs[1..], ys[1..]);
    }
  }

  lemma ListingTail<T(!new)>(rows: set<T>, before: (T, T) -> bool, xs: seq<T>)
    requires StrictOrder(rows, before) && IsListing(rows, before, xs) && xs != []
    ensures IsListing(rows - {xs[0]}, before, xs[1..])
    ensures StrictOrder(rows - {xs[0]}, before)
  {
    ListingLength(rows, before, xs);
    assert xs == [xs[0]] + xs[1..];
    forall x ensures x in xs[1..] <==> x in rows - {xs[0]} {
      if x in xs[1..] {
        var k :| 0 <= k < |xs[1..]| && xs[1..][k] == x;
        assert xs[k + 1] == x;
      }
    }
  }

  // ---------- Pages ----------

  /** How a table is paged: its ORDER BY, the key a cursor keeps of a row, and the WHERE a cursor adds. */
  datatype Paging<!T(!new), !K> = Paging(before: (T, T) -> bool, key: T -> K, after: (K, T) -> bool)

  /** The cursor predicate selects exactly the rows that the order puts after the cursor's row. */
  ghost predicate CursorFollowsOrder<T(!new), K(!new)>(rows: set<T>, p: Paging<T, K>) {
    forall c, x :: c in rows && x in rows ==> (p.after(p.key(c), x) <==> p.before(c, x))
  }

  function Selected<T(!new), K(!new)>(rows: set<T>, p: Paging<T, K>, cursor: Option<K>): set<T> {
    set x | x in rows && (cursor.None? || p.after(cursor.value, x))
  }

  /** LIMIT limit + 1. */
  function Fetched<T>(rest: seq<T>, limit: nat): seq<T> {
    if |rest| > limit + 1 then rest[..limit + 1] else rest
  }

  /** What the listing methods make of the fetched rows: the extra row only says that there is more. */
  method Truncate<T, K>(rest: seq<T>, limit: nat, key: T -> K) returns (page: seq<T>, next: Option<K>)
    requires limit >= 1
    ensures page == PageOf(rest, limit) && next == NextOf(rest, limit, key)
  {
    page, next := Fetched(rest, limit), None;
    if |page| > limit {
      page := page[..limit];
      next := Some(key(page[limit - 1]));
    }
  }

  /** The page is as much of the rest as fits; there is a next one exactly if something is left. */
  function PageOf<T>(rest: seq<T>, limit: nat): seq<T> {
    if |rest| > limit then rest[..limit] else rest
  }

  function NextOf<T, K>(rest: seq<T>, limit: nat, key: T -> K): Option<K>
    requires limit >= 1
  {
    if |rest| > limit then Some(key(rest[limit - 1])) else None
  }

  /** One request and its answer. */
  ghost predicate IsPage<T(!new), K(!new)>(rows: set<T>, p: Paging<T, K>, cursor: Option<K>, limit: nat, page: seq<T>, next: Option<K>)
    requires limit >= 1
  {
    exists rest :: IsListing(Selected(rows, p, cursor), p.before, rest)
                   && page == PageOf(rest, limit) && next == NextOf(rest, limit, p.key)
  }

  /** `pages` are the answers to following the cursors from `cursor` until there is none. */
  ghost predicate IsWalk<T(!new), K(!new)>(rows: set<T>, p: Paging<T, K>, cursor: Option<K>, limit: nat, pages: seq<seq<T>>)
    requires limit >= 1
    decreases |pages|
  {
    pages != [] && exists next :: IsPage(rows, p, cursor, limit, pages[0], next)
                                  && if next.None? then |pages| == 1 else IsWalk(rows, p, next, limit, pages[1..])
  }

  function Concat<T>(pages: seq<seq<T>>): seq<T> {
    if pages == [] then [] else pages[0] + Concat(pages[1..])
  }

  /** The rows after the n-th of a listing are the rest of the listing. */
  lemma SelectedIsSuffix<T(!new), K(!new)>(rows: set<T>, p: Paging<T, K>, all: seq<T>, n: nat)
    requires StrictOrder(rows, p.before) && CursorFollowsOrder(rows, p) && IsListing(rows, p.before, all) && 1 <= n <= |all|
    ensures IsListing(Selected(rows, p, Some(p.key(all[n - 1]))), p.before, all[n..])
    ensures StrictOrder(Selected(rows, p, Some(p.key(all[n - 1]))), p.before)
  {
    var c := all[n - 1];
    assert c in all;
    forall x ensures x in all[n..] <==> x in Selected(rows, p, Some(p.key(c))) {
      if x in all[n..] {
        var k :| 0 <= k < |all[n..]| && all[n..][k] == x;
        assert all[n + k] == x && x in all;
      }
      if x in rows && p.before(c, x) {
        assert x in all;
        var k :| 0 <= k < |all| && all[k] == x;
        assert k < n - 1 ==> p.before(x, c);
        assert all[n..][k - n] == x;
      }
    }
  }

  /** `cursor` stands after the first `n` rows of `all`. */
  ghost predicate StandsAt<T(!new), K(!new)>(p: Paging<T, K>, all: seq<T>, cursor: Option<K>, n: nat) {
    if n == 0 then cursor.None? else n <= |all| && cursor == Some(p.key(all[n - 1]))
  }

  lemma RestIsListing<T(!new), K(!new)>(rows: set<T>, p: Paging<T, K>, all: seq<T>, cursor: Option<K>, n: nat)
    requires StrictOrder(rows, p.before) && CursorFollowsOrder(rows, p) && IsListing(rows, p.before, all)
    requires StandsAt(p, all, cursor, n)
    ensures IsListing(Selected(rows, p, cursor), p.before, all[n..]) && StrictOrder(Selected(rows, p, cursor), p.before)
  {
    if n == 0 {
      assert Selected(rows, p, cursor) == rows && all[0..] == all;
    } else {
      SelectedIsSuffix(rows, p, all, n);
    }
  }

  /** Where the walk is after showing the page that starts at position `n`. */
  ghost predicate Advances<T(!new), K(!new)>(p: Paging<T, K>, all: seq<T>, n: nat, limit: nat, page: seq<T>, next: Option<K>) {
    && n + |page| <= |all| && page == all[n..n + |page|]
    && if next.None? then n + |page| == |all| else |page| == limit && StandsAt(p, all, next, n + limit)
  }

  lemma StretchAdvances<T(!new), K(!new)>(p: Paging<T, K>, all: seq<T>, n: nat, limit: nat)
    requires limit >= 1 && n <= |all|
    ensures Advances(p, all, n, limit, PageOf(all[n..], limit), NextOf(all[n..], limit, p.key))
  {
  }

  /** The page at a cursor is the next stretch of the listing, and its cursor stands after that stretch. */
  lemma PageIsNextStretch<T(!new), K(!new)>(rows: set<T>, p: Paging<T, K>, all: seq<T>, cursor: Option<K>, n: nat, limit: nat,
                                            page: seq<T>, next: Option<K>)
    requires StrictOrder(rows, p.before) && CursorFollowsOrder(rows, p) && IsListing(rows, p.before, all)
    requires limit >= 1 && StandsAt(p, all, cursor, n) && n <= |all|
    ensures IsPage(rows, p, cursor, limit, page, next) <==>
            page == PageOf(all[n..], limit) && next == NextOf(all[n..], limit, p.key)
  {
    RestIsListing(rows, p, all, cursor, n);
    forall rest | IsListing(Selected(rows, p, cursor), p.before, rest) ensures rest == all[n..] {
      ListingIsUnique(Selected(rows, p, cursor), p.before, rest, all[n..]);
    }
  }

  lemma WalkStep<T(!new), K(!new)>(rows: set<T>, p: Paging<T, K>, all: seq<T>, cursor: Option<K>, n: nat, limit: nat,
                                   pages: seq<seq<T>>) returns (next: Option<K>)
    requires StrictOrder(rows, p.before) && CursorFollowsOrder(rows, p) && IsListing(rows, p.before, all)
    requires limit >= 1 && StandsAt(p, all, cursor, n) && n <= |all| && IsWalk(rows, p, cursor, limit, pages)
    ensures pages != [] && Advances(p, all, n, limit, pages[0], next)
    ensures if next.None? then |pages| == 1 else IsWalk(rows, p, next, limit, pages[1..])
  {
    next :| IsPage(rows, p, cursor, limit, pages[0], next)
            && if next.None? then |pages| == 1 else IsWalk(rows, p, next, limit, pages[1..]);
    PageIsNextStretch(rows, p, all, cursor, n, limit, pages[0], next);
    StretchAdvances(p, all, n, limit);
  }

  lemma JoinStretch<T>(pages: seq<seq<T>>, all: seq<T>, n: nat, m: nat)
    requires n <= m <= |all| && pages != [] && pages[0] == all[n..m] && Concat(pages[1..]) == all[m..]
    ensures Concat(pages) == all[n..]
  {
    assert all[n..] == all[n..m] + all[m..];
  }

  lemma {:induction false} WalkListsTheRest<T(!new), K(!new)>(rows: set<T>, p: Paging<T, K>, all: seq<T>, cursor: Option<K>, n: nat,
                                                              limit: nat, pages: seq<seq<T>>)
    requires StrictOrder(rows, p.before) && CursorFollowsOrder(rows, p) && IsListing(rows, p.before, all)
    requires limit >= 1 && StandsAt(p, all, cursor, n) && n <= |all| && IsWalk(rows, p, cursor, limit, pages)
    ensures Concat(pages) == all[n..]
    decreases |pages|
  {
    var next := WalkStep(rows, p, all, cursor, n, limit, pages);
    if next.Some? {
      WalkListsTheRest(rows, p, all, next, n + limit, limit, pages[1..]);
    }
    JoinStretch(pages, all, n, n + |pages[0]|);
  }

  /** No skip and no repeat: the pages of a whole walk, joined, are the full ordered list. */
  lemma PagesAreComplete<T(!new), K(!new)>(rows: set<T>, p: Paging<T, K>, limit: nat, pages: seq<seq<T>>)
    requires StrictOrder(rows, p.before) && CursorFollowsOrder(rows, p)
    requires limit >= 1 && IsWalk(rows, p, None, limit, pages)
    ensures IsListing(rows, p.before, Concat(pages)) && |Concat(pages)| == |rows| && Distinct(Concat(pages))
  {
    var all := ListingExists(rows, p.before);
    WalkListsTheRest(rows, p, all, None, 0, limit, pages);
    assert all[0..] == all;
    ListingLength(rows, p.before, all);
  }

  lemma {:induction false} WalkFrom<T(!new), K(!new)>(rows: set<T>, p: Paging<T, K>, all: seq<T>, cursor: Option<K>, n: nat, limit: nat)
    returns (pages: seq<seq<T>>)
    requires StrictOrder(rows, p.before) && CursorFollowsOrder(rows, p) && IsListing(rows, p.before, all)
    requires limit >= 1 && StandsAt(p, all, cursor, n) && n <= |all|
    ensures IsWalk(rows, p, cursor, limit, pages)
    decreases |all| - n
  {
    var page, next := PageOf(all[n..], limit), NextOf(all[n..], limit, p.key);
    PageIsNextStretch(rows, p, all, cursor, n, limit, page, next);
    StretchAdvances(p, all, n, limit);
    pages := [page];
    if next.Some? {
      var later := WalkFrom(rows, p, all, next, n + limit, limit);
      pages := [page] + later;
      assert pages[1..] == later;
    }
    assert IsPage(rows, p, cursor, limit, pages[0], next);
  }

  /** Following the cursors ends: every table has a walk for every limit. */
  lemma WalkExists<T(!new), K(!new)>(rows: set<T>, p: Paging<T, K>, limit: nat) returns (pages: seq<seq<T>>)
    requires StrictOrder(rows, p.before) && CursorFollowsOrder(rows, p) && limit >= 1
    ensures IsWalk(rows, p, None, limit, pages)
  {
    var all := ListingExists(rows, p.before);
    pages := WalkFrom(rows, p, all, None, 0, limit);
  }
}
