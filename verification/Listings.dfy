/**
 The cursor-paged listings of the exam repository: each with its ORDER BY, the key its cursor keeps
 and the WHERE clause the cursor adds, written as the SQL has them. Ids are unique, so every order
 is total; the WHERE clauses are proved to follow the orders, NULLs and mixed directions included.
 */
module Listings {
  import opened Prelude
  import opened ExamTables
  import opened Keyset
  import opened Ranking

  // ---------- SQL's three-valued logic; None is NULL ----------

  type Truth = Option<bool>

  function Or(a: Truth, b: Truth): Truth {
    if a == Some(true) || b == Some(true) then Some(true)
    else if a == Some(false) && b == Some(false) then Some(false)
    else None
  }

  function And(a: Truth, b: Truth): Truth {
    if a == Some(false) || b == Some(false) then Some(false)
    else if a == Some(true) && b == Some(true) then Some(true)
    else None
  }

  /** With NULL between false and true, OR is the larger and AND the smaller of the two. */
  function Degree(a: Truth): int {
    match a
    case None => 1
    case Some(t) => if t then 2 else 0
  }

  lemma NullLiesBetween(a: Truth, b: Truth)
    ensures Degree(Or(a, b)) == Max(Degree(a), Degree(b)) && Degree(And(a, b)) == -Max(-Degree(a), -Degree(b))
  {
  }

  function Less(a: Option<int>, b: Option<int>): Truth {
    if a.Some? && b.Some? then Some(a.value < b.value) else None
  }

  function Equal(a: Option<int>, b: Option<int>): Truth {
    if a.Some? && b.Some? then Some(a.value == b.value) else None
  }

  /** A page size that was not given, or is out of bounds, is replaced. */
  function Clamped(limit: int): (n: nat)
    ensures 1 <= n <= 100
    ensures 1 <= limit <= 100 ==> n == limit
    ensures limit <= 0 ==> n == 20
    ensures limit > 100 ==> n == 100
  {
    if limit <= 0 then 20 else if limit > 100 then 100 else limit
  }

  // ---------- The exam roster ----------

  datatype SortDirection = Asc | Desc

  datatype RosterRow = RosterRow(reg: RegistrationId, number: Option<int>)

  /** ORDER BY participant_number in the given direction NULLS LAST, then id in the same direction. */
  predicate RosterBefore(sort: SortDirection, x: RosterRow, y: RosterRow) {
    if x.number == y.number then (if sort == Asc then x.reg < y.reg else x.reg > y.reg)
    else if x.number.None? || y.number.None? then y.number.None?
    else if sort == Asc then x.number.value < y.number.value
    else x.number.value > y.number.value
  }

  /** The cursor clause of the roster query, with $4 to $7 bound from the cursor and the direction. */
  function RosterAfterClause(sort: SortDirection, cursorNumber: Option<int>, cursorId: RegistrationId, row: RosterRow): Truth {
    var cursorIsNull := Some(cursorNumber.None?);
    var isNull := Some(row.number.None?);
    var asc, desc := Some(sort == Asc), Some(sort == Desc);
    var idAfter, idBefore := Some(row.reg > cursorId), Some(row.reg < cursorId);
    Or(And(And(cursorIsNull, isNull), Or(And(asc, idAfter), And(desc, idBefore))),
       And(Some(cursorNumber.Some?),
           Or(isNull,
              Or(And(asc, Or(Less(cursorNumber, row.number), And(Equal(row.number, cursorNumber), idAfter))),
                 And(desc, Or(Less(row.number, cursorNumber), And(Equal(row.number, cursorNumber), idBefore)))))))
  }

  function RosterPaging(sort: SortDirection): Paging<RosterRow, (Option<int>, RegistrationId)> {
    Paging((x, y) => RosterBefore(sort, x, y),
           (x: RosterRow) => (x.number, x.reg),
           (k: (Option<int>, RegistrationId), x) => RosterAfterClause(sort, k.0, k.1, x) == Some(true))
  }

  lemma RosterCursorFollowsOrder(rows: set<RosterRow>, sort: SortDirection)
    requires forall x, y :: x in rows && y in rows && x.reg == y.reg ==> x == y
    ensures StrictOrder(rows, RosterPaging(sort).before) && CursorFollowsOrder(rows, RosterPaging(sort))
  {
    var before := RosterPaging(sort).before;
    forall x, y, z | x in rows && y in rows && z in rows && before(x, y) && before(y, z) ensures before(x, z) {
      assert RosterBefore(sort, x, y) && RosterBefore(sort, y, z);
      assert RosterBefore(sort, x, z);
    }
    forall x, y | x in rows && y in rows && x != y ensures before(x, y) || before(y, x) {
      assert RosterBefore(sort, x, y) || RosterBefore(sort, y, x);
    }
  }

  /** Both directions, registrations without a number last: paging shows the whole roster once, in order. */
  lemma RosterPagesAreComplete(rows: set<RosterRow>, sort: SortDirection, limit: nat, pages: seq<seq<RosterRow>>)
    requires forall x, y :: x in rows && y in rows && x.reg == y.reg ==> x == y
    requires limit >= 1 && IsWalk(rows, RosterPaging(sort), None, limit, pages)
    ensures IsListing(rows, RosterPaging(sort).before, Concat(pages)) && |Concat(pages)| == |rows|
    ensures var xs := Concat(pages);
            forall i, j :: 0 <= i < j < |xs| && xs[i].number.Some? && xs[j].number.Some? && xs[i].number != xs[j].number ==>
                             (sort == Asc <==> xs[i].number.value < xs[j].number.value)
    ensures var xs := Concat(pages);
            forall i, j :: 0 <= i < j < |xs| ==>
                             && (xs[i].number.None? ==> xs[j].number.None?)
                             && (xs[i].number == xs[j].number ==> (sort == Asc <==> xs[i].reg < xs[j].reg))
  {
    RosterCursorFollowsOrder(rows, sort);
    PagesAreComplete(rows, RosterPaging(sort), limit, pages);
    var xs := Concat(pages);
    forall i, j | 0 <= i < j < |xs| ensures RosterBefore(sort, xs[i], xs[j]) && xs[i] in rows && xs[j] in rows && xs[i] != xs[j] {
      assert xs[i] in xs && xs[j] in xs && RosterPaging(sort).before(xs[i], xs[j]);
    }
  }

  // ---------- The leaderboard ----------

  predicate LeaderboardBefore(x: ResultRow, y: ResultRow) {
    x.score > y.score || (x.score == y.score && x.session < y.session)
  }

  predicate LeaderboardAfter(score: Points, session: SessionId, row: ResultRow) {
    row.score < score || (row.score == score && row.session > session)
  }

  function LeaderboardPaging(): Paging<ResultRow, (Points, SessionId)> {
    Paging(LeaderboardBefore, (x: ResultRow) => (x.score, x.session),
           (k: (Points, SessionId), x) => LeaderboardAfter(k.0, k.1, x))
  }

  lemma LeaderboardPagesAreComplete(rows: set<ResultRow>, limit: nat, pages: seq<seq<ResultRow>>)
    requires forall x, y :: x in rows && y in rows && x.session == y.session ==> x == y
    requires limit >= 1 && IsWalk(rows, LeaderboardPaging(), None, limit, pages)
    ensures IsListing(rows, LeaderboardBefore, Concat(pages)) && |Concat(pages)| == |rows|
    ensures var xs := Concat(pages);
            forall i, j :: 0 <= i < j < |xs| ==>
                             xs[i].score > xs[j].score || (xs[i].score == xs[j].score && xs[i].session < xs[j].session)
  {
    PagesAreComplete(rows, LeaderboardPaging(), limit, pages);
  }

  // ---------- The results workspace ----------

  predicate WorkspaceBefore(x: ResultRow, y: ResultRow) {
    x.rank < y.rank
    || (x.rank == y.rank && x.score > y.score)
    || (x.rank == y.rank && x.score == y.score && x.reg < y.reg)
  }

  /** The cursor keeps the negated score. */
  predicate WorkspaceAfter(rank: nat, negScore: int, reg: RegistrationId, row: ResultRow) {
    row.rank > rank
    || (row.rank == rank && -row.score > negScore)
    || (row.rank == rank && -row.score == negScore && row.reg > reg)
  }

  function WorkspacePaging(): Paging<ResultRow, (nat, int, RegistrationId)> {
    Paging(WorkspaceBefore, (x: ResultRow) => (x.rank, -x.score, x.reg),
           (k: (nat, int, RegistrationId), x) => WorkspaceAfter(k.0, k.1, k.2, x))
  }

  lemma WorkspacePagesAreComplete(rows: set<ResultRow>, limit: int, pages: seq<seq<ResultRow>>)
    requires forall x, y :: x in rows && y in rows && x.reg == y.reg ==> x == y
    requires IsWalk(rows, WorkspacePaging(), None, Clamped(limit), pages)
    ensures IsListing(rows, WorkspaceBefore, Concat(pages)) && |Concat(pages)| == |rows|
    ensures var xs := Concat(pages);
            forall i, j :: 0 <= i < j < |xs| ==>
                             && xs[i].rank <= xs[j].rank
                             && (xs[i].rank == xs[j].rank ==> xs[i].score >= xs[j].score)
                             && (xs[i].rank == xs[j].rank && xs[i].score == xs[j].score ==> xs[i].reg < xs[j].reg)
  {
    PagesAreComplete(rows, WorkspacePaging(), Clamped(limit), pages);
  }
}
