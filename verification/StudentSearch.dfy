/**
 The admin student list: a query assembled piece by piece with numbered placeholders, shared by the
 paged list and by the count shown above it.
 */
module StudentSearch {
  import opened Prelude
  import opened ExamTables
  import opened Keyset
  import opened Listings

  type SchoolId = int

  datatype User = User(
    id: UserId,
    name: string,
    role: string,
    status: string,
    school: Option<SchoolId>,
    grade: Option<int>,
    jenjang: Option<string>,
    createdAt: Time)

  /** Empty strings mean that a filter is not set. */
  datatype StudentFilter = StudentFilter(
    status: string,
    q: string,
    grade: Option<int>,
    jenjang: string,
    exam: Option<ExamId>,
    allSchools: bool)

  datatype Arg = Text(text: string) | Number(number: int)

  /** A conjunct of the WHERE clause; the numbers are its placeholders. */
  datatype Condition =
    | SchoolIs(arg: nat)
    | StatusIs(arg: nat)
    | NameLike(arg: nat)
    | GradeIs(arg: nat)
    | JenjangIs(arg: nat)
    | ActiveAndUnregistered(arg: nat)
    | OlderThan(at: nat, id: nat)

  /** What the query reads besides the users: ILIKE on names, and who is registered for which exam. */
  datatype Database = Database(nameLike: (string, string) -> bool, registered: set<(UserId, ExamId)>)

  /** Placeholder $n. */
  function Bound(args: seq<Arg>, n: nat): Option<Arg> {
    if 1 <= n <= |args| then Some(args[n - 1]) else None
  }

  /** What a condition on one placeholder says of a user when `a` is bound there. */
  predicate Says(db: Database, c: Condition, a: Arg, u: User)
    requires !c.OlderThan?
  {
    match c
    case SchoolIs(_) => a.Number? && u.school == Some(a.number)
    case StatusIs(_) => a.Text? && u.status == a.text
    case NameLike(_) => a.Text? && db.nameLike(a.text, u.name)
    case GradeIs(_) => a.Number? && u.grade == Some(a.number)
    case JenjangIs(_) => a.Text? && u.jenjang == Some(a.text)
    case ActiveAndUnregistered(_) => u.status == "active" && a.Number? && (u.id, a.number) !in db.registered
  }

  predicate Holds(db: Database, c: Condition, args: seq<Arg>, u: User) {
    if c.OlderThan? then
      && Bound(args, c.at).Some? && Bound(args, c.at).value.Number? && Bound(args, c.id).Some? && Bound(args, c.id).value.Number?
      && OlderThanCursor(Some((Bound(args, c.at).value.number, Bound(args, c.id).value.number)), u)
    else Bound(args, c.arg).Some? && Says(db, c, Bound(args, c.arg).value, u)
  }

  /** The conjunction of the whole WHERE clause. */
  predicate AllHold(db: Database, query: seq<Condition>, args: seq<Arg>, u: User) {
    query == [] || (AllHold(db, query[..|query| - 1], args, u) && Holds(db, query[|query| - 1], args, u))
  }

  // ---------- What the filters mean ----------

  predicate IsStudent(u: User) {
    u.role == "student" && u.status != "deleted"
  }

  predicate Matches(db: Database, filter: StudentFilter, school: SchoolId, u: User) {
    && (filter.allSchools || u.school == Some(school))
    && (filter.status == "" || u.status == filter.status)
    && (filter.q == "" || db.nameLike("%" + filter.q + "%", u.name))
    && (filter.grade.None? || u.grade == filter.grade)
    && (filter.jenjang == "" || u.jenjang == Some(filter.jenjang))
  }

  predicate Pickable(db: Database, filter: StudentFilter, u: User) {
    filter.exam.None? || (u.status == "active" && (u.id, filter.exam.value) !in db.registered)
  }

  predicate OlderThanCursor(cursor: Option<(Time, UserId)>, u: User) {
    cursor.None? || u.createdAt < cursor.value.0 || (u.createdAt == cursor.value.0 && u.id < cursor.value.1)
  }

  // ---------- Assembling the query ----------

  predicate UsesFirst(c: Condition, n: nat) {
    if c.OlderThan? then 1 <= c.at <= n && 1 <= c.id <= n else 1 <= c.arg <= n
  }

  /** Every placeholder of the query is bound by one of the first `n` arguments. */
  predicate BoundBy(query: seq<Condition>, n: nat) {
    query == [] || (BoundBy(query[..|query| - 1], n) && UsesFirst(query[|query| - 1], n))
  }

  /** Arguments appended later do not change what a fully bound query says. */
  lemma {:induction false} MoreArgumentsSayTheSame(db: Database, query: seq<Condition>, args: seq<Arg>, more: seq<Arg>, u: User)
    requires BoundBy(query, |args|)
    ensures BoundBy(query, |args + more|)
    ensures AllHold(db, query, args + more, u) <==> AllHold(db, query, args, u)
  {
    if query != [] {
      var c := query[|query| - 1];
      MoreArgumentsSayTheSame(db, query[..|query| - 1], args, more, u);
      assert forall n: nat :: 1 <= n <= |args| ==> Bound(args + more, n) == Bound(args, n);
      assert Holds(db, c, args + more, u) <==> Holds(db, c, args, u);
    }
  }

  /** One more conjunct, bound by the arguments appended with it. */
  lemma OneMoreCondition(db: Database, query: seq<Condition>, args: seq<Arg>, c: Condition, more: seq<Arg>, u: User)
    requires BoundBy(query, |args|) && UsesFirst(c, |args + more|)
    ensures BoundBy(query + [c], |args + more|)
    ensures AllHold(db, query + [c], args + more, u) <==> AllHold(db, query, args, u) && Holds(db, c, args + more, u)
  {
    MoreArgumentsSayTheSame(db, query, args, more, u);
    assert (query + [c])[..|query + [c]| - 1] == query;
  }

  lemma {:induction false} BoundByMore(query: seq<Condition>, n: nat, m: nat)
    requires BoundBy(query, n) && n <= m
    ensures BoundBy(query, m)
  {
    if query != [] {
      BoundByMore(query[..|query| - 1], n, m);
    }
  }

  lemma ConditionIsBound(query: seq<Condition>, args: seq<Arg>, c: Condition, a: Arg)
    requires BoundBy(query, |args|) && !c.OlderThan? && c.arg == |args| + 1
    ensures BoundBy(query + [c], |args + [a]|)
  {
    BoundByMore(query, |args|, |args| + 1);
    assert (query + [c])[..|query + [c]| - 1] == query;
  }

  lemma ConditionSays(db: Database, query: seq<Condition>, args: seq<Arg>, c: Condition, a: Arg, u: User)
    requires BoundBy(query, |args|) && !c.OlderThan? && c.arg == |args| + 1
    ensures AllHold(db, query + [c], args + [a], u) <==> AllHold(db, query, args, u) && Says(db, c, a, u)
  {
    OneMoreCondition(db, query, args, c, [a], u);
    assert Bound(args + [a], c.arg) == Some(a);
  }

  /** One optional filter: the new conjunct names the placeholder that its argument gets. */
  method AppendIf(ghost db: Database, on: bool, base: seq<Condition>, given: seq<Arg>, c: Condition, a: Arg, argNum: nat)
    returns (query: seq<Condition>, args: seq<Arg>, next: nat)
    requires BoundBy(base, |given|) && argNum == |given| + 1 && !c.OlderThan? && c.arg == argNum
    ensures BoundBy(query, |args|) && next == |args| + 1
    ensures forall u :: AllHold(db, query, args, u) <==> AllHold(db, base, given, u) && (on ==> Says(db, c, a, u))
  {
    query, args, next := base, given, argNum;
    if on {
      ConditionIsBound(base, given, c, a);
      forall u ensures AllHold(db, base + [c], given + [a], u) <==> AllHold(db, base, given, u) && Says(db, c, a, u) {
        ConditionSays(db, base, given, c, a, u);
      }
      query, args, next := base + [c], given + [a], argNum + 1;
    }
  }

  /** The predicates shared by the list and the count: the query so far, and the filter matches. */
  method AppendStudentFilterSQL(ghost db: Database, filter: StudentFilter, school: SchoolId)
    returns (query: seq<Condition>, args: seq<Arg>, argNum: nat)
    ensures BoundBy(query, |args|) && argNum == |args| + 1
    ensures forall u :: AllHold(db, query, args, u) <==> Matches(db, filter, school, u)
  {
    query, args, argNum := [], [], 1;
    query, args, argNum := AppendIf(db, !filter.allSchools, query, args, SchoolIs(argNum), Number(school), argNum);
    query, args, argNum := AppendIf(db, filter.status != "", query, args, StatusIs(argNum), Text(filter.status), argNum);
    query, args, argNum := AppendIf(db, filter.q != "", query, args, NameLike(argNum), Text("%" + filter.q + "%"), argNum);
    var grade := if filter.grade.Some? then filter.grade.value else 0;
    query, args, argNum := AppendIf(db, filter.grade.Some?, query, args, GradeIs(argNum), Number(grade), argNum);
    query, args, argNum := AppendIf(db, filter.jenjang != "", query, args, JenjangIs(argNum), Text(filter.jenjang), argNum);
  }

  /** The cursor's condition takes two placeholders. */
  method AppendCursor(ghost db: Database, cursor: Option<(Time, UserId)>, base: seq<Condition>, given: seq<Arg>, argNum: nat)
    returns (query: seq<Condition>, args: seq<Arg>)
    requires BoundBy(base, |given|) && argNum == |given| + 1
    ensures forall u :: AllHold(db, query, args, u) <==> AllHold(db, base, given, u) && OlderThanCursor(cursor, u)
  {
    if cursor.None? {
      return base, given;
    }
    query, args := base + [OlderThan(argNum, argNum + 1)], given + [Number(cursor.value.0), Number(cursor.value.1)];
    forall u ensures AllHold(db, query, args, u) <==> AllHold(db, base, given, u) && OlderThanCursor(cursor, u) {
      CursorCondition(db, base, given, cursor.value.0, cursor.value.1, u);
    }
  }

  /** The WHERE clause of the paged list: filters, exam eligibility, cursor. */
  method StudentListQuery(ghost db: Database, ghost users: set<User>, filter: StudentFilter, school: SchoolId,
                          cursor: Option<(Time, UserId)>)
    returns (query: seq<Condition>, args: seq<Arg>)
    ensures (set u | u in users && IsStudent(u) && AllHold(db, query, args, u))
         == Selected(Listed(db, users, filter, school), StudentPaging(), cursor)
    ensures (set u | u in users && IsStudent(u) && AllHold(db, query, args, u))
         == set u | u in users && u.role == "student" && u.status != "deleted" && Matches(db, filter, school, u)
                    && (filter.exam.Some? ==> u.status == "active" && (u.id, filter.exam.value) !in db.registered)
                    && (cursor.Some? ==> (u.createdAt < cursor.value.0 || (u.createdAt == cursor.value.0 && u.id < cursor.value.1)))
  {
    var argNum: nat;
    query, args, argNum := AppendStudentFilterSQL(db, filter, school);
    var exam := if filter.exam.Some? then filter.exam.value else 0;
    query, args, argNum := AppendIf(db, filter.exam.Some?, query, args, ActiveAndUnregistered(argNum), Number(exam), argNum);
    query, args := AppendCursor(db, cursor, query, args, argNum);
    assert forall u :: AllHold(db, query, args, u) <==>
                       Matches(db, filter, school, u) && Pickable(db, filter, u) && OlderThanCursor(cursor, u);
  }

  lemma CursorCondition(db: Database, query: seq<Condition>, args: seq<Arg>, at: Time, id: UserId, u: User)
    requires BoundBy(query, |args|)
    ensures AllHold(db, query + [OlderThan(|args| + 1, |args| + 2)], args + [Number(at), Number(id)], u) <==>
            AllHold(db, query, args, u) && OlderThanCursor(Some((at, id)), u)
  {
    var args' := args + [Number(at), Number(id)];
    OneMoreCondition(db, query, args, OlderThan(|args| + 1, |args| + 2), [Number(at), Number(id)], u);
    assert Bound(args', |args| + 1) == Some(Number(at)) && Bound(args', |args| + 2) == Some(Number(id));
  }

  // ---------- The list and the count ----------

  function Cohort(db: Database, users: set<User>, filter: StudentFilter, school: SchoolId): set<User> {
    set u | u in users && IsStudent(u) && Matches(db, filter, school, u)
  }

  function Listed(db: Database, users: set<User>, filter: StudentFilter, school: SchoolId): set<User> {
    set u | u in users && IsStudent(u) && Matches(db, filter, school, u) && Pickable(db, filter, u)
  }

  datatype StudentAdminCounts = StudentAdminCounts(total: nat, active: nat, deactivated: nat)

  method CountStudentsAdmin(db: Database, users: set<User>, filter: StudentFilter, school: SchoolId)
    returns (counts: StudentAdminCounts)
    ensures counts.total == |Cohort(db, users, filter, school)|
    ensures counts.active == |set u | u in Cohort(db, users, filter, school) && u.status == "active"|
    ensures counts.deactivated == |set u | u in Cohort(db, users, filter, school) && u.status == "deactivated"|
    ensures Cohort(db, users, filter, school)
         == set u | u in users && u.role == "student" && u.status != "deleted" && Matches(db, filter, school, u)
  {
    var query, args, _ := AppendStudentFilterSQL(db, filter, school);
    var found := set u | u in users && IsStudent(u) && AllHold(db, query, args, u);
    assert found == Cohort(db, users, filter, school);
    counts := StudentAdminCounts(|found|, |set u | u in found && u.status == "active"|,
                                 |set u | u in found && u.status == "deactivated"|);
  }

  predicate StudentBefore(x: User, y: User) {
    x.createdAt > y.createdAt || (x.createdAt == y.createdAt && x.id > y.id)
  }

  function StudentPaging(): Paging<User, (Time, UserId)> {
    Paging(StudentBefore, (u: User) => (u.createdAt, u.id), (k: (Time, UserId), u) => OlderThanCursor(Some(k), u))
  }

  /** The pages show every listed student once, newest first. */
  lemma StudentPagesAreComplete(db: Database, users: set<User>, filter: StudentFilter, school: SchoolId, limit: int,
                                pages: seq<seq<User>>)
    requires forall x, y :: x in users && y in users && x.id == y.id ==> x == y
    requires IsWalk(Listed(db, users, filter, school), StudentPaging(), None, Clamped(limit), pages)
    ensures IsListing(Listed(db, users, filter, school), StudentBefore, Concat(pages))
    ensures |Concat(pages)| == |Listed(db, users, filter, school)|
    ensures forall u :: u in Concat(pages) <==>
                          && u in users && u.role == "student" && u.status != "deleted" && Matches(db, filter, school, u)
                          && (filter.exam.Some? ==> u.status == "active" && (u.id, filter.exam.value) !in db.registered)
    ensures var xs := Concat(pages);
            forall i, j :: 0 <= i < j < |xs| ==>
                             xs[i].createdAt > xs[j].createdAt || (xs[i].createdAt == xs[j].createdAt && xs[i].id > xs[j].id)
  {
    PagesAreComplete(Listed(db, users, filter, school), StudentPaging(), Clamped(limit), pages);
  }

  /** Their number is the count's total exactly if no matching student is held back by the exam filter. */
  lemma PagesMatchTotalIff(db: Database, users: set<User>, filter: StudentFilter, school: SchoolId, limit: int,
                           pages: seq<seq<User>>)
    requires forall x, y :: x in users && y in users && x.id == y.id ==> x == y
    requires IsWalk(Listed(db, users, filter, school), StudentPaging(), None, Clamped(limit), pages)
    ensures |Concat(pages)| == |Cohort(db, users, filter, school)| <==>
            forall u :: u in Cohort(db, users, filter, school) ==> Pickable(db, filter, u)
    ensures filter.exam.None? ==> |Concat(pages)| == |Cohort(db, users, filter, school)|
  {
    StudentPagesAreComplete(db, users, filter, school, limit, pages);
    var listed, cohort := Listed(db, users, filter, school), Cohort(db, users, filter, school);
    assert cohort == listed + (cohort - listed) && |cohort| == |listed| + |cohort - listed|;
    if |listed| == |cohort| {
      assert cohort - listed == {};
      forall u | u in cohort ensures Pickable(db, filter, u) {
        assert u !in cohort - listed;
      }
    }
    if forall u :: u in cohort ==> Pickable(db, filter, u) {
      assert listed == cohort;
    }
  }
}
