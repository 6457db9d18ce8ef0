/**
 Participant numbers: one per registration, handed out as MAX + 1 under a per-exam advisory lock by
 order fulfilment and by admin grants alike. Deliveries may be repeated and transactions may
 interleave; a student's number is still the position of its first delivery.
 */
module ParticipantNumbers {
  import opened Prelude
  import opened ExamTables

  /** One request to register a student for an exam. */
  datatype Delivery = Delivery(student: StudentId, exam: ExamId)

  datatype Row = Row(student: StudentId, exam: ExamId, number: nat)

  predicate IsRegistered(rows: seq<Row>, d: Delivery) {
    exists k :: 0 <= k < |rows| && rows[k].student == d.student && rows[k].exam == d.exam
  }

  /** COALESCE(MAX(participant_number), 0) over the rows of one exam. */
  function Top(rows: seq<Row>, exam: ExamId): nat {
    if rows == [] then 0
    else
      var last := rows[|rows| - 1];
      var top := Top(rows[..|rows| - 1], exam);
      if last.exam == exam && last.number > top then last.number else top
  }

  function Process(rows: seq<Row>, d: Delivery): seq<Row> {
    if IsRegistered(rows, d) then rows else rows + [Row(d.student, d.exam, Top(rows, d.exam) + 1)]
  }

  function ProcessAll(rows: seq<Row>, ds: seq<Delivery>): seq<Row> {
    if ds == [] then rows else Process(ProcessAll(rows, ds[..|ds| - 1]), ds[|ds| - 1])
  }

  /** The students of an exam in the order of their first delivery. */
  function FirstTimes(ds: seq<Delivery>, exam: ExamId): seq<StudentId> {
    if ds == [] then []
    else
      var before, d := FirstTimes(ds[..|ds| - 1], exam), ds[|ds| - 1];
      if d.exam == exam && d.student !in before then before + [d.student] else before
  }

  // ---------- What a delivery list amounts to ----------

  /** The rows of `exam` are exactly its first-time students, numbered from 1 in that order. */
  ghost predicate NumberedBy(rows: seq<Row>, exam: ExamId, students: seq<StudentId>) {
    && Distinct(students)
    && (forall k :: 0 <= k < |students| ==> Row(students[k], exam, k + 1) in rows)
    && (forall row :: row in rows && row.exam == exam ==>
                        1 <= row.number <= |students| && students[row.number - 1] == row.student)
  }

  lemma {:induction false} TopBounds(rows: seq<Row>, exam: ExamId)
    ensures forall row :: row in rows && row.exam == exam ==> row.number <= Top(rows, exam)
    ensures Top(rows, exam) == 0 || exists row :: row in rows && row.exam == exam && row.number == Top(rows, exam)
  {
    if rows != [] {
      var init, last := rows[..|rows| - 1], rows[|rows| - 1];
      assert rows == init + [last];
      TopBounds(init, exam);
    }
  }

  lemma NumberedTop(rows: seq<Row>, exam: ExamId, students: seq<StudentId>)
    requires NumberedBy(rows, exam, students)
    ensures Top(rows, exam) == |students|
    ensures forall s :: IsRegistered(rows, Delivery(s, exam)) <==> s in students
  {
    TopBounds(rows, exam);
    if students != [] {
      assert Row(students[|students| - 1], exam, |students|) in rows;
    }
    forall s | s in students ensures IsRegistered(rows, Delivery(s, exam)) {
      var k :| 0 <= k < |students| && students[k] == s;
      var j :| 0 <= j < |rows| && rows[j] == Row(students[k], exam, k + 1);
    }
    forall s | IsRegistered(rows, Delivery(s, exam)) ensures s in students {
      var k :| 0 <= k < |rows| && rows[k].student == s && rows[k].exam == exam;
      assert rows[k] in rows;
    }
  }

  lemma ProcessKeepsNumbering(rows: seq<Row>, exam: ExamId, students: seq<StudentId>, d: Delivery)
    requires NumberedBy(rows, exam, students)
    ensures NumberedBy(Process(rows, d), exam,
                       if d.exam == exam && d.student !in students then students + [d.student] else students)
  {
    NumberedTop(rows, exam, students);
    var rows' := Process(rows, d);
    assert forall row :: row in rows ==> row in rows';
    if d.exam == exam && d.student !in students {
      assert rows' == rows + [Row(d.student, exam, |students| + 1)];
    }
  }

  /** A student's number is the 1-based position in the de-duplicated delivery order. */
  lemma {:induction false} NumberIsPosition(ds: seq<Delivery>, exam: ExamId)
    ensures NumberedBy(ProcessAll([], ds), exam, FirstTimes(ds, exam))
  {
    if ds != [] {
      var init := ds[..|ds| - 1];
      NumberIsPosition(init, exam);
      ProcessKeepsNumbering(ProcessAll([], init), exam, FirstTimes(init, exam), ds[|ds| - 1]);
    }
  }

  /** Rows are only ever added, so a number once given never changes. */
  lemma {:induction false} NumbersNeverChange(rows: seq<Row>, ds: seq<Delivery>)
    ensures rows <= ProcessAll(rows, ds)
  {
    if ds != [] {
      NumbersNeverChange(rows, ds[..|ds| - 1]);
    }
  }

  lemma {:induction false} DeliveredAreRegistered(rows: seq<Row>, ds: seq<Delivery>, d: Delivery)
    requires d in ds
    ensures IsRegistered(ProcessAll(rows, ds), d)
  {
    var init, last := ds[..|ds| - 1], ds[|ds| - 1];
    assert ds == init + [last];
    var before := ProcessAll(rows, init);
    if d == last {
      if !IsRegistered(before, d) {
        assert Process(before, d)[|before|].student == d.student;
      }
    } else {
      DeliveredAreRegistered(rows, init, d);
      var k :| 0 <= k < |before| && before[k].student == d.student && before[k].exam == d.exam;
      assert Process(before, last)[k] == before[k];
    }
  }

  /** A redelivery changes nothing, so it consumes no number. */
  lemma RedeliveryConsumesNothing(ds: seq<Delivery>, d: Delivery)
    requires d in ds
    ensures ProcessAll([], ds + [d]) == ProcessAll([], ds)
  {
    assert (ds + [d])[..|ds|] == ds;
    DeliveredAreRegistered([], ds, d);
  }

  // ---------- Which number it is ----------

  /** The students of the exam that were delivered. */
  ghost function Delivered(ds: seq<Delivery>, exam: ExamId): set<StudentId> {
    set d | d in ds && d.exam == exam :: d.student
  }

  lemma {:induction false} FirstTimesAreDelivered(ds: seq<Delivery>, exam: ExamId)
    ensures Distinct(FirstTimes(ds, exam))
    ensures forall s :: s in FirstTimes(ds, exam) <==> s in Delivered(ds, exam)
  {
    if ds != [] {
      var init, d := ds[..|ds| - 1], ds[|ds| - 1];
      assert ds == init + [d];
      FirstTimesAreDelivered(init, exam);
    }
  }

  lemma {:induction false} ProcessAllConcat(rows: seq<Row>, a: seq<Delivery>, b: seq<Delivery>)
    ensures ProcessAll(rows, a + b) == ProcessAll(ProcessAll(rows, a), b)
  {
    if b == [] {
      assert a + b == a;
    } else {
      assert (a + b)[..|a + b| - 1] == a + b[..|b| - 1];
      ProcessAllConcat(rows, a, b[..|b| - 1]);
    }
  }

  lemma FirstTimesSize(ds: seq<Delivery>, exam: ExamId)
    ensures |FirstTimes(ds, exam)| == |Delivered(ds, exam)|
  {
    FirstTimesAreDelivered(ds, exam);
    var students, delivered := FirstTimes(ds, exam), Delivered(ds, exam);
    assert forall s :: s in students <==> s in delivered;
    DistinctSameSetSameLength(students, delivered);
  }

  lemma NextRow(before: seq<Delivery>, d: Delivery)
    requires d !in before
    ensures ProcessAll([], before + [d]) == ProcessAll([], before) + [Row(d.student, d.exam, |Delivered(before, d.exam)| + 1)]
  {
    FirstTimesSize(before, d.exam);
    FirstTimesAreDelivered(before, d.exam);
    NumberIsPosition(before, d.exam);
    NumberedTop(ProcessAll([], before), d.exam, FirstTimes(before, d.exam));
    assert d.student !in Delivered(before, d.exam);
    assert (before + [d])[..|before|] == before;
  }

  /** A student's first delivery gets one more than the students of the exam delivered before, and keeps it. */
  lemma FirstDeliveryGetsNextNumber(ds: seq<Delivery>, i: nat)
    requires i < |ds| && ds[i] !in ds[..i]
    ensures Row(ds[i].student, ds[i].exam, |Delivered(ds[..i], ds[i].exam)| + 1) in ProcessAll([], ds)
  {
    hide ProcessAll, Delivered;
    var before, d, rest := ds[..i], ds[i], ds[i + 1..];
    NextRow(before, d);
    assert ds == (before + [d]) + rest;
    ProcessAllConcat([], before + [d], rest);
    NumbersNeverChange(ProcessAll([], before + [d]), rest);
    LastStays(ProcessAll([], before), Row(d.student, d.exam, |Delivered(before, d.exam)| + 1), ProcessAll([], ds));
  }

  lemma LastStays(rows: seq<Row>, row: Row, more: seq<Row>)
    requires rows + [row] <= more
    ensures row in more
  {
    assert (rows + [row])[|rows|] == more[|rows|];
  }

  /** Nobody else gets a row. */
  lemma {:induction false} RowsAreFirstDeliveries(ds: seq<Delivery>, row: Row)
    requires row in ProcessAll([], ds)
    ensures exists i :: 0 <= i < |ds| && ds[i] == Delivery(row.student, row.exam) && ds[i] !in ds[..i]
  {
    if ds != [] {
      var init, d := ds[..|ds| - 1], ds[|ds| - 1];
      if row in ProcessAll([], init) {
        RowsAreFirstDeliveries(init, row);
        var i :| 0 <= i < |init| && init[i] == Delivery(row.student, row.exam) && init[i] !in init[..i];
        assert ds[i] == init[i] && ds[..i] == init[..i];
      } else if d in init {
        DeliveredAreRegistered([], init, d);
      } else {
        assert ds[|ds| - 1] == d && ds[..|ds| - 1] == init;
      }
    }
  }

  class Registrations {
    var rows: seq<Row>

    /** Afterwards the student is registered; a new student gets the number after the last, an old one nothing new. */
    method CreateExamRegistration(student: StudentId, exam: ExamId)
      modifies this
      ensures (exists k :: 0 <= k < |old(rows)| && old(rows)[k].student == student && old(rows)[k].exam == exam) ==> rows == old(rows)
      ensures (forall k :: 0 <= k < |old(rows)| ==> old(rows)[k].student != student || old(rows)[k].exam != exam) ==>
                && |rows| == |old(rows)| + 1 && rows[..|old(rows)|] == old(rows)
                && var added := rows[|old(rows)|];
                   && added.student == student && added.exam == exam
                   && (forall row :: row in old(rows) && row.exam == exam ==> row.number < added.number)
                   && (added.number == 1 || exists row :: row in old(rows) && row.exam == exam && row.number + 1 == added.number)
      ensures old(rows) <= rows && exists row :: row in rows && row.student == student && row.exam == exam
      ensures forall students :: NumberedBy(old(rows), exam, students) ==>
                                   NumberedBy(rows, exam, if student in students then students else students + [student])
      ensures rows == Process(old(rows), Delivery(student, exam))
    {
      DeliveredAreRegistered(rows, [Delivery(student, exam)], Delivery(student, exam));
      assert ProcessAll(rows, [Delivery(student, exam)]) == Process(rows, Delivery(student, exam));
      forall students | NumberedBy(rows, exam, students)
        ensures NumberedBy(Process(rows, Delivery(student, exam)), exam,
                           if student in students then students else students + [student])
      {
        ProcessKeepsNumbering(rows, exam, students, Delivery(student, exam));
      }
      TopBounds(rows, exam);
      if !IsRegistered(rows, Delivery(student, exam)) {
        rows := rows + [Row(student, exam, Top(rows, exam) + 1)];
      }
    }

    /** The fan-out of a list of deliveries, each handled by its own call. */
    method Fulfil(deliveries: seq<Delivery>)
      modifies this
      ensures rows == ProcessAll(old(rows), deliveries)
    {
      for i := 0 to |deliveries|
        invariant rows == ProcessAll(old(rows), deliveries[..i])
      {
        assert deliveries[..i + 1][..i] == deliveries[..i];
        CreateExamRegistration(deliveries[i].student, deliveries[i].exam);
      }
      assert deliveries[..|deliveries|] == deliveries;
    }
  }

  // ---------- Interleaved transactions ----------

  type TxId = int

  /** `exam` is the exam whose lock the last statement took; `handled` are the deliveries handled so far. */
  datatype Tx = Tx(exam: Option<ExamId>, inserts: seq<Row>, handled: seq<Delivery>)

  /** `delivered` lists the deliveries of committed transactions in commit order. */
  datatype State = State(db: seq<Row>, delivered: seq<Delivery>, locks: map<int, TxId>, txs: map<TxId, Tx>)

  datatype Label =
    | Begin(tx: TxId)
    | TakeLock(tx: TxId, exam: ExamId)
    | Insert(tx: TxId, student: StudentId)
    | Commit(tx: TxId)
    | Abort(tx: TxId)

  function Close(p: State, i: TxId): State {
    p.(txs := p.txs - {i}, locks := map k | k in p.locks && p.locks[k] != i :: p.locks[k])
  }

  predicate Clashes(rows: seq<Row>, row: Row) {
    exists k :: 0 <= k < |rows| && rows[k].exam == row.exam && (rows[k].student == row.student || rows[k].number == row.number)
  }

  /** Some other open transaction has an uncommitted row that a unique index compares with `row`. */
  ghost predicate MustWait(p: State, i: TxId, row: Row) {
    exists j :: j in p.txs && j != i && Clashes(p.txs[j].inserts, row)
  }

  ghost function InsertStep(p: State, i: TxId, student: StudentId): Option<State>
    requires i in p.txs
  {
    var me := p.txs[i];
    if me.exam.None? then None
    else
      var d := Delivery(student, me.exam.value);
      var seen := p.db + me.inserts;
      var row := Row(d.student, d.exam, Top(seen, d.exam) + 1);
      if IsRegistered(seen, d) then Some(p.(txs := p.txs[i := Tx(None, me.inserts, me.handled + [d])]))
      else if MustWait(p, i, row) then None
      else if Clashes(seen, row) then Some(Close(p, i)) // unique violation: the transaction is lost
      else Some(p.(txs := p.txs[i := Tx(None, me.inserts + [row], me.handled + [d])]))
  }

  /** `key` is the advisory-lock key of an exam; nothing is assumed of it, so two exams may share one. */
  ghost function Step(p: State, key: ExamId -> int, l: Label): Option<State> {
    match l
    case Begin(i) => if i in p.txs then None else Some(p.(txs := p.txs[i := Tx(None, [], [])]))
    case TakeLock(i, exam) =>
      if i !in p.txs || (key(exam) in p.locks && p.locks[key(exam)] != i) then None
      else Some(p.(txs := p.txs[i := p.txs[i].(exam := Some(exam))], locks := p.locks[key(exam) := i]))
    case Insert(i, student) => if i in p.txs then InsertStep(p, i, student) else None
    case Commit(i) =>
      if i !in p.txs then None
      else Some(Close(p, i).(db := p.db + p.txs[i].inserts, delivered := p.delivered + p.txs[i].handled))
    case Abort(i) => if i in p.txs then Some(Close(p, i)) else None
  }

  ghost function Run(p: State, key: ExamId -> int, labels: seq<Label>): Option<State>
    decreases |labels|
  {
    if labels == [] then Some(p)
    else
      var q := Step(p, key, labels[0]);
      if q.None? then None else Run(q.value, key, labels[1..])
  }

  ghost predicate Holds(p: State, key: ExamId -> int, i: TxId, exam: ExamId) {
    key(exam) in p.locks && p.locks[key(exam)] == i
  }

  /** A transaction's rows are what its deliveries make of the committed rows, and it has locked their exams. */
  ghost predicate TxOk(p: State, key: ExamId -> int, i: TxId, tx: Tx) {
    && p.db + tx.inserts == ProcessAll(p.db, tx.handled)
    && (tx.exam.Some? ==> Holds(p, key, i, tx.exam.value))
    && (forall d :: d in tx.handled ==> Holds(p, key, i, d.exam))
    && (forall row :: row in tx.inserts ==> Holds(p, key, i, row.exam))
  }

  ghost predicate NumbersOk(p: State, key: ExamId -> int) {
    && p.db == ProcessAll([], p.delivered)
    && forall i :: i in p.txs ==> TxOk(p, key, i, p.txs[i])
  }

  lemma {:induction false} TopConcat(a: seq<Row>, b: seq<Row>, exam: ExamId)
    ensures Top(a + b, exam) == Max(Top(a, exam), Top(b, exam))
  {
    if b == [] {
      assert a + b == a;
    } else {
      assert (a + b)[..|a + b| - 1] == a + b[..|b| - 1];
      TopConcat(a, b[..|b| - 1], exam);
    }
  }

  /** Rows of other exams in the middle make no difference to a delivery. */
  lemma ForeignRowsDoNotMatter(db: seq<Row>, foreign: seq<Row>, mine: seq<Row>, d: Delivery)
    requires forall row :: row in foreign ==> row.exam != d.exam
    ensures IsRegistered(db + foreign + mine, d) <==> IsRegistered(db + mine, d)
    ensures Top(db + foreign + mine, d.exam) == Top(db + mine, d.exam)
  {
    TopConcat(db + foreign, mine, d.exam);
    TopConcat(db, foreign, d.exam);
    TopConcat(db, mine, d.exam);
    TopBounds(foreign, d.exam);
    var wide, narrow := db + foreign + mine, db + mine;
    forall k | |db| <= k < |db| + |foreign| ensures wide[k].exam != d.exam {
      assert wide[k] == foreign[k - |db|];
    }
    if IsRegistered(wide, d) {
      var k :| 0 <= k < |wide| && wide[k].student == d.student && wide[k].exam == d.exam;
      var j := if k < |db| then k else k - |foreign|;
      assert narrow[j] == wide[k];
    }
    if IsRegistered(narrow, d) {
      var k :| 0 <= k < |narrow| && narrow[k].student == d.student && narrow[k].exam == d.exam;
      var j := if k < |db| then k else k + |foreign|;
      assert wide[j] == narrow[k];
    }
  }

  lemma CancelPrefix<T>(a: seq<T>, x: seq<T>, y: seq<T>)
    requires a + x == a + y
    ensures x == y
  {
    assert x == (a + x)[|a|..] && y == (a + y)[|a|..];
  }

  lemma OneDeliveryElsewhere(db: seq<Row>, foreign: seq<Row>, before: seq<Row>, mine: seq<Row>, d: Delivery)
    requires forall row :: row in foreign ==> row.exam != d.exam
    requires db + mine == Process(db + before, d)
    ensures (db + foreign) + mine == Process((db + foreign) + before, d)
  {
    ForeignRowsDoNotMatter(db, foreign, before, d);
    if IsRegistered(db + before, d) {
      CancelPrefix(db, mine, before);
    } else {
      var row := Row(d.student, d.exam, Top(db + before, d.exam) + 1);
      assert (db + before) + [row] == db + (before + [row]);
      CancelPrefix(db, mine, before + [row]);
      assert (db + foreign + before) + [row] == (db + foreign) + (before + [row]);
    }
  }

  lemma {:induction false} CommitElsewhereDoesNotMatter(db: seq<Row>, foreign: seq<Row>, mine: seq<Row>, ds: seq<Delivery>)
    requires db + mine == ProcessAll(db, ds)
    requires forall d, row :: d in ds && row in foreign ==> row.exam != d.exam
    ensures (db + foreign) + mine == ProcessAll(db + foreign, ds)
    decreases |ds|
  {
    if ds == [] {
      CancelPrefix(db, mine, []);
    } else {
      var init, d := ds[..|ds| - 1], ds[|ds| - 1];
      assert ds == init + [d];
      NumbersNeverChange(db, init);
      var before := ProcessAll(db, init)[|db|..];
      assert db + before == ProcessAll(db, init);
      CommitElsewhereDoesNotMatter(db, foreign, before, init);
      OneDeliveryElsewhere(db, foreign, before, mine, d);
    }
  }

  lemma CommitIsSerial(p: State, key: ExamId -> int, i: TxId)
    requires NumbersOk(p, key) && i in p.txs
    ensures NumbersOk(Step(p, key, Commit(i)).value, key)
  {
    var q := Step(p, key, Commit(i)).value;
    assert TxOk(p, key, i, p.txs[i]);
    ProcessAllConcat([], p.delivered, p.txs[i].handled);
    forall j | j in q.txs ensures TxOk(q, key, j, q.txs[j]) {
      assert TxOk(p, key, j, p.txs[j]);
      CommitElsewhereDoesNotMatter(p.db, p.txs[i].inserts, p.txs[j].inserts, p.txs[j].handled);
    }
  }

  /** Nobody else has an uncommitted row of an exam whose lock is held. */
  lemma LockedExamIsQuiet(p: State, key: ExamId -> int, i: TxId, row: Row)
    requires NumbersOk(p, key) && i in p.txs && Holds(p, key, i, row.exam)
    ensures !MustWait(p, i, row)
  {
    forall j | j in p.txs && j != i ensures !Clashes(p.txs[j].inserts, row) {
      assert TxOk(p, key, j, p.txs[j]);
      forall k | 0 <= k < |p.txs[j].inserts| ensures p.txs[j].inserts[k].exam != row.exam {
        assert p.txs[j].inserts[k] in p.txs[j].inserts;
      }
    }
  }

  lemma NextNumberIsFree(rows: seq<Row>, d: Delivery)
    requires !IsRegistered(rows, d)
    ensures !Clashes(rows, Row(d.student, d.exam, Top(rows, d.exam) + 1))
  {
    TopBounds(rows, d.exam);
    forall k | 0 <= k < |rows| && rows[k].exam == d.exam ensures rows[k].number <= Top(rows, d.exam) {
      assert rows[k] in rows;
    }
  }

  /** From `p` to `q` only transaction `i` has moved. */
  ghost predicate OnlyTxChanges(p: State, q: State, i: TxId)
    requires i in q.txs
  {
    q == p.(txs := p.txs[i := q.txs[i]])
  }

  lemma OthersStay(p: State, q: State, key: ExamId -> int, i: TxId)
    requires NumbersOk(p, key) && i in q.txs && OnlyTxChanges(p, q, i) && TxOk(q, key, i, q.txs[i])
    ensures NumbersOk(q, key)
  {
    forall j | j in q.txs && j != i ensures TxOk(q, key, j, q.txs[j]) {
      assert TxOk(p, key, j, p.txs[j]);
    }
  }

  /** Under the lock an insert never waits and never meets a unique violation: it handles the delivery. */
  lemma InsertNeverCollides(p: State, key: ExamId -> int, i: TxId, student: StudentId)
    requires NumbersOk(p, key) && i in p.txs && p.txs[i].exam.Some?
    ensures var q := Step(p, key, Insert(i, student));
            var d := Delivery(student, p.txs[i].exam.value);
            && q.Some? && i in q.value.txs && OnlyTxChanges(p, q.value, i)
            && q.value.txs[i].handled == p.txs[i].handled + [d]
            && p.db + q.value.txs[i].inserts == Process(p.db + p.txs[i].inserts, d)
  {
    assert TxOk(p, key, i, p.txs[i]);
    var d := Delivery(student, p.txs[i].exam.value);
    var seen := p.db + p.txs[i].inserts;
    var row := Row(d.student, d.exam, Top(seen, d.exam) + 1);
    LockedExamIsQuiet(p, key, i, row);
    if !IsRegistered(seen, d) {
      NextNumberIsFree(seen, d);
      assert seen + [row] == p.db + (p.txs[i].inserts + [row]);
    }
  }

  lemma InsertKeepsTx(p: State, key: ExamId -> int, i: TxId, student: StudentId)
    requires NumbersOk(p, key) && i in p.txs && p.txs[i].exam.Some? && Step(p, key, Insert(i, student)).Some?
    ensures var q := Step(p, key, Insert(i, student)).value;
            i in q.txs && TxOk(q, key, i, q.txs[i])
  {
    var me := p.txs[i];
    var d := Delivery(student, me.exam.value);
    InsertNeverCollides(p, key, i, student);
    assert TxOk(p, key, i, me);
    assert (me.handled + [d])[..|me.handled|] == me.handled;
  }

  lemma InsertKeepsNumbers(p: State, key: ExamId -> int, l: Label)
    requires NumbersOk(p, key) && l.Insert? && Step(p, key, l).Some?
    ensures NumbersOk(Step(p, key, l).value, key)
    ensures p.delivered == Step(p, key, l).value.delivered
  {
    var q := Step(p, key, l).value;
    InsertNeverCollides(p, key, l.tx, l.student);
    InsertKeepsTx(p, key, l.tx, l.student);
    OthersStay(p, q, key, l.tx);
  }

  lemma StepKeepsNumbers(p: State, key: ExamId -> int, l: Label)
    requires NumbersOk(p, key) && Step(p, key, l).Some?
    ensures NumbersOk(Step(p, key, l).value, key)
    ensures p.delivered <= Step(p, key, l).value.delivered
  {
    hide Process, InsertStep;
    match l
    case Commit(i) => CommitIsSerial(p, key, i);
    case Insert(_, _) => InsertKeepsNumbers(p, key, l);
    case _ =>
      var q := Step(p, key, l).value;
      forall j | j in q.txs ensures TxOk(q, key, j, q.txs[j]) {
        assert j in p.txs ==> TxOk(p, key, j, p.txs[j]);
      }
  }

  lemma {:induction false} RunsKeepNumbers(p: State, key: ExamId -> int, labels: seq<Label>)
    requires NumbersOk(p, key) && Run(p, key, labels).Some?
    ensures NumbersOk(Run(p, key, labels).value, key)
    ensures p.delivered <= Run(p, key, labels).value.delivered
    decreases |labels|
  {
    if labels != [] {
      StepKeepsNumbers(p, key, labels[0]);
      RunsKeepNumbers(Step(p, key, labels[0]).value, key, labels[1..]);
    }
  }

  /** The lock is free to whoever holds it already, and to everybody if nobody does. */
  lemma LockGoesThroughIff(p: State, key: ExamId -> int, i: TxId, exam: ExamId)
    requires i in p.txs
    ensures Step(p, key, TakeLock(i, exam)).Some? <==> key(exam) !in p.locks || p.locks[key(exam)] == i
  {
  }

  /** A rollback leaves the committed rows as they are and no lock behind. */
  lemma AbortLeavesNothing(p: State, key: ExamId -> int, i: TxId)
    requires i in p.txs
    ensures Step(p, key, Abort(i)).Some?
    ensures var q := Step(p, key, Abort(i)).value;
            && q.db == p.db && q.delivered == p.delivered && i !in q.txs
            && (forall j :: j in p.txs && j != i ==> j in q.txs && q.txs[j] == p.txs[j])
            && (forall k :: k in q.locks <==> k in p.locks && p.locks[k] != i)
  {
  }

  /**
   What the lock is for: an insert whose student, or whose number, somebody else has inserted and not yet
   committed would have to wait for the unique index.
   */
  lemma UnlockedInsertWouldWait(p: State, key: ExamId -> int, i: TxId, j: TxId, student: StudentId, exam: ExamId, k: nat)
    requires i in p.txs && j in p.txs && i != j && p.txs[i].exam == Some(exam) && k < |p.txs[j].inserts|
    requires !IsRegistered(p.db + p.txs[i].inserts, Delivery(student, exam))
    requires var row := p.txs[j].inserts[k];
             row.exam == exam && (row.student == student || row.number == Top(p.db + p.txs[i].inserts, exam) + 1)
    ensures Step(p, key, Insert(i, student)) == None
  {
    assert Clashes(p.txs[j].inserts, Row(student, exam, Top(p.db + p.txs[i].inserts, exam) + 1));
  }

  lemma RunFirst(p: State, key: ExamId -> int, l: Label, rest: seq<Label>)
    requires Step(p, key, l).Some?
    ensures Run(p, key, [l] + rest) == Run(Step(p, key, l).value, key, rest)
  {
    assert ([l] + rest)[1..] == rest;
  }

  lemma LockTaken(p: State, key: ExamId -> int, i: TxId, exam: ExamId) returns (p2: State)
    requires NumbersOk(p, key) && i !in p.txs && key(exam) !in p.locks
    ensures p2 == p.(txs := p.txs[i := Tx(Some(exam), [], [])], locks := p.locks[key(exam) := i]) && NumbersOk(p2, key)
    ensures forall rest :: Run(p, key, [Begin(i)] + ([TakeLock(i, exam)] + rest)) == Run(p2, key, rest)
  {
    var p1 := Step(p, key, Begin(i)).value;
    p2 := Step(p1, key, TakeLock(i, exam)).value;
    StepKeepsNumbers(p, key, Begin(i));
    StepKeepsNumbers(p1, key, TakeLock(i, exam));
    assert p1.txs[i := Tx(Some(exam), [], [])] == p.txs[i := Tx(Some(exam), [], [])];
    forall rest ensures Run(p, key, [Begin(i)] + ([TakeLock(i, exam)] + rest)) == Run(p2, key, rest) {
      RunFirst(p, key, Begin(i), [TakeLock(i, exam)] + rest);
      RunFirst(p1, key, TakeLock(i, exam), rest);
    }
  }

  lemma ClosedAgain(p: State, q: State, i: TxId, k: int)
    requires i !in p.txs && i in q.txs && k !in p.locks && forall k :: k in p.locks ==> p.locks[k] != i
    requires q.txs == p.txs[i := q.txs[i]] && q.locks == p.locks[k := i]
    ensures Close(q, i).txs == p.txs && Close(q, i).locks == p.locks
  {
    assert p.txs[i := q.txs[i]] - {i} == p.txs;
    var locks := Close(q, i).locks;
    assert forall k' :: k' in locks <==> k' in p.locks;
    assert forall k' :: k' in locks && k' in p.locks ==> locks[k'] == p.locks[k'];
  }

  /** Whenever nobody holds the exam's lock a grant goes through, and leaves the one delivery and nothing else behind. */
  lemma GrantGoesThrough(p: State, key: ExamId -> int, i: TxId, student: StudentId, exam: ExamId)
    requires NumbersOk(p, key) && i !in p.txs && key(exam) !in p.locks && forall k :: k in p.locks ==> p.locks[k] != i
    ensures Run(p, key, [Begin(i)] + ([TakeLock(i, exam)] + ([Insert(i, student)] + ([Commit(i)] + []))))
         == Some(p.(db := Process(p.db, Delivery(student, exam)), delivered := p.delivered + [Delivery(student, exam)]))
  {
    hide Process, NumbersOk, InsertStep;
    var d := Delivery(student, exam);
    var p2 := LockTaken(p, key, i, exam);
    InsertNeverCollides(p2, key, i, student);
    var p3 := Step(p2, key, Insert(i, student)).value;
    assert p.db + [] == p.db && [] + [d] == [d];
    assert p2.txs[i := p3.txs[i]] == p.txs[i := p3.txs[i]];
    ClosedAgain(p, p3, i, key(exam));
    RunFirst(p3, key, Commit(i), []);
    RunFirst(p2, key, Insert(i, student), [Commit(i)] + []);
  }

  /**
   Over every interleaving, and whichever exams share a lock key: the numbers of each exam are the
   positions in the de-duplicated order in which its deliveries committed, and no number that was
   there at the start has changed.
   */
  lemma EveryRunNumbersInDeliveryOrder(p: State, key: ExamId -> int, labels: seq<Label>, exam: ExamId)
    requires NumbersOk(p, key) && Run(p, key, labels).Some?
    ensures var q := Run(p, key, labels).value;
            && NumberedBy(q.db, exam, FirstTimes(q.delivered, exam))
            && p.db <= q.db
  {
    RunsKeepNumbers(p, key, labels);
    var q := Run(p, key, labels).value;
    NumberIsPosition(q.delivered, exam);
    var since := q.delivered[|p.delivered|..];
    assert q.delivered == p.delivered + since;
    ProcessAllConcat([], p.delivered, since);
    NumbersNeverChange(p.db, since);
  }
}
