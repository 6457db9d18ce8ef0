/**
 The exam tables as values, and the single SQL statements that read and write them.
 Rows keep the columns the session engine uses. A transaction is built from these statements
 in two ways: ExamStore runs it undisturbed, SessionProtocol interleaves it with others.
 */
module ExamTables {
  import opened Prelude

  type StudentId = int
  type ExamId = int
  type RegistrationId = int
  type SessionId = int
  type QuestionId = int
  type UserId = int
  type Time = int   // microseconds
  type Points = int // hundredths, as NUMERIC(6, 2) stores them

  const MINUTE: Time := 60_000_000

  datatype RegistrationStatus = Registered | CheckedIn | Sitting | Finished

  datatype Registration = Registration(
    student: StudentId,
    exam: ExamId,
    participantNumber: Option<nat>,
    attemptsUsed: nat,
    status: RegistrationStatus,
    checkedInAt: Option<Time>)

  datatype SessionStatus = InProgress | Submitted

  datatype Session = Session(
    reg: RegistrationId,
    student: StudentId,
    exam: ExamId,
    attempt: nat,
    startedAt: Time,
    submittedAt: Option<Time>,
    extendedUntil: Option<Time>,
    adminSubmitted: bool,
    score: Option<Points>,
    lastSavedAt: Option<Time>,
    position: Option<int>,
    status: SessionStatus)

  /** One answer as the server receives it: either from a save or from grading. */
  datatype Answer = Answer(
    question: QuestionId,
    text: Option<string>,
    correct: Option<bool>,
    score: Option<Points>,
    gradedBy: Option<UserId>,
    gradedAt: Option<Time>,
    comment: Option<string>,
    flagged: bool)

  datatype AnswerRow = AnswerRow(answer: Answer, savedAt: Time)

  /** exam_session_answer, keyed by its primary key (session_id, question_id). */
  type AnswerTable = map<(SessionId, QuestionId), AnswerRow>

  datatype Tables = Tables(
    regs: map<RegistrationId, Registration>,
    sessions: map<SessionId, Session>,
    answers: AnswerTable)

  datatype StoreError = NotFound | NoAttemptsLeft | NoActiveSection | UniqueViolation | ForeignKeyViolation

  // ---------- exam_session_answer ----------

  /** The row a (session, question) key is overwritten with. */
  function Upsert(t: AnswerTable, s: SessionId, a: Answer, now: Time): AnswerTable {
    t[(s, a.question) := AnswerRow(a, now)]
  }

  /** One upsert statement per answer, in list order. */
  function UpsertEach(t: AnswerTable, s: SessionId, answers: seq<Answer>, now: Time): AnswerTable
    decreases |answers|
  {
    if answers == [] then t else UpsertEach(Upsert(t, s, answers[0], now), s, answers[1..], now)
  }

  function Questions(answers: seq<Answer>): set<QuestionId> {
    set a | a in answers :: a.question
  }

  ghost predicate DistinctQuestions(answers: seq<Answer>) {
    forall i, j :: 0 <= i < j < |answers| ==> answers[i].question != answers[j].question
  }

  function AnswerFor(answers: seq<Answer>, q: QuestionId): (a: Answer)
    requires q in Questions(answers)
    ensures a in answers && a.question == q
  {
    if answers[0].question == q then answers[0]
    else
      assert answers == [answers[0]] + answers[1..];
      AnswerFor(answers[1..], q)
  }

  /**
   The one-statement upsert of a whole batch. All rows are written at once, so a batch that
   names a key twice has no meaning: Postgres rejects it.
   */
  function UpsertBatch(t: AnswerTable, s: SessionId, answers: seq<Answer>, now: Time): AnswerTable
    requires DistinctQuestions(answers)
  {
    t + BatchRows(s, answers, now)
  }

  function BatchRows(s: SessionId, answers: seq<Answer>, now: Time): AnswerTable {
    var keys := set q | q in Questions(answers) :: (s, q);
    map k | k in keys :: AnswerRow(AnswerFor(answers, k.1), now)
  }

  // ---------- exam_registration and exam_session ----------

  function LiveSessions(t: Tables, reg: RegistrationId): set<SessionId> {
    set s | s in t.sessions && t.sessions[s].reg == reg && t.sessions[s].status == InProgress
  }

  /** NULL is unlimited; 0 counts as a single sitting. */
  function Ceiling(maxAttempts: Option<int>): Option<int> {
    match maxAttempts
    case None => None
    case Some(m) => Some(if m == 0 then 1 else m)
  }

  predicate HasAttemptLeft(used: nat, maxAttempts: Option<int>) {
    match Ceiling(maxAttempts)
    case None => true
    case Some(c) => used < c
  }

  function BumpedRow(row: Registration, now: Time): Registration {
    row.(attemptsUsed := row.attemptsUsed + 1,
    status := Sitting,
    checkedInAt := if row.checkedInAt.None? then Some(now) else row.checkedInAt)
  }

  function NewSession(reg: RegistrationId, student: StudentId, exam: ExamId, attempt: nat, now: Time): Session {
    Session(reg, student, exam, attempt, now, None, None, false, None, None, None, InProgress)
  }

  function SubmittedRow(row: Session, admin: bool, score: Points, now: Time): Session {
    row.(status := Submitted,
    submittedAt := Some(now),
    score := Some(score),
    adminSubmitted := if admin then true else row.adminSubmitted)
  }

  function SavedRow(row: Session, position: Option<int>, now: Time): Session {
    row.(lastSavedAt := Some(now), position := if position.None? then row.position else position)
  }

  function GradedRow(row: AnswerRow, score: Points, comment: Option<string>, grader: UserId, now: Time): AnswerRow {
    row.(answer := row.answer.(score := Some(score), comment := comment, gradedBy := Some(grader), gradedAt := Some(now)))
  }

  /** A reopened session's deadline is counted from now, whatever it was. */
  function ReopenedRow(row: Session, minutes: int, now: Time): Session {
    row.(extendedUntil := Some(now + minutes * MINUTE))
  }

  // ---------- What every reachable set of tables satisfies ----------

  ghost predicate HasAttempt(t: Tables, reg: RegistrationId, n: nat) {
    exists s :: s in t.sessions && t.sessions[s].reg == reg && t.sessions[s].attempt == n
  }

  /** Every session belongs to its registration and carries one of its attempt numbers. */
  ghost predicate SessionsBelong(t: Tables) {
    forall s :: s in t.sessions ==>
                  var row := t.sessions[s];
                  && row.reg in t.regs
                  && row.student == t.regs[row.reg].student
                  && row.exam == t.regs[row.reg].exam
                  && 1 <= row.attempt <= t.regs[row.reg].attemptsUsed
  }

  ghost predicate AttemptsUnique(t: Tables) {
    forall s, u :: s in t.sessions && u in t.sessions && s != u && t.sessions[s].reg == t.sessions[u].reg ==>
                     t.sessions[s].attempt != t.sessions[u].attempt
  }

  ghost predicate AttemptsDense(t: Tables) {
    forall r, n: nat :: r in t.regs && 1 <= n <= t.regs[r].attemptsUsed ==> HasAttempt(t, r, n)
  }

  ghost predicate OneLiveSession(t: Tables) {
    forall s, u :: s in t.sessions && u in t.sessions && s != u && t.sessions[s].reg == t.sessions[u].reg ==>
                     t.sessions[s].status == Submitted || t.sessions[u].status == Submitted
  }

  ghost predicate SubmittedIsScored(t: Tables) {
    forall s :: s in t.sessions && t.sessions[s].status == Submitted ==>
                  t.sessions[s].score.Some? && t.sessions[s].submittedAt.Some?
  }

  /** The foreign key of exam_session_answer. */
  ghost predicate AnswersBelong(t: Tables) {
    forall k :: k in t.answers ==> k.0 in t.sessions
  }

  /** Attempt numbers are exactly 1..attempts_used, and at most one attempt is still running. */
  ghost predicate AttemptsOk(t: Tables) {
    SessionsBelong(t) && AttemptsUnique(t) && AttemptsDense(t) && OneLiveSession(t)
  }

  ghost predicate Consistent(t: Tables) {
    AttemptsOk(t) && AnswersBelong(t) && SubmittedIsScored(t)
  }

  /** No registration went past its exam's ceiling; a ceiling below zero still allows none. */
  ghost predicate WithinCeilings(t: Tables, limits: map<ExamId, Option<int>>) {
    forall r :: r in t.regs && t.regs[r].exam in limits && Ceiling(limits[t.regs[r].exam]).Some? ==>
                  t.regs[r].attemptsUsed <= Max(0, Ceiling(limits[t.regs[r].exam]).value)
  }
}
