/**
 The session engine's transactions as atomic functions on the tables, and what each of them keeps.
 */
module ExamTransactions {
  import opened Prelude
  import opened ExamTables
  import opened AnswerCollapse

  datatype Transaction =
    | Create(reg: RegistrationId, maxAttempts: Option<int>, id: SessionId, now: Time)
    | Save(session: SessionId, answers: seq<Answer>, position: Option<int>, now: Time)
    | Submit(session: SessionId, graded: seq<Answer>, score: Points, admin: bool, now: Time)
    | Grade(session: SessionId, question: QuestionId, points: Points, comment: Option<string>, grader: UserId,
            total: Points, now: Time)
    | CheckIn(reg: RegistrationId, now: Time)
    | Reopen(session: SessionId, minutes: int, now: Time)

  /** CreateExamSessionTx from lock to commit. */
  function CreateSession(t: Tables, reg: RegistrationId, maxAttempts: Option<int>, id: SessionId, now: Time)
    : Result<Tables, StoreError>
  {
    if reg !in t.regs then Failure(NotFound)
    else if LiveSessions(t, reg) != {} then Failure(NoAttemptsLeft)
    else
      var row := t.regs[reg];
      if !HasAttemptLeft(row.attemptsUsed, maxAttempts) then Failure(NoAttemptsLeft)
      else Success(t.(
                   regs := t.regs[reg := BumpedRow(row, now)],
                   sessions := t.sessions[id := NewSession(reg, row.student, row.exam, row.attemptsUsed + 1, now)]))
  }

  /** A start goes through exactly if the registration exists, no sitting of it is running and an attempt is left. */
  lemma CreateSucceedsIff(t: Tables, reg: RegistrationId, maxAttempts: Option<int>, id: SessionId, now: Time)
    ensures CreateSession(t, reg, maxAttempts, id, now).Success? <==>
            && reg in t.regs
            && (forall s :: s in t.sessions && t.sessions[s].reg == reg ==> t.sessions[s].status == Submitted)
            && (maxAttempts.None? || t.regs[reg].attemptsUsed < if maxAttempts.value == 0 then 1 else maxAttempts.value)
  {
    if reg in t.regs {
      assert forall s :: s in t.sessions && t.sessions[s].reg == reg && s !in LiveSessions(t, reg) ==> t.sessions[s].status == Submitted;
      if LiveSessions(t, reg) != {} {
        var s := Member(LiveSessions(t, reg));
      }
    }
  }

  predicate IsLive(t: Tables, s: SessionId) {
    s in t.sessions && t.sessions[s].status == InProgress
  }

  /** SaveAnswersTx: one guarded statement; nothing happens unless the session is in progress. */
  function SaveAnswers(t: Tables, s: SessionId, answers: seq<Answer>, position: Option<int>, now: Time): Tables {
    if (answers == [] && position.None?) || !IsLive(t, s) then t
    else
      LastWinsSameQuestions(answers);
      t.(answers := UpsertBatch(t.answers, s, LastWins(answers), now),
      sessions := t.sessions[s := SavedRow(t.sessions[s], position, now)])
  }

  /** SubmitSessionTx: how many rows the compare-and-swap changed, and the tables after it. */
  function SubmitSession(t: Tables, s: SessionId, graded: seq<Answer>, score: Points, admin: bool, now: Time)
    : (int, Tables)
  {
    if !IsLive(t, s) then (0, t)
    else
      LastWinsSameQuestions(graded);
      var row := t.sessions[s];
      (1, t.(
       answers := UpsertBatch(t.answers, s, LastWins(graded), now),
       sessions := t.sessions[s := SubmittedRow(row, admin, score, now)],
       regs := if row.reg in t.regs then t.regs[row.reg := t.regs[row.reg].(status := Finished)] else t.regs))
  }

  /** GradeEssayAnswerTx followed by UpdateSessionScoreTx. */
  function GradeEssay(t: Tables, s: SessionId, q: QuestionId, points: Points, comment: Option<string>, grader: UserId,
                      total: Points, now: Time): Result<Tables, StoreError>
  {
    if (s, q) !in t.answers then Failure(NotFound)
    else
      var t' := t.(answers := t.answers[(s, q) := GradedRow(t.answers[(s, q)], points, comment, grader, now)]);
      Success(if s in t.sessions then t'.(sessions := t.sessions[s := t.sessions[s].(score := Some(total))]) else t')
  }

  /** CheckInExamTx. */
  function CheckInRow(row: Registration, now: Time): Registration {
    row.(status := CheckedIn, checkedInAt := if row.checkedInAt.None? then Some(now) else row.checkedInAt)
  }

  /** The tables after a transaction; one that fails is rolled back. */
  function Apply(t: Tables, op: Transaction): Tables {
    match op
    case Create(reg, maxAttempts, id, now) =>
      var r := CreateSession(t, reg, maxAttempts, id, now);
      if r.Success? then r.value else t
    case Save(s, answers, position, now) => SaveAnswers(t, s, answers, position, now)
    case Submit(s, graded, score, admin, now) => SubmitSession(t, s, graded, score, admin, now).1
    case Grade(s, q, points, comment, grader, total, now) =>
      var r := GradeEssay(t, s, q, points, comment, grader, total, now);
      if r.Success? then r.value else t
    case CheckIn(reg, now) => if reg in t.regs then t.(regs := t.regs[reg := CheckInRow(t.regs[reg], now)]) else t
    case Reopen(s, minutes, now) =>
      if s in t.sessions then t.(sessions := t.sessions[s := ReopenedRow(t.sessions[s], minutes, now)]) else t
  }

  /** Grading one answer writes its grading columns and the session's total, and nothing else. */
  lemma GradeWritesGrading(t: Tables, s: SessionId, q: QuestionId, points: Points, comment: Option<string>, grader: UserId,
                           total: Points, now: Time)
    ensures var t' := Apply(t, Grade(s, q, points, comment, grader, total, now));
            && t'.regs == t.regs && t'.sessions.Keys == t.sessions.Keys && t'.answers.Keys == t.answers.Keys
            && (forall u :: u in t.sessions ==>
                              t'.sessions[u] == if u == s && (s, q) in t.answers then t.sessions[u].(score := Some(total)) else t.sessions[u])
            && (forall k: (SessionId, QuestionId) :: k in t.answers ==>
                  t'.answers[k] ==
                  if k == (s, q)
                  then AnswerRow(t.answers[k].answer.(score := Some(points), comment := comment, gradedBy := Some(grader),
                                                      gradedAt := Some(now)), t.answers[k].savedAt)
                  else t.answers[k])
  {
  }

  /** What the callers owe: fresh session ids, and the exam's own attempt limit. */
  ghost predicate Admissible(t: Tables, limits: map<ExamId, Option<int>>, op: Transaction) {
    op.Create? ==>
      && op.id !in t.sessions
      && (op.reg in t.regs ==> t.regs[op.reg].exam in limits && op.maxAttempts == limits[t.regs[op.reg].exam])
  }

  // ---------- Invariants ----------

  /** `t'` extends `t`: rows keep their identity columns, statuses only move forward, submitted rows stay scored. */
  ghost predicate Extends(t: Tables, t': Tables) {
    && (forall r :: r in t.regs ==>
                      && r in t'.regs
                      && t'.regs[r].student == t.regs[r].student
                      && t'.regs[r].exam == t.regs[r].exam)
    && (forall s :: s in t.sessions ==>
                      && s in t'.sessions
                      && t'.sessions[s].reg == t.sessions[s].reg
                      && t'.sessions[s].student == t.sessions[s].student
                      && t'.sessions[s].exam == t.sessions[s].exam
                      && t'.sessions[s].attempt == t.sessions[s].attempt
                      && (t.sessions[s].status == Submitted ==> t'.sessions[s].status == Submitted))
  }

  lemma AttemptSurvives(t: Tables, t': Tables, r: RegistrationId, n: nat)
    requires HasAttempt(t, r, n) && Extends(t, t')
    ensures HasAttempt(t', r, n)
  {
    var s :| s in t.sessions && t.sessions[s].reg == r && t.sessions[s].attempt == n;
    assert t'.sessions[s].attempt == n;
  }

  /** `t'` has the sessions of `t` and no more, and no attempt was spent. */
  ghost predicate SameSittings(t: Tables, t': Tables) {
    && Extends(t, t')
    && t'.sessions.Keys == t.sessions.Keys
    && t'.regs.Keys == t.regs.Keys
    && forall r :: r in t.regs ==> t'.regs[r].attemptsUsed == t.regs[r].attemptsUsed
  }

  lemma SameSittingsKeepNumbers(t: Tables, t': Tables)
    requires SameSittings(t, t') && SessionsBelong(t) && AttemptsUnique(t) && OneLiveSession(t)
    ensures SessionsBelong(t') && AttemptsUnique(t') && OneLiveSession(t')
  {
  }

  lemma SameSittingsKeepDensity(t: Tables, t': Tables)
    requires SameSittings(t, t') && AttemptsDense(t)
    ensures AttemptsDense(t')
  {
    forall r, n: nat | r in t'.regs && 1 <= n <= t'.regs[r].attemptsUsed ensures HasAttempt(t', r, n) {
      assert HasAttempt(t, r, n);
      AttemptSurvives(t, t', r, n);
    }
  }

  lemma OtherTransactionsSpendNoAttempt(t: Tables, op: Transaction)
    requires op.Create? ==> CreateSession(t, op.reg, op.maxAttempts, op.id, op.now).Failure?
    ensures SameSittings(t, Apply(t, op))
  {
  }

  lemma NewSittingKeepsAttempts(t: Tables, reg: RegistrationId, maxAttempts: Option<int>, id: SessionId, now: Time)
    requires SessionsBelong(t) && AttemptsUnique(t) && AttemptsDense(t) && id !in t.sessions
    requires CreateSession(t, reg, maxAttempts, id, now).Success?
    ensures var t' := CreateSession(t, reg, maxAttempts, id, now).value;
            SessionsBelong(t') && AttemptsUnique(t') && AttemptsDense(t')
  {
    var t' := CreateSession(t, reg, maxAttempts, id, now).value;
    forall r, n: nat | r in t'.regs && 1 <= n <= t'.regs[r].attemptsUsed ensures HasAttempt(t', r, n) {
      if r == reg && n == t'.regs[r].attemptsUsed {
        assert t'.sessions[id].attempt == n;
      } else {
        assert HasAttempt(t, r, n);
        AttemptSurvives(t, t', r, n);
      }
    }
  }

  /** The count under the lock is what makes the new sitting the only live one. */
  lemma NewSittingIsTheOnlyLiveOne(t: Tables, reg: RegistrationId, maxAttempts: Option<int>, id: SessionId, now: Time)
    requires OneLiveSession(t) && id !in t.sessions
    requires CreateSession(t, reg, maxAttempts, id, now).Success?
    ensures var t' := CreateSession(t, reg, maxAttempts, id, now).value;
            OneLiveSession(t') && LiveSessions(t', reg) == {id}
  {
    forall s | s in t.sessions && t.sessions[s].reg == reg ensures t.sessions[s].status == Submitted {
      assert s !in LiveSessions(t, reg);
    }
  }

  lemma TransactionsKeepAnswersAndScores(t: Tables, op: Transaction)
    requires AnswersBelong(t) && SubmittedIsScored(t)
    requires op.Create? ==> op.id !in t.sessions
    ensures AnswersBelong(Apply(t, op)) && SubmittedIsScored(Apply(t, op))
  {
  }

  lemma NewSittingWithinCeiling(t: Tables, limits: map<ExamId, Option<int>>, op: Transaction)
    requires op.Create? && Admissible(t, limits, op) && WithinCeilings(t, limits)
    requires CreateSession(t, op.reg, op.maxAttempts, op.id, op.now).Success?
    ensures WithinCeilings(Apply(t, op), limits)
  {
  }

  lemma SameSittingsWithinCeilings(t: Tables, t': Tables, limits: map<ExamId, Option<int>>)
    requires SameSittings(t, t') && WithinCeilings(t, limits)
    ensures WithinCeilings(t', limits)
  {
  }

  lemma TransactionsKeepAttempts(t: Tables, op: Transaction)
    requires AttemptsOk(t)
    requires op.Create? ==> op.id !in t.sessions
    ensures AttemptsOk(Apply(t, op))
  {
    if op.Create? && CreateSession(t, op.reg, op.maxAttempts, op.id, op.now).Success? {
      NewSittingKeepsAttempts(t, op.reg, op.maxAttempts, op.id, op.now);
      NewSittingIsTheOnlyLiveOne(t, op.reg, op.maxAttempts, op.id, op.now);
    } else {
      OtherTransactionsSpendNoAttempt(t, op);
      SameSittingsKeepNumbers(t, Apply(t, op));
      SameSittingsKeepDensity(t, Apply(t, op));
    }
  }

  lemma TransactionsKeepCeilings(t: Tables, op: Transaction, limits: map<ExamId, Option<int>>)
    requires WithinCeilings(t, limits) && Admissible(t, limits, op)
    ensures WithinCeilings(Apply(t, op), limits)
  {
    if op.Create? && CreateSession(t, op.reg, op.maxAttempts, op.id, op.now).Success? {
      NewSittingWithinCeiling(t, limits, op);
    } else {
      OtherTransactionsSpendNoAttempt(t, op);
      SameSittingsWithinCeilings(t, Apply(t, op), limits);
    }
  }

  /** Every transaction keeps the tables consistent and every registration within its ceiling. */
  lemma TransactionsKeepTables(t: Tables, op: Transaction, limits: map<ExamId, Option<int>>)
    requires Consistent(t) && WithinCeilings(t, limits) && Admissible(t, limits, op)
    ensures Consistent(Apply(t, op)) && WithinCeilings(Apply(t, op), limits)
  {
    TransactionsKeepAttempts(t, op);
    TransactionsKeepCeilings(t, op, limits);
    TransactionsKeepAnswersAndScores(t, op);
  }

  /** The columns of an answer that only its author decides. */
  ghost predicate SameWork(a: AnswerRow, b: AnswerRow) {
    a.answer.text == b.answer.text && a.answer.flagged == b.answer.flagged && a.answer.correct == b.answer.correct
    && a.savedAt == b.savedAt
  }

  /** A submitted session as an unchangeable record: grading may only touch score columns, reopening the deadline. */
  ghost predicate FrozenSince(t: Tables, t': Tables, s: SessionId)
    requires s in t.sessions
  {
    && s in t'.sessions
    && t'.sessions[s].(score := None, extendedUntil := None) == t.sessions[s].(score := None, extendedUntil := None)
    && (forall q :: (s, q) in t.answers <==> (s, q) in t'.answers)
    && (forall q :: (s, q) in t.answers && (s, q) in t'.answers ==> SameWork(t.answers[(s, q)], t'.answers[(s, q)]))
  }

  lemma SubmittedSessionIsFrozen(t: Tables, op: Transaction, s: SessionId)
    requires s in t.sessions && t.sessions[s].status == Submitted
    requires op.Create? ==> op.id !in t.sessions
    ensures FrozenSince(t, Apply(t, op), s)
  {
  }
}
