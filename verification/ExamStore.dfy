/**
 The repository methods on the exam tables, run undisturbed. Each is proved to be the atomic
 transaction of ExamTransactions, whose invariants and whose use in interleaved runs
 (SessionProtocol) are proved there.
 */
module ExamStore {
  import opened Prelude
  import opened ExamTables
  import opened ExamTransactions
  import opened AnswerCollapse

  /** Two sets of tables with the same sittings and the same answered questions, whose submitted sessions are scored. */
  lemma SameSessionsKeepConsistency(t: Tables, t': Tables)
    requires SameSittings(t, t') && t'.answers.Keys == t.answers.Keys && (SubmittedIsScored(t) ==> SubmittedIsScored(t'))
    ensures Consistent(t) ==> Consistent(t')
  {
    if Consistent(t) {
      SameSittingsKeepNumbers(t, t');
      SameSittingsKeepDensity(t, t');
    }
  }

  class Store {
    var regs: map<RegistrationId, Registration>
    var sessions: map<SessionId, Session>
    var answers: AnswerTable

    ghost function Db(): Tables
      reads this
    {
      Tables(regs, sessions, answers)
    }

    /** Starts a sitting. `reg`, `student` and `exam` come from a registration row read earlier. */
    method CreateExamSessionTx(reg: RegistrationId, student: StudentId, exam: ExamId, maxAttempts: Option<int>,
                               id: SessionId, now: Time)
      returns (r: Result<Session, StoreError>)
      requires reg in regs ==> student == regs[reg].student && exam == regs[reg].exam
      requires id !in sessions
      modifies this
      ensures match CreateSession(old(Db()), reg, maxAttempts, id, now)
              case Failure(e) => r == Failure(e) && Db() == old(Db())
              case Success(t) => Db() == t && id in t.sessions && r == Success(t.sessions[id])
      ensures r.Success? <==>
              && reg in old(regs)
              && (forall s :: s in old(sessions) && old(sessions)[s].reg == reg ==> old(sessions)[s].status == Submitted)
              && (maxAttempts.None? || old(regs)[reg].attemptsUsed < if maxAttempts.value == 0 then 1 else maxAttempts.value)
      ensures r.Failure? ==> r.error == if reg in old(regs) then NoAttemptsLeft else NotFound
      ensures r.Failure? ==> Db() == old(Db())
      ensures r.Success? ==>
                var row := old(regs)[reg];
                && r.value == Session(reg, student, exam, row.attemptsUsed + 1, now, None, None, false, None, None, None, InProgress)
                && sessions == old(sessions)[id := r.value]
                && regs == old(regs)[reg := Registration(row.student, row.exam, row.participantNumber, row.attemptsUsed + 1,
                                                         Sitting, if row.checkedInAt.Some? then row.checkedInAt else Some(now))]
                && answers == old(answers)
    {
      if reg !in regs {
        return Failure(NotFound);
      }
      var live := set s | s in sessions && sessions[s].reg == reg && sessions[s].status == InProgress;
      if |live| > 0 {
        var u := Member(live);
        return Failure(NoAttemptsLeft);
      }
      assert forall s :: s in sessions && sessions[s].reg == reg ==> s !in live;
      if !HasAttemptLeft(regs[reg].attemptsUsed, maxAttempts) {
        return Failure(NoAttemptsLeft);
      }
      regs := regs[reg := BumpedRow(regs[reg], now)];
      var s := NewSession(reg, student, exam, regs[reg].attemptsUsed, now);
      sessions := sessions[id := s];
      r := Success(s);
    }

    /** Saves a batch of answers and the reading position of a session that is still in progress. */
    method SaveAnswersTx(s: SessionId, batch: seq<Answer>, position: Option<int>, now: Time)
      modifies this
      ensures Db() == SaveAnswers(old(Db()), s, batch, position, now)
      ensures IsLive(old(Db()), s) ==> answers == UpsertEach(old(answers), s, batch, now)
      ensures regs == old(regs)
      ensures !(s in old(sessions) && old(sessions)[s].status == InProgress && (batch != [] || position.Some?)) ==> Db() == old(Db())
      ensures s in old(sessions) && old(sessions)[s].status == InProgress && (batch != [] || position.Some?) ==>
                && SavedBatch(old(answers), s, batch, now, answers)
                && sessions == old(sessions)[s := old(sessions)[s].(
                                lastSavedAt := Some(now),
                                position := if position.Some? then position else old(sessions)[s].position)]
    {
      if batch == [] && position.None? {
        return;
      }
      var collapsed := CollapseSessionAnswersLastWins(batch);
      BatchedSaveRefinesSequentialSave(answers, s, batch, now);
      CollapsedIsSaved(answers, s, batch, now);
      if s in sessions && sessions[s].status == InProgress {
        answers := UpsertBatch(answers, s, collapsed, now);
        sessions := sessions[s := SavedRow(sessions[s], position, now)];
      }
    }

    /**
     Writes the graded answers, then submits only if the session is still in progress. The loser
     of that race rolls its answers back to the savepoint.
     */
    method SubmitSessionTx(s: SessionId, graded: seq<Answer>, score: Points, admin: bool, now: Time)
      returns (r: Result<int, StoreError>)
      modifies this
      ensures s in old(sessions) ==> r == Success(SubmitSession(old(Db()), s, graded, score, admin, now).0)
                                     && Db() == SubmitSession(old(Db()), s, graded, score, admin, now).1
      ensures s !in old(sessions) ==> r == (if graded == [] then Success(0) else Failure(ForeignKeyViolation))
      ensures r != Success(1) ==> Db() == old(Db())
      ensures r == Success(1) <==> s in old(sessions) && old(sessions)[s].status == InProgress
      ensures r == Success(1) ==>
                var row := old(sessions)[s];
                && SavedBatch(old(answers), s, graded, now, answers)
                && sessions == old(sessions)[s := row.(status := Submitted, submittedAt := Some(now), score := Some(score),
                                                       adminSubmitted := admin || row.adminSubmitted)]
                && regs == if row.reg in old(regs) then old(regs)[row.reg := old(regs)[row.reg].(status := Finished)] else old(regs)
    {
      var savepoint := answers;
      var collapsed := CollapseSessionAnswersLastWins(graded);
      LastWinsSameQuestions(graded);
      CollapsedIsSaved(answers, s, graded, now);
      if collapsed != [] && s !in sessions {
        assert graded != [];
        return Failure(ForeignKeyViolation);
      }
      assert collapsed == [] ==> graded == [] by { if graded != [] { QuestionsCons(graded); } }
      answers := UpsertBatch(answers, s, collapsed, now);
      if s in sessions && sessions[s].status == InProgress {
        sessions := sessions[s := SubmittedRow(sessions[s], admin, score, now)];
        var reg := sessions[s].reg;
        if reg in regs {
          regs := regs[reg := regs[reg].(status := Finished)];
        }
        return Success(1);
      }
      answers := savepoint;
      r := Success(0);
    }

    /** Grades one answer that exists; nobody's work changes. */
    method GradeEssayAnswerTx(s: SessionId, q: QuestionId, points: Points, comment: Option<string>, grader: UserId, now: Time)
      returns (r: Result<(), StoreError>)
      modifies this`answers
      ensures (s, q) !in old(answers) ==> r == Failure(NotFound) && answers == old(answers)
      ensures (s, q) in old(answers) ==>
                && r == Success(())
                && answers == old(answers)[(s, q) := AnswerRow(
                                Answer(old(answers)[(s, q)].answer.question, old(answers)[(s, q)].answer.text,
                                       old(answers)[(s, q)].answer.correct, Some(points), Some(grader), Some(now), comment,
                                       old(answers)[(s, q)].answer.flagged),
                                old(answers)[(s, q)].savedAt)]
      ensures answers.Keys == old(answers.Keys)
      ensures forall k :: k in answers ==> SameWork(old(answers)[k], answers[k])
      ensures Consistent(old(Db())) ==> Consistent(Db())
    {
      if (s, q) !in answers {
        return Failure(NotFound);
      }
      answers := answers[(s, q) := GradedRow(answers[(s, q)], points, comment, grader, now)];
      assert Db().regs == old(Db()).regs && Db().sessions == old(Db()).sessions;
      SameSessionsKeepConsistency(old(Db()), Db());
      r := Success(());
    }

    /** Writes a session's total; no other column of any session changes. */
    method UpdateSessionScoreTx(s: SessionId, score: Points)
      modifies this`sessions
      ensures sessions.Keys == old(sessions.Keys)
      ensures forall u :: u in sessions ==>
                            && sessions[u].(score := None) == old(sessions)[u].(score := None)
                            && sessions[u].score == if u == s then Some(score) else old(sessions)[u].score
      ensures Consistent(old(Db())) ==> Consistent(Db())
    {
      if s in sessions {
        sessions := sessions[s := sessions[s].(score := Some(score))];
      }
      SameSessionsKeepConsistency(old(Db()), Db());
    }

    method ReopenSession(s: SessionId, minutes: int, now: Time) returns (r: Result<(), StoreError>)
      modifies this`sessions
      ensures r == if s in old(sessions) then Success(()) else Failure(NotFound)
      ensures Db() == Apply(old(Db()), Reopen(s, minutes, now))
      ensures sessions == if s in old(sessions)
                          then old(sessions)[s := old(sessions)[s].(extendedUntil := Some(now + minutes * 60_000_000))]
                          else old(sessions)
    {
      if s !in sessions {
        return Failure(NotFound);
      }
      sessions := sessions[s := ReopenedRow(sessions[s], minutes, now)];
      r := Success(());
    }

    method CheckInExamTx(reg: RegistrationId, now: Time) returns (r: Result<(), StoreError>)
      modifies this`regs
      ensures Db() == Apply(old(Db()), CheckIn(reg, now))
      ensures r == if reg in old(regs) then Success(()) else Failure(NotFound)
      ensures regs == if reg !in old(regs) then old(regs)
                      else
                        var row := old(regs)[reg];
                        old(regs)[reg := Registration(row.student, row.exam, row.participantNumber, row.attemptsUsed, CheckedIn,
                                                      if row.checkedInAt.Some? then row.checkedInAt else Some(now))]
    {
      if reg !in regs {
        return Failure(NotFound);
      }
      regs := regs[reg := CheckInRow(regs[reg], now)];
      r := Success(());
    }
  }
}
