/**
 What the row lock before the grading read is for. A submit grades the texts it read and writes them
 back; between the read and the write anybody may try to save. Under the lock nobody succeeds.
 */
module SubmitTexts {
  import opened Prelude
  import opened ExamTables
  import opened ExamTransactions
  import opened AnswerCollapse
  import opened SessionProtocol
  import opened SessionRuns

  lemma {:induction false} LastWinsAreGiven(answers: seq<Answer>, a: Answer)
    requires a in LastWins(answers)
    ensures a in answers
  {
    if answers[0].question in Questions(answers[1..]) {
      LastWinsAreGiven(answers[1..], a);
    } else if a != answers[0] {
      assert a in LastWins(answers[1..]);
      LastWinsAreGiven(answers[1..], a);
    }
  }

  /**
   The texts read under the lock are still the table's texts in every state that any run reaches
   while the submit has not written yet, whatever the others do.
   */
  lemma TextsReadUnderLockStayCurrent(p: State, labels: seq<Label>, i: TxId)
    requires ProtocolOk(p) && Run(p, labels).Some?
    requires var q := Run(p, labels).value;
             i in q.txs && q.txs[i].job.SubmitJob? && q.txs[i].progress.AnswersRead? && q.txs[i].progress.held
    ensures var q := Run(p, labels).value;
            AreTexts(q.txs[i].progress.texts, q.db.answers, q.txs[i].job.session)
  {
    RunsAreSerial(p, labels);
    assert TxOk(Run(p, labels).value, i, Run(p, labels).value.txs[i]);
  }

  /** So a submit that locked the session before it read commits the answers with their texts intact. */
  lemma LockedSubmitKeepsTexts(p: State, i: TxId)
    requires ProtocolOk(p) && i in p.txs && p.txs[i].progress.RegistrationFinished? && p.txs[i].progress.held
    ensures forall k :: k in p.db.answers ==>
                          && k in CommitStep(p, i).db.answers
                          && CommitStep(p, i).db.answers[k].answer.text == p.db.answers[k].answer.text
  {
    var me := p.txs[i];
    assert TxOk(p, i, me);
    var graded := me.progress.graded;
    LastWinsSameQuestions(graded);
    forall k | k in p.db.answers && k in me.writes.answers
      ensures me.writes.answers[k].answer.text == p.db.answers[k].answer.text
    {
      var a := AnswerFor(LastWins(graded), k.1);
      LastWinsAreGiven(graded, a);
      var j :| 0 <= j < |graded| && graded[j] == a;
      assert (me.job.session, graded[j].question) == k;
    }
  }

  // ---------- Without the lock ----------

  function Saved(q: QuestionId, text: Option<string>): Answer {
    Answer(q, text, None, None, None, None, None, false)
  }

  lemma OneAnswer(a: Answer)
    ensures LastWins([a]) == [a] && Questions([a]) == {a.question} && AnswerFor([a], a.question) == a
  {
    assert [a][1..] == [];
  }

  lemma SavedRowIs(t: Tables, s: SessionId, a: Answer, now: Time)
    requires IsLive(t, s)
    ensures var t' := SaveAnswers(t, s, [a], None, now);
            && IsLive(t', s) && t'.regs == t.regs && t'.sessions[s].reg == t.sessions[s].reg
            && (s, a.question) in t'.answers && t'.answers[(s, a.question)].answer == a
  {
    OneAnswer(a);
    LastWinsSameQuestions([a]);
    WrittenRowIs(s, a, now);
  }

  function Submitter(s: SessionId, now: Time, progress: Progress, writes: Tables): Tx {
    Tx(SubmitJob(s, false), now, progress, writes)
  }

  lemma ReadStep(p: State, i: TxId, s: SessionId, now: Time)
    requires i in p.txs && p.txs[i] == Submitter(s, now, Begun, NOTHING) && p.locks == map[]
    ensures Step(p, ReadAnswers(i)) == Some(p.(txs := p.txs[i := Submitter(s, now, AnswersRead(false, TextsOf(p.db.answers, s)), NOTHING)]))
  {
    assert Acquire(p, {}, i) == map[];
    assert Step(p, ReadAnswers(i)) == SubmitStep(p, i, ReadAnswers(i));
  }

  lemma SaveStep(p: State, s: SessionId, b: Answer, now: Time)
    requires p.locks == map[]
    ensures Step(p, AutoSave(s, [b], None, now)) == Some(p.(db := SaveAnswers(p.db, s, [b], None, now)))
  {
  }

  /** An unlocked submit reads the answers, and then a save changes one of them. */
  lemma ReadThenSaved(p: State, i: TxId, s: SessionId, b: Answer, now: Time) returns (p3: State)
    requires i !in p.txs && p.locks == map[]
    ensures Run(p, [BeginSubmit(i, s, false, now)] + ([ReadAnswers(i)] + ([AutoSave(s, [b], None, now)] + []))) == Some(p3)
    ensures p3 == p.(db := SaveAnswers(p.db, s, [b], None, now),
                     txs := p.txs[i := Submitter(s, now, AnswersRead(false, TextsOf(p.db.answers, s)), NOTHING)])
  {
    var p1 := p.(txs := p.txs[i := Submitter(s, now, Begun, NOTHING)]);
    var p2 := p.(txs := p.txs[i := Submitter(s, now, AnswersRead(false, TextsOf(p.db.answers, s)), NOTHING)]);
    p3 := p2.(db := SaveAnswers(p.db, s, [b], None, now));
    ReadStep(p1, i, s, now);
    assert p1.txs[i := p2.txs[i]] == p2.txs;
    SaveStep(p2, s, b, now);
    RunFirst(p2, AutoSave(s, [b], None, now), []);
    RunFirst(p1, ReadAnswers(i), [AutoSave(s, [b], None, now)] + []);
    RunFirst(p, BeginSubmit(i, s, false, now), [ReadAnswers(i)] + ([AutoSave(s, [b], None, now)] + []));
  }

  lemma WriteStep(p: State, i: TxId, s: SessionId, texts: Texts, g: Answer, score: Points, now: Time) returns (q: State)
    requires i in p.txs && p.txs[i] == Submitter(s, now, AnswersRead(false, texts), NOTHING)
    requires p.locks == map[] && IsLive(p.db, s) && GradesTexts(texts, [g])
    ensures Step(p, WriteAnswers(i, [g], score)) == Some(q) && q.db == p.db
    ensures i in q.txs && q.txs[i] == Submitter(s, now, AnswersWritten(false, [g], score), NOTHING.(answers := BatchRows(s, [g], now)))
    ensures forall res :: res in q.locks ==> res.AnswerKey?
  {
    OneAnswer(g);
    q := WriteAnswersStep(p, i, false, [g], score).value;
    assert Step(p, WriteAnswers(i, [g], score)) == SubmitStep(p, i, WriteAnswers(i, [g], score));
  }

  lemma CasStep(p: State, i: TxId, s: SessionId, graded: seq<Answer>, score: Points, now: Time, w: Tables) returns (q: State)
    requires i in p.txs && p.txs[i] == Submitter(s, now, AnswersWritten(false, graded, score), w)
    requires IsLive(p.db, s) && forall res :: res in p.locks ==> res.AnswerKey?
    ensures Step(p, CompareAndSet(i)) == Some(q) && q.db == p.db && i in q.txs
    ensures q.txs[i] == Submitter(s, now, CasWon(false, graded, score),
                                  w.(sessions := map[s := SubmittedRow(p.db.sessions[s], false, score, now)]))
    ensures forall res :: res in q.locks ==> !res.RegistrationRow?
  {
    q := WinCas(p, i, false, graded, score);
    assert Step(p, CompareAndSet(i)) == SubmitStep(p, i, CompareAndSet(i));
  }

  lemma FinishStep(p: State, i: TxId, s: SessionId, graded: seq<Answer>, score: Points, now: Time, w: Tables) returns (q: State)
    requires i in p.txs && p.txs[i] == Submitter(s, now, CasWon(false, graded, score), w)
    requires s in p.db.sessions && forall res :: res in p.locks ==> !res.RegistrationRow?
    ensures Step(p, FinishRegistration(i)) == Some(q) && q.db == p.db && i in q.txs
    ensures q.txs[i] == Submitter(s, now, RegistrationFinished(false, graded, score), w.(regs := q.txs[i].writes.regs))
  {
    q := MarkRegistration(p, i, false, graded, score);
    assert Step(p, FinishRegistration(i)) == SubmitStep(p, i, FinishRegistration(i));
  }

  lemma CommitsStep(p: State, i: TxId, s: SessionId, g: Answer, score: Points, now: Time, row: Session) returns (q: State)
    requires i in p.txs && p.txs[i].job == SubmitJob(s, false) && p.txs[i].progress == RegistrationFinished(false, [g], score)
    requires p.txs[i].writes.answers == BatchRows(s, [g], now) && p.txs[i].writes.sessions == map[s := row] && row.status == Submitted
    ensures Step(p, Commit(i)) == Some(q)
    ensures (s, g.question) in q.db.answers && q.db.answers[(s, g.question)].answer == g && IsSubmitted(q.db, s)
  {
    q := CommitStep(p, i);
    WrittenRowIs(s, g, now);
  }

  lemma RunFour(p0: State, p1: State, p2: State, p3: State, p4: State, l0: Label, l1: Label, l2: Label, l3: Label)
    requires Step(p0, l0) == Some(p1) && Step(p1, l1) == Some(p2) && Step(p2, l2) == Some(p3) && Step(p3, l3) == Some(p4)
    ensures Run(p0, [l0] + ([l1] + ([l2] + ([l3] + [])))) == Some(p4)
  {
    RunFirst(p3, l3, []);
    RunFirst(p2, l2, [l3] + []);
    RunFirst(p1, l1, [l2] + ([l3] + []));
    RunFirst(p0, l0, [l1] + ([l2] + ([l3] + [])));
  }

  /** It writes back what it had read and wins. */
  lemma WritesWhatItRead(p: State, i: TxId, s: SessionId, texts: Texts, g: Answer, score: Points, now: Time) returns (q: State)
    requires i in p.txs && p.txs[i] == Submitter(s, now, AnswersRead(false, texts), NOTHING)
    requires p.locks == map[] && IsLive(p.db, s) && GradesTexts(texts, [g])
    ensures Run(p, [WriteAnswers(i, [g], score)] + ([CompareAndSet(i)] + ([FinishRegistration(i)] + ([Commit(i)] + [])))) == Some(q)
    ensures (s, g.question) in q.db.answers && q.db.answers[(s, g.question)].answer == g && IsSubmitted(q.db, s)
  {
    var p1 := WriteStep(p, i, s, texts, g, score, now);
    var p2 := CasStep(p1, i, s, [g], score, now, p1.txs[i].writes);
    var p3 := FinishStep(p2, i, s, [g], score, now, p2.txs[i].writes);
    q := CommitsStep(p3, i, s, g, score, now, SubmittedRow(p.db.sessions[s], false, score, now));
    RunFour(p, p1, p2, p3, q, WriteAnswers(i, [g], score), CompareAndSet(i), FinishRegistration(i), Commit(i));
  }

  lemma WrittenRowIs(s: SessionId, g: Answer, now: Time)
    ensures (s, g.question) in BatchRows(s, [g], now) && BatchRows(s, [g], now)[(s, g.question)].answer == g
  {
    OneAnswer(g);
  }

  /**
   On every live session, for any answer and any other text: a submit that reads without the lock
   can overwrite a save that committed after the read, and the submitted session keeps the old text.
   */
  lemma UnlockedSubmitLosesText(p: State, i: TxId, s: SessionId, k: QuestionId, text: Option<string>, score: Points, now: Time)
    returns (read: seq<Label>, write: seq<Label>)
    requires i !in p.txs && p.locks == map[] && IsLive(p.db, s)
    requires (s, k) in p.db.answers && p.db.answers[(s, k)].answer.text != text
    ensures Run(p, read).Some? && Run(Run(p, read).value, write).Some?
    ensures var saved, submitted := Run(p, read).value, Run(Run(p, read).value, write).value;
            && (s, k) in saved.db.answers && saved.db.answers[(s, k)].answer.text == text
            && IsSubmitted(submitted.db, s)
            && (s, k) in submitted.db.answers && submitted.db.answers[(s, k)].answer.text == p.db.answers[(s, k)].answer.text
  {
    var b, g := Saved(k, text), Saved(k, p.db.answers[(s, k)].answer.text);
    read := [BeginSubmit(i, s, false, now)] + ([ReadAnswers(i)] + ([AutoSave(s, [b], None, now)] + []));
    write := [WriteAnswers(i, [g], score)] + ([CompareAndSet(i)] + ([FinishRegistration(i)] + ([Commit(i)] + [])));
    SavedRowIs(p.db, s, b, now);
    var p3 := ReadThenSaved(p, i, s, b, now);
    var q := WritesWhatItRead(p3, i, s, TextsOf(p.db.answers, s), g, score, now);
  }
}
