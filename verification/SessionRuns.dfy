/**
 What holds over every run of SessionProtocol: each step keeps the protocol's invariant, each run
 is a serial run of whole transactions, and from that the guarantees of the engine.
 */
module SessionRuns {
  import opened Prelude
  import opened ExamTables
  import opened ExamTransactions
  import opened AnswerCollapse
  import opened SessionProtocol

  // ---------- Steps keep the invariant ----------

  lemma SameTablesKeepTx(p: State, q: State, j: TxId, tx: Tx)
    requires TxOk(p, j, tx) && q.db == p.db
    requires forall res :: Holds(p, res, j) ==> Holds(q, res, j)
    ensures TxOk(q, j, tx)
  {
    UndisturbedTx(p, q, j, tx);
  }

  lemma OpenKeepsProtocol(p: State, i: TxId, job: Job, now: Time)
    requires ProtocolOk(p) && Open(p, i, job, now).Some?
    requires LimitOk(p, Tx(job, now, Begun, NOTHING))
    ensures ProtocolOk(Open(p, i, job, now).value)
  {
    var q := Open(p, i, job, now).value;
    forall j | j in p.txs ensures TxOk(q, j, q.txs[j]) {
      SameTablesKeepTx(p, q, j, p.txs[j]);
    }
  }

  lemma CloseKeepsProtocol(p: State, i: TxId)
    requires ProtocolOk(p)
    ensures ProtocolOk(Close(p, i))
  {
    var q := Close(p, i);
    forall j | j in q.txs ensures TxOk(q, j, q.txs[j]) {
      SameTablesKeepTx(p, q, j, p.txs[j]);
    }
  }

  lemma AdvanceKeepsProtocol(p: State, i: TxId, resources: set<Resource>, progress: Progress, writes: Tables)
    requires ProtocolOk(p) && i in p.txs
    requires forall res :: res in resources ==> Free(p, res, i)
    requires var q := Advance(p, i, resources, progress, writes); TxOk(q, i, q.txs[i])
    ensures ProtocolOk(Advance(p, i, resources, progress, writes))
  {
    var q := Advance(p, i, resources, progress, writes);
    forall j | j in q.txs && j != i ensures TxOk(q, j, q.txs[j]) {
      SameTablesKeepTx(p, q, j, p.txs[j]);
    }
  }

  lemma LockRegistrationKeepsProtocol(p: State, i: TxId)
    requires ProtocolOk(p) && Step(p, LockRegistration(i)).Some?
    ensures ProtocolOk(Step(p, LockRegistration(i)).value)
  {
    assert TxOk(p, i, p.txs[i]);
    var reg := p.txs[i].job.reg;
    if reg in p.db.regs {
      AdvanceKeepsProtocol(p, i, {RegistrationRow(reg)}, RegistrationLocked, NOTHING);
    } else {
      CloseKeepsProtocol(p, i);
    }
  }

  lemma CountLiveKeepsProtocol(p: State, i: TxId)
    requires ProtocolOk(p) && Step(p, CountLive(i)).Some?
    ensures ProtocolOk(Step(p, CountLive(i)).value)
  {
    assert TxOk(p, i, p.txs[i]);
    if LiveSessions(p.db, p.txs[i].job.reg) == {} {
      AdvanceKeepsProtocol(p, i, {}, NoLiveSession, NOTHING);
    } else {
      CloseKeepsProtocol(p, i);
    }
  }

  lemma SpendAttemptKeepsProtocol(p: State, i: TxId)
    requires ProtocolOk(p) && Step(p, SpendAttempt(i)).Some?
    ensures ProtocolOk(Step(p, SpendAttempt(i)).value)
  {
    var me := p.txs[i];
    assert TxOk(p, i, me);
    var reg := me.job.reg;
    if HasAttemptLeft(p.db.regs[reg].attemptsUsed, me.job.maxAttempts) {
      AdvanceKeepsProtocol(p, i, {}, AttemptSpent, NOTHING.(regs := map[reg := BumpedRow(p.db.regs[reg], me.now)]));
    } else {
      CloseKeepsProtocol(p, i);
    }
  }

  lemma InsertSessionKeepsProtocol(p: State, i: TxId, id: SessionId)
    requires ProtocolOk(p) && Step(p, InsertSession(i, id)).Some?
    ensures ProtocolOk(Step(p, InsertSession(i, id)).value)
  {
    var me := p.txs[i];
    assert TxOk(p, i, me);
    var reg := me.job.reg;
    var row := me.writes.regs[reg];
    AdvanceKeepsProtocol(p, i, {SessionRow(id)}, SessionInserted(id), me.writes.(
                         sessions := map[id := NewSession(reg, row.student, row.exam, row.attemptsUsed, me.now)]));
  }

  lemma GradeAnswerKeepsProtocol(p: State, i: TxId)
    requires ProtocolOk(p) && Step(p, GradeAnswer(i)).Some?
    ensures ProtocolOk(Step(p, GradeAnswer(i)).value)
  {
    var me := p.txs[i];
    assert TxOk(p, i, me);
    var GradeJob(s, k, points, comment, grader) := me.job;
    if (s, k) in p.db.answers {
      AdvanceKeepsProtocol(p, i, {AnswerKey(s, k)}, EssayGraded, NOTHING.(
                           answers := map[(s, k) := GradedRow(p.db.answers[(s, k)], points, comment, grader, me.now)]));
    } else {
      CloseKeepsProtocol(p, i);
    }
  }

  lemma WriteTotalKeepsProtocol(p: State, i: TxId, total: Points)
    requires ProtocolOk(p) && i in p.txs && p.txs[i].job.GradeJob? && p.txs[i].progress.EssayGraded?
    requires Free(p, SessionRow(p.txs[i].job.session), i)
    ensures ProtocolOk(ScoreSession(p, i, total))
  {
    var me := p.txs[i];
    assert TxOk(p, i, me);
    var s := me.job.session;
    AdvanceKeepsProtocol(p, i, {SessionRow(s)}, TotalWritten(total), me.writes.(
                         sessions := if s in p.db.sessions then map[s := p.db.sessions[s].(score := Some(total))] else map[]));
  }

  lemma LockSessionKeepsProtocol(p: State, i: TxId)
    requires ProtocolOk(p) && Step(p, LockSession(i)).Some?
    ensures ProtocolOk(Step(p, LockSession(i)).value)
  {
    assert TxOk(p, i, p.txs[i]);
    var s := p.txs[i].job.session;
    if IsLive(p.db, s) {
      AdvanceKeepsProtocol(p, i, {SessionRow(s)}, SessionLocked, NOTHING);
    } else {
      CloseKeepsProtocol(p, i);
    }
  }

  lemma ReadAnswersKeepsProtocol(p: State, i: TxId)
    requires ProtocolOk(p) && Step(p, ReadAnswers(i)).Some?
    ensures ProtocolOk(Step(p, ReadAnswers(i)).value)
  {
    var me := p.txs[i];
    assert TxOk(p, i, me);
    AdvanceKeepsProtocol(p, i, {}, AnswersRead(me.progress.SessionLocked?, TextsOf(p.db.answers, me.job.session)), NOTHING);
  }

  lemma WriteAnswersKeepsProtocol(p: State, i: TxId, held: bool, graded: seq<Answer>, score: Points)
    requires ProtocolOk(p) && i in p.txs && p.txs[i].job.SubmitJob?
    requires p.txs[i].job.session in p.db.sessions
    requires forall res :: res in KeysOf(p.txs[i].job.session, graded) ==> Free(p, res, i)
    requires p.txs[i].progress.AnswersRead? && p.txs[i].progress.held == held
    requires GradesTexts(p.txs[i].progress.texts, graded)
    ensures ProtocolOk(WriteAnswersStep(p, i, held, graded, score).value)
  {
    var s := p.txs[i].job.session;
    var keys := KeysOf(s, graded);
    var rows := BatchRows(s, LastWins(graded), p.txs[i].now);
    LastWinsSameQuestions(graded);
    assert TxOk(p, i, p.txs[i]);
    var q := Advance(p, i, keys, AnswersWritten(held, graded, score), NOTHING.(answers := rows));
    forall k | k in rows ensures Holds(q, AnswerKey(k.0, k.1), i) {
      assert k.0 == s && k.1 in Questions(graded);
      assert AnswerKey(s, k.1) in keys;
    }
    AdvanceKeepsProtocol(p, i, keys, AnswersWritten(held, graded, score), NOTHING.(answers := rows));
  }

  lemma WinCasKeepsProtocol(p: State, i: TxId, held: bool, graded: seq<Answer>, score: Points)
    requires ProtocolOk(p) && i in p.txs && p.txs[i].job.SubmitJob? && IsLive(p.db, p.txs[i].job.session)
    requires p.txs[i].progress == AnswersWritten(held, graded, score) && Free(p, SessionRow(p.txs[i].job.session), i)
    ensures ProtocolOk(WinCas(p, i, held, graded, score))
  {
    var me := p.txs[i];
    assert TxOk(p, i, me);
    var s := me.job.session;
    UndisturbedAnswers(p, WinCas(p, i, held, graded, score), i, me, held, graded);
    AdvanceKeepsProtocol(p, i, {SessionRow(s)}, CasWon(held, graded, score), me.writes.(
                         sessions := map[s := SubmittedRow(p.db.sessions[s], me.job.admin, score, me.now)]));
  }

  lemma RollbackKeepsProtocol(p: State, i: TxId)
    requires ProtocolOk(p) && i in p.txs && p.txs[i].job.SubmitJob?
    ensures ProtocolOk(p.(txs := p.txs[i := p.txs[i].(progress := CasLost, writes := NOTHING)], locks := Released(p, i)))
  {
    var q := p.(txs := p.txs[i := p.txs[i].(progress := CasLost, writes := NOTHING)], locks := Released(p, i));
    forall j | j in q.txs && j != i ensures TxOk(q, j, q.txs[j]) {
      SameTablesKeepTx(p, q, j, p.txs[j]);
    }
    assert TxOk(q, i, q.txs[i]);
  }

  lemma FinishRegistrationKeepsProtocol(p: State, i: TxId, held: bool, graded: seq<Answer>, score: Points)
    requires ProtocolOk(p) && i in p.txs && p.txs[i].job.SubmitJob? && p.txs[i].job.session in p.db.sessions
    requires p.txs[i].progress == CasWon(held, graded, score)
    requires Free(p, RegistrationRow(p.db.sessions[p.txs[i].job.session].reg), i)
    ensures ProtocolOk(MarkRegistration(p, i, held, graded, score))
  {
    var me := p.txs[i];
    assert TxOk(p, i, me);
    var reg := p.db.sessions[me.job.session].reg;
    UndisturbedAnswers(p, MarkRegistration(p, i, held, graded, score), i, me, held, graded);
    AdvanceKeepsProtocol(p, i, {RegistrationRow(reg)}, RegistrationFinished(held, graded, score), me.writes.(
                         regs := if reg in p.db.regs then map[reg := p.db.regs[reg].(status := Finished)] else map[]));
  }

  // ---------- Commits and autocommitted statements ----------

  /** The transaction a committing tx amounts to; one that lost its race amounts to nothing. */
  function CommittedAs(tx: Tx): Option<Transaction> {
    match (tx.job, tx.progress)
    case (CreateJob(reg, maxAttempts), SessionInserted(id)) => Some(Create(reg, maxAttempts, id, tx.now))
    case (SubmitJob(s, admin), RegistrationFinished(_, graded, score)) => Some(Submit(s, graded, score, admin, tx.now))
    case (GradeJob(s, q, points, comment, grader), TotalWritten(total)) =>
      Some(Grade(s, q, points, comment, grader, total, tx.now))
    case _ => None
  }

  /** The transaction that a step applies to the committed tables, if it applies any. */
  function Effect(p: State, l: Label): Option<Transaction> {
    match l
    case Commit(tx) => if tx in p.txs then CommittedAs(p.txs[tx]) else None
    case AutoSave(s, answers, position, now) => Some(Save(s, answers, position, now))
    case AutoCheckIn(reg, now) => Some(CheckIn(reg, now))
    case AutoReopen(s, minutes, now) => Some(Reopen(s, minutes, now))
    case _ => None
  }

  function Outcome(t: Tables, op: Option<Transaction>): Tables {
    if op.None? then t else Apply(t, op.value)
  }

  lemma CreateCommits(p: State, i: TxId)
    requires ProtocolOk(p) && i in p.txs && p.txs[i].job.CreateJob? && MayCommit(p.txs[i])
    ensures Merged(p.db, p.txs[i].writes) == Outcome(p.db, CommittedAs(p.txs[i]))
    ensures CommittedAs(p.txs[i]).Some? && Admissible(p.db, p.limits, CommittedAs(p.txs[i]).value)
    ensures forall r, s :: s in p.txs[i].writes.sessions && p.txs[i].writes.sessions[s].reg == r ==> Holds(p, RegistrationRow(r), i)
  {
    assert TxOk(p, i, p.txs[i]) && LimitOk(p, p.txs[i]);
  }

  lemma SubmitMerges(t: Tables, s: SessionId, graded: seq<Answer>, score: Points, admin: bool, now: Time, w: Tables)
    requires IsLive(t, s)
    requires w.answers == BatchRows(s, LastWins(graded), now)
    requires w.sessions == map[s := SubmittedRow(t.sessions[s], admin, score, now)]
    requires var reg := t.sessions[s].reg;
             w.regs == if reg in t.regs then map[reg := t.regs[reg].(status := Finished)] else map[]
    ensures Merged(t, w) == SubmitSession(t, s, graded, score, admin, now).1
  {
    hide BatchRows, LastWins, SubmittedRow;
  }

  lemma SubmitCommits(p: State, i: TxId)
    requires ProtocolOk(p) && i in p.txs && p.txs[i].job.SubmitJob? && MayCommit(p.txs[i])
    ensures Merged(p.db, p.txs[i].writes) == Outcome(p.db, CommittedAs(p.txs[i]))
    ensures p.txs[i].progress.RegistrationFinished? ==> IsLive(p.db, p.txs[i].job.session)
    ensures forall s :: s in p.txs[i].writes.sessions ==> p.txs[i].writes.sessions[s].status == Submitted
  {
    assert TxOk(p, i, p.txs[i]);
    var db, w := p.db, p.txs[i].writes;
    if p.txs[i].progress.CasLost? {
      assert Merged(db, w) == db;
    } else {
      var done := p.txs[i].progress;
      SubmitMerges(db, p.txs[i].job.session, done.graded, done.score, p.txs[i].job.admin, p.txs[i].now, w);
    }
  }

  lemma GradeCommits(p: State, i: TxId)
    requires ProtocolOk(p) && i in p.txs && p.txs[i].job.GradeJob? && MayCommit(p.txs[i])
    ensures Merged(p.db, p.txs[i].writes) == Outcome(p.db, CommittedAs(p.txs[i]))
    ensures forall s :: s in p.txs[i].writes.sessions ==>
                          s in p.db.sessions && p.txs[i].writes.sessions[s].(score := None) == p.db.sessions[s].(score := None)
  {
    assert TxOk(p, i, p.txs[i]);
  }

  /** Every commit applies exactly one whole transaction to the tables it finds. */
  lemma CommitIsOneTransaction(p: State, i: TxId)
    requires ProtocolOk(p) && i in p.txs && MayCommit(p.txs[i])
    ensures Merged(p.db, p.txs[i].writes) == Outcome(p.db, CommittedAs(p.txs[i]))
    ensures CommittedAs(p.txs[i]).Some? ==> Admissible(p.db, p.limits, CommittedAs(p.txs[i]).value)
  {
    match p.txs[i].job
    case CreateJob(_, _) => CreateCommits(p, i);
    case SubmitJob(_, _) => SubmitCommits(p, i);
    case GradeJob(_, _, _, _, _) => GradeCommits(p, i);
  }

  /** A commit starts no sitting under a registration that another transaction has locked. */
  lemma CommitStartsNothingElsewhere(p: State, i: TxId, r: RegistrationId)
    requires ProtocolOk(p) && i in p.txs && MayCommit(p.txs[i]) && !Holds(p, RegistrationRow(r), i)
    ensures LiveSessions(Merged(p.db, p.txs[i].writes), r) <= LiveSessions(p.db, r)
  {
    match p.txs[i].job
    case CreateJob(_, _) => CreateCommits(p, i);
    case SubmitJob(_, _) => SubmitCommits(p, i);
    case GradeJob(_, _, _, _, _) => GradeCommits(p, i);
  }

  lemma CommitDisturbsNobody(p: State, i: TxId, j: TxId)
    requires ProtocolOk(p) && i in p.txs && MayCommit(p.txs[i]) && j != i
    ensures Undisturbed(p, CommitStep(p, i), j)
  {
    var q := CommitStep(p, i);
    var w := p.txs[i].writes;
    assert TxOk(p, i, p.txs[i]);
    forall res | Holds(p, res, j) ensures Holds(q, res, j) && RowKept(p, q, res) {
      match res
      case RegistrationRow(r) => assert r !in w.regs;
      case SessionRow(s) => assert s !in w.sessions;
      case AnswerKey(s, k) => assert (s, k) !in w.answers;
    }
    forall r | Holds(p, RegistrationRow(r), j) ensures LiveSessions(q.db, r) <= LiveSessions(p.db, r) {
      CommitStartsNothingElsewhere(p, i, r);
    }
  }

  /** A commit that writes answers of a session holds that session's row. */
  lemma AnswerWritersHoldTheSession(p: State, i: TxId)
    requires ProtocolOk(p) && i in p.txs && MayCommit(p.txs[i])
    ensures forall k :: k in p.txs[i].writes.answers ==> Holds(p, SessionRow(k.0), i)
  {
    assert TxOk(p, i, p.txs[i]);
  }

  lemma CommitKeepsTexts(p: State, i: TxId, j: TxId)
    requires ProtocolOk(p) && i in p.txs && MayCommit(p.txs[i]) && j != i
    ensures TextsKept(p, CommitStep(p, i), j)
  {
    AnswerWritersHoldTheSession(p, i);
    var w := p.txs[i].writes;
    forall s, q | Holds(p, SessionRow(s), j) ensures (s, q) !in w.answers {
      assert (s, q).0 == s;
    }
  }

  /** Registrations are only ever updated, never to another exam. */
  lemma OutcomeKeepsLimits(p: State, op: Transaction, tx: Tx)
    requires LimitOk(p, tx) && (op.Create? ==> op.id !in p.db.sessions)
    ensures LimitOk(p.(db := Apply(p.db, op)), tx)
  {
  }

  lemma CommitKeepsProtocol(p: State, i: TxId)
    requires ProtocolOk(p) && i in p.txs && MayCommit(p.txs[i])
    ensures ProtocolOk(CommitStep(p, i))
  {
    var q := CommitStep(p, i);
    CommitIsOneTransaction(p, i);
    forall j | j in q.txs ensures TxOk(q, j, q.txs[j]) && LimitOk(q, q.txs[j]) {
      CommitDisturbsNobody(p, i, j);
      CommitKeepsTexts(p, i, j);
      UndisturbedTx(p, q, j, p.txs[j]);
      if CommittedAs(p.txs[i]).Some? {
        OutcomeKeepsLimits(p, CommittedAs(p.txs[i]).value, p.txs[j]);
      }
    }
  }

  lemma AutoSaveDisturbsNobody(p: State, l: Label, j: TxId)
    requires ProtocolOk(p) && l.AutoSave? && Step(p, l).Some?
    ensures Undisturbed(p, Step(p, l).value, j)
  {
    var AutoSave(s, answers, position, now) := l;
    var q := Step(p, l).value;
    LastWinsSameQuestions(answers);
    forall res | Holds(p, res, j) ensures RowKept(p, q, res) {
      if IsLive(p.db, s) {
        assert res != SessionRow(s) && res !in KeysOf(s, answers);
        assert forall k :: k in Questions(answers) ==> AnswerKey(s, k) in KeysOf(s, answers);
      }
    }
  }

  /** An autocommitted write of rows that nobody has locked. */
  lemma OneRowStepDisturbsNobody(p: State, l: Label, j: TxId)
    requires (l.AutoCheckIn? || l.AutoReopen?) && Step(p, l).Some?
    ensures Undisturbed(p, Step(p, l).value, j)
  {
  }

  /** A statement that changes only the committed tables, and disturbs nobody, keeps every transaction in order. */
  lemma UndisturbedKeepsProtocol(p: State, op: Transaction)
    requires ProtocolOk(p) && (op.Create? ==> op.id !in p.db.sessions)
    requires forall j :: j in p.txs ==> Undisturbed(p, p.(db := Apply(p.db, op)), j) && TextsKept(p, p.(db := Apply(p.db, op)), j)
    ensures ProtocolOk(p.(db := Apply(p.db, op)))
  {
    var q := p.(db := Apply(p.db, op));
    forall j | j in q.txs ensures TxOk(q, j, q.txs[j]) && LimitOk(q, q.txs[j]) {
      UndisturbedTx(p, q, j, p.txs[j]);
      OutcomeKeepsLimits(p, op, p.txs[j]);
    }
  }

  lemma AutoSaveKeepsTexts(p: State, l: Label, j: TxId)
    requires l.AutoSave? && Step(p, l).Some?
    ensures TextsKept(p, Step(p, l).value, j)
  {
    LastWinsSameQuestions(l.answers);
    forall s, q | Holds(p, SessionRow(s), j) && IsLive(p.db, l.session) ensures (s, q) !in BatchRows(l.session, LastWins(l.answers), l.now) {
      assert s != l.session && (s, q).0 == s;
    }
  }

  lemma AutoStepKeepsProtocol(p: State, l: Label)
    requires ProtocolOk(p) && (l.AutoSave? || l.AutoCheckIn? || l.AutoReopen?) && Step(p, l).Some?
    ensures ProtocolOk(Step(p, l).value)
  {
    var op := Effect(p, l).value;
    assert Step(p, l).value == p.(db := Apply(p.db, op));
    forall j | j in p.txs
      ensures Undisturbed(p, p.(db := Apply(p.db, op)), j) && TextsKept(p, p.(db := Apply(p.db, op)), j)
    {
      if l.AutoSave? {
        AutoSaveKeepsTexts(p, l, j);
        AutoSaveDisturbsNobody(p, l, j);
      } else {
        OneRowStepDisturbsNobody(p, l, j);
      }
    }
    UndisturbedKeepsProtocol(p, op);
  }

  // ---------- Every run ----------

  lemma SubmitStepKeepsProtocol(p: State, l: Label)
    requires ProtocolOk(p) && Step(p, l).Some? && (l.WriteAnswers? || l.CompareAndSet? || l.FinishRegistration?)
    ensures ProtocolOk(Step(p, l).value)
  {
    var i := l.tx;
    var me := p.txs[i];
    assert TxOk(p, i, me);
    match l
    case WriteAnswers(_, graded, score) => WriteAnswersKeepsProtocol(p, i, me.progress.held, graded, score);
    case CompareAndSet(_) =>
      if IsLive(p.db, me.job.session) {
        WinCasKeepsProtocol(p, i, me.progress.held, me.progress.graded, me.progress.score);
      } else {
        RollbackKeepsProtocol(p, i);
      }
    case FinishRegistration(_) =>
      FinishRegistrationKeepsProtocol(p, i, me.progress.held, me.progress.graded, me.progress.score);
  }

  /** Each of the nineteen kinds of step keeps the invariant. */
  lemma StepKeepsProtocol(p: State, l: Label)
    requires ProtocolOk(p) && Step(p, l).Some?
    ensures ProtocolOk(Step(p, l).value)
  {
    match l
    case BeginCreate(i, reg, maxAttempts, now) => OpenKeepsProtocol(p, i, CreateJob(reg, maxAttempts), now);
    case BeginSubmit(i, s, admin, now) => OpenKeepsProtocol(p, i, SubmitJob(s, admin), now);
    case BeginGrade(i, s, q, points, comment, grader, now) =>
      OpenKeepsProtocol(p, i, GradeJob(s, q, points, comment, grader), now);
    case LockRegistration(i) => LockRegistrationKeepsProtocol(p, i);
    case CountLive(i) => CountLiveKeepsProtocol(p, i);
    case SpendAttempt(i) => SpendAttemptKeepsProtocol(p, i);
    case InsertSession(i, id) => InsertSessionKeepsProtocol(p, i, id);
    case LockSession(i) => LockSessionKeepsProtocol(p, i);
    case ReadAnswers(i) => ReadAnswersKeepsProtocol(p, i);
    case WriteAnswers(_, _, _) => SubmitStepKeepsProtocol(p, l);
    case CompareAndSet(_) => SubmitStepKeepsProtocol(p, l);
    case FinishRegistration(_) => SubmitStepKeepsProtocol(p, l);
    case GradeAnswer(i) => GradeAnswerKeepsProtocol(p, i);
    case WriteTotal(i, total) => WriteTotalKeepsProtocol(p, i, total);
    case Commit(i) => CommitKeepsProtocol(p, i);
    case Abort(i) => CloseKeepsProtocol(p, i);
    case AutoSave(_, _, _, _) => AutoStepKeepsProtocol(p, l);
    case AutoCheckIn(_, _) => AutoStepKeepsProtocol(p, l);
    case AutoReopen(_, _, _) => AutoStepKeepsProtocol(p, l);
  }

  lemma QuietStepsTouchNothing(p: State, l: Label)
    requires Step(p, l).Some? && !l.Commit? && !l.AutoSave? && !l.AutoCheckIn? && !l.AutoReopen?
    ensures Step(p, l).value.db == p.db && Step(p, l).value.wins == p.wins && Step(p, l).value.limits == p.limits
  {
  }

  /** A step changes the committed tables only by applying one whole, admissible transaction. */
  lemma StepIsOneTransaction(p: State, l: Label)
    requires ProtocolOk(p) && Step(p, l).Some?
    ensures Step(p, l).value.db == Outcome(p.db, Effect(p, l))
    ensures Step(p, l).value.limits == p.limits
    ensures Effect(p, l).Some? ==> Admissible(p.db, p.limits, Effect(p, l).value)
  {
    match l
    case Commit(i) => CommitIsOneTransaction(p, i);
    case AutoSave(_, _, _, _) =>
    case AutoCheckIn(_, _) =>
    case AutoReopen(_, _, _) =>
    case _ => QuietStepsTouchNothing(p, l);
  }

  /** The transactions of a run, in the order in which they took effect. */
  ghost function Serial(p: State, labels: seq<Label>): seq<Transaction>
    requires Run(p, labels).Some?
    decreases |labels|
  {
    if labels == [] then []
    else
      var rest := Serial(Step(p, labels[0]).value, labels[1..]);
      if Effect(p, labels[0]).None? then rest else [Effect(p, labels[0]).value] + rest
  }

  function ApplyAll(t: Tables, ops: seq<Transaction>): Tables
    decreases |ops|
  {
    if ops == [] then t else ApplyAll(Apply(t, ops[0]), ops[1..])
  }

  /** Every interleaving leaves the tables that its transactions leave one after the other. */
  lemma {:induction false} RunsAreSerial(p: State, labels: seq<Label>)
    requires ProtocolOk(p) && Run(p, labels).Some?
    ensures ProtocolOk(Run(p, labels).value)
    ensures Run(p, labels).value.db == ApplyAll(p.db, Serial(p, labels))
    decreases |labels|
  {
    if labels != [] {
      StepKeepsProtocol(p, labels[0]);
      StepIsOneTransaction(p, labels[0]);
      RunsAreSerial(Step(p, labels[0]).value, labels[1..]);
      if Effect(p, labels[0]).Some? {
        var rest := Serial(Step(p, labels[0]).value, labels[1..]);
        assert ([Effect(p, labels[0]).value] + rest)[1..] == rest;
      }
    }
  }

  /**
   In every reachable state: attempt numbers of a registration are 1..attempts_used without
   repeats, at most one of its sessions is in progress, a submitted session has a score, and no
   registration is past its exam's ceiling.
   */
  lemma {:induction false} EveryRunKeepsTables(p: State, labels: seq<Label>)
    requires ProtocolOk(p) && Consistent(p.db) && WithinCeilings(p.db, p.limits)
    requires Run(p, labels).Some?
    ensures var q := Run(p, labels).value; Consistent(q.db) && WithinCeilings(q.db, p.limits)
    decreases |labels|
  {
    if labels != [] {
      var q := Step(p, labels[0]).value;
      StepKeepsProtocol(p, labels[0]);
      StepIsOneTransaction(p, labels[0]);
      if Effect(p, labels[0]).Some? {
        TransactionsKeepTables(p.db, Effect(p, labels[0]).value, p.limits);
      }
      EveryRunKeepsTables(q, labels[1..]);
    }
  }

  function SittingsOf(t: Tables, r: RegistrationId): set<SessionId> {
    set s | s in t.sessions && t.sessions[s].reg == r
  }

  function UpTo(n: nat): (r: set<int>)
    ensures |r| == n && forall k :: k in r <==> 1 <= k <= n
  {
    if n == 0 then {} else UpTo(n - 1) + {n}
  }

  /** A registration has exactly as many sessions as attempts used. */
  lemma SittingsAreAttempts(t: Tables, r: RegistrationId)
    requires AttemptsOk(t) && r in t.regs
    ensures |SittingsOf(t, r)| == t.regs[r].attemptsUsed
  {
    var sittings, used := SittingsOf(t, r), t.regs[r].attemptsUsed;
    var attempt: map<SessionId, int> := map s | s in sittings :: t.sessions[s].attempt;
    forall s | s in sittings ensures attempt[s] in UpTo(used) {
    }
    forall s, u | s in sittings && u in sittings && attempt[s] == attempt[u] ensures s == u {
    }
    forall k | k in UpTo(used) ensures exists s :: s in sittings && attempt[s] == k {
      assert HasAttempt(t, r, k);
      var s :| s in t.sessions && t.sessions[s].reg == r && t.sessions[s].attempt == k;
      assert s in sittings && attempt[s] == k;
    }
    ImageSize(sittings, UpTo(used), attempt);
  }

  lemma AtMostOneLive(t: Tables, r: RegistrationId)
    requires OneLiveSession(t)
    ensures |LiveSessions(t, r)| <= 1
  {
    var live := LiveSessions(t, r);
    if live != {} {
      var s := Member(live);
      forall u | u in live ensures u == s {
      }
      assert live == {s};
    }
  }

  /**
   Whatever raced: a registration has one session for each attempt used, at most one of them
   running, and no more than its exam allows - one if the limit says 0, any number without a limit.
   */
  lemma AttemptsAreAccountedFor(p: State, labels: seq<Label>, r: RegistrationId)
    requires ProtocolOk(p) && Consistent(p.db) && WithinCeilings(p.db, p.limits)
    requires Run(p, labels).Some? && r in Run(p, labels).value.db.regs
    ensures var t := Run(p, labels).value.db;
            && |SittingsOf(t, r)| == t.regs[r].attemptsUsed && |LiveSessions(t, r)| <= 1
            && forall m :: t.regs[r].exam in p.limits && p.limits[t.regs[r].exam] == Some(m) ==>
                             |SittingsOf(t, r)| <= if m == 0 then 1 else if m < 0 then 0 else m
  {
    EveryRunKeepsTables(p, labels);
    SittingsAreAttempts(Run(p, labels).value.db, r);
    AtMostOneLive(Run(p, labels).value.db, r);
  }

  // ---------- Submit happens exactly once ----------

  predicate IsSubmitted(t: Tables, s: SessionId) {
    s in t.sessions && t.sessions[s].status == Submitted
  }

  /** The committed winners since `t0` are exactly the sessions submitted since `t0`, each listed once. */
  ghost predicate WinsOk(wins: seq<SessionId>, db: Tables, t0: Tables) {
    && Distinct(wins)
    && (forall s :: IsSubmitted(db, s) <==> s in wins || IsSubmitted(t0, s))
    && (forall s :: s in wins ==> !IsSubmitted(t0, s))
  }

  lemma OnlySubmitSubmits(t: Tables, op: Transaction)
    requires op.Create? ==> op.id !in t.sessions
    ensures forall u :: IsSubmitted(Apply(t, op), u) <==> IsSubmitted(t, u) || (op.Submit? && u == op.session && IsLive(t, u))
  {
  }

  lemma WinnerJoinsTheLog(wins: seq<SessionId>, db: Tables, t0: Tables, op: Transaction)
    requires WinsOk(wins, db, t0) && op.Submit? && IsLive(db, op.session)
    ensures WinsOk(wins + [op.session], Apply(db, op), t0)
  {
    OnlySubmitSubmits(db, op);
    assert op.session !in wins;
    forall s ensures s in wins + [op.session] <==> s in wins || s == op.session {
    }
  }

  lemma OthersLeaveTheLog(wins: seq<SessionId>, db: Tables, t0: Tables, op: Transaction)
    requires WinsOk(wins, db, t0) && !op.Submit? && (op.Create? ==> op.id !in db.sessions)
    ensures WinsOk(wins, Apply(db, op), t0)
  {
    OnlySubmitSubmits(db, op);
  }

  /** Every Submit that takes effect is a committed winner, and nothing else is. */
  lemma StepLogsItsWinner(p: State, l: Label)
    requires ProtocolOk(p) && Step(p, l).Some?
    ensures Effect(p, l).Some? && Effect(p, l).value.Submit? ==>
              IsLive(p.db, Effect(p, l).value.session) && Step(p, l).value.wins == p.wins + [Effect(p, l).value.session]
    ensures Effect(p, l).None? || !Effect(p, l).value.Submit? ==> Step(p, l).value.wins == p.wins
  {
    match l
    case Commit(i) =>
      if p.txs[i].job.SubmitJob? {
        SubmitCommits(p, i);
      }
    case AutoSave(_, _, _, _) =>
    case AutoCheckIn(_, _) =>
    case AutoReopen(_, _, _) =>
    case _ => QuietStepsTouchNothing(p, l);
  }

  lemma StepKeepsWins(p: State, l: Label, t0: Tables)
    requires ProtocolOk(p) && WinsOk(p.wins, p.db, t0) && Step(p, l).Some?
    ensures WinsOk(Step(p, l).value.wins, Step(p, l).value.db, t0)
  {
    StepIsOneTransaction(p, l);
    StepLogsItsWinner(p, l);
    var effect := Effect(p, l);
    if effect.Some? {
      if effect.value.Submit? {
        WinnerJoinsTheLog(p.wins, p.db, t0, effect.value);
      } else {
        OthersLeaveTheLog(p.wins, p.db, t0, effect.value);
      }
    }
  }

  lemma {:induction false} EveryRunKeepsWins(p: State, labels: seq<Label>, t0: Tables)
    requires ProtocolOk(p) && WinsOk(p.wins, p.db, t0) && Run(p, labels).Some?
    ensures WinsOk(Run(p, labels).value.wins, Run(p, labels).value.db, t0)
    decreases |labels|
  {
    if labels != [] {
      StepKeepsProtocol(p, labels[0]);
      StepKeepsWins(p, labels[0], t0);
      EveryRunKeepsWins(Step(p, labels[0]).value, labels[1..], t0);
    }
  }

  /**
   However student, proctor and expiry submits race, a session in progress at the start of a run
   is submitted at its end exactly if one committed SubmitSessionTx returned 1 for it, and never two.
   */
  lemma SubmitHappensOnce(p: State, labels: seq<Label>)
    requires ProtocolOk(p) && p.wins == [] && Run(p, labels).Some?
    ensures var q := Run(p, labels).value;
            && Distinct(q.wins)
            && forall s :: IsLive(p.db, s) ==> (IsSubmitted(q.db, s) <==> s in q.wins)
  {
    EveryRunKeepsWins(p, labels, p.db);
  }

  /** Losing the race changes nothing: not the answers, not the session, not the registration. */
  lemma LoserLeavesNoTrace(p: State, i: TxId)
    requires ProtocolOk(p) && i in p.txs && p.txs[i].progress.CasLost?
    ensures CommitStep(p, i).db == p.db && CommitStep(p, i).wins == p.wins
    ensures Close(p, i).db == p.db
  {
    assert TxOk(p, i, p.txs[i]);
    CommitIsOneTransaction(p, i);
  }

  lemma FrozenIsTransitive(a: Tables, b: Tables, c: Tables, s: SessionId)
    requires s in a.sessions && FrozenSince(a, b, s) && FrozenSince(b, c, s)
    ensures FrozenSince(a, c, s)
  {
    forall q ensures (s, q) in a.answers <==> (s, q) in c.answers {
      assert (s, q) in a.answers <==> (s, q) in b.answers;
    }
  }

  /** Once submitted, always submitted: no later step changes an answer's text, only grading its score columns. */
  lemma {:induction false} SubmittedStaysFrozen(p: State, labels: seq<Label>, s: SessionId)
    requires ProtocolOk(p) && IsSubmitted(p.db, s) && Run(p, labels).Some?
    ensures FrozenSince(p.db, Run(p, labels).value.db, s)
    decreases |labels|
  {
    if labels != [] {
      var q := Step(p, labels[0]).value;
      StepKeepsProtocol(p, labels[0]);
      StepIsOneTransaction(p, labels[0]);
      if Effect(p, labels[0]).Some? {
        SubmittedSessionIsFrozen(p.db, Effect(p, labels[0]).value, s);
      }
      assert FrozenSince(p.db, q.db, s);
      SubmittedStaysFrozen(q, labels[1..], s);
      FrozenIsTransitive(p.db, q.db, Run(p, labels).value.db, s);
    }
  }

  // ---------- The undisturbed runs ----------

  lemma RunFirst(p: State, l: Label, rest: seq<Label>)
    requires Step(p, l).Some?
    ensures Run(p, [l] + rest) == Run(Step(p, l).value, rest)
  {
    assert ([l] + rest)[1..] == rest;
  }

  lemma UndisturbedStart(p: State, i: TxId, reg: RegistrationId, maxAttempts: Option<int>, now: Time) returns (p1: State, p2: State)
    requires i !in p.txs && p.locks == map[] && reg in p.db.regs
    requires p.db.regs[reg].exam in p.limits && maxAttempts == p.limits[p.db.regs[reg].exam]
    ensures Step(p, BeginCreate(i, reg, maxAttempts, now)) == Some(p1)
    ensures Step(p1, LockRegistration(i)) == Some(p2)
    ensures p2.db == p.db && p2.locks == map[RegistrationRow(reg) := i]
    ensures i in p2.txs && p2.txs[i] == Tx(CreateJob(reg, maxAttempts), now, RegistrationLocked, NOTHING)
  {
    p1 := Step(p, BeginCreate(i, reg, maxAttempts, now)).value;
    assert p1.txs[i] == Tx(CreateJob(reg, maxAttempts), now, Begun, NOTHING);
    p2 := Step(p1, LockRegistration(i)).value;
  }

  lemma UndisturbedSpend(p: State, i: TxId, reg: RegistrationId, maxAttempts: Option<int>, now: Time) returns (p3: State, p4: State)
    requires i in p.txs && p.txs[i] == Tx(CreateJob(reg, maxAttempts), now, RegistrationLocked, NOTHING)
    requires reg in p.db.regs && LiveSessions(p.db, reg) == {} && HasAttemptLeft(p.db.regs[reg].attemptsUsed, maxAttempts)
    ensures Step(p, CountLive(i)) == Some(p3)
    ensures Step(p3, SpendAttempt(i)) == Some(p4)
    ensures p4.db == p.db && p4.locks == p.locks && i in p4.txs
    ensures p4.txs[i] == Tx(CreateJob(reg, maxAttempts), now, AttemptSpent,
                            Tables(map[reg := BumpedRow(p.db.regs[reg], now)], map[], map[]))
  {
    p3 := Step(p, CountLive(i)).value;
    assert p3.txs[i] == Tx(CreateJob(reg, maxAttempts), now, NoLiveSession, NOTHING);
    p4 := Step(p3, SpendAttempt(i)).value;
  }

  lemma UndisturbedInsert(p: State, i: TxId, reg: RegistrationId, maxAttempts: Option<int>, id: SessionId, now: Time)
    returns (p5: State)
    requires i in p.txs && reg in p.db.regs && id !in p.db.sessions && SessionRow(id) !in p.locks
    requires p.txs[i] == Tx(CreateJob(reg, maxAttempts), now, AttemptSpent,
                            Tables(map[reg := BumpedRow(p.db.regs[reg], now)], map[], map[]))
    ensures Step(p, InsertSession(i, id)) == Some(p5)
    ensures p5.db == p.db && i in p5.txs
    ensures var row := p.db.regs[reg];
            p5.txs[i] == Tx(CreateJob(reg, maxAttempts), now, SessionInserted(id),
                            Tables(map[reg := BumpedRow(row, now)],
                                   map[id := NewSession(reg, row.student, row.exam, row.attemptsUsed + 1, now)], map[]))
  {
    var row := p.db.regs[reg];
    p5 := Advance(p, i, {SessionRow(id)}, SessionInserted(id), Tables(
                  map[reg := BumpedRow(row, now)],
                  map[id := NewSession(reg, row.student, row.exam, row.attemptsUsed + 1, now)], map[]));
    assert Step(p, InsertSession(i, id)) == CreateStep(p, i, InsertSession(i, id)) == Some(p5);
  }

  lemma UndisturbedCommit(p: State, i: TxId, reg: RegistrationId, maxAttempts: Option<int>, id: SessionId, now: Time)
    returns (p6: State)
    requires i in p.txs && CreateSession(p.db, reg, maxAttempts, id, now).Success?
    requires var row := p.db.regs[reg];
             p.txs[i] == Tx(CreateJob(reg, maxAttempts), now, SessionInserted(id),
                            Tables(map[reg := BumpedRow(row, now)],
                                   map[id := NewSession(reg, row.student, row.exam, row.attemptsUsed + 1, now)], map[]))
    ensures Step(p, Commit(i)) == Some(p6)
    ensures p6.db == CreateSession(p.db, reg, maxAttempts, id, now).value
  {
    p6 := CommitStep(p, i);
    UndisturbedMerge(p.db, reg, maxAttempts, id, now, p.txs[i].writes);
  }

  lemma UndisturbedMerge(t: Tables, reg: RegistrationId, maxAttempts: Option<int>, id: SessionId, now: Time, writes: Tables)
    requires CreateSession(t, reg, maxAttempts, id, now).Success?
    requires var row := t.regs[reg];
             writes == Tables(map[reg := BumpedRow(row, now)],
                              map[id := NewSession(reg, row.student, row.exam, row.attemptsUsed + 1, now)], map[])
    ensures Merged(t, writes) == CreateSession(t, reg, maxAttempts, id, now).value
  {
  }

  lemma UndisturbedCreateRun(p: State, i: TxId, reg: RegistrationId, maxAttempts: Option<int>, id: SessionId, now: Time)
    requires i !in p.txs && p.locks == map[] && id !in p.db.sessions
    requires CreateSession(p.db, reg, maxAttempts, id, now).Success?
    requires p.db.regs[reg].exam in p.limits && maxAttempts == p.limits[p.db.regs[reg].exam]
    ensures var labels := [BeginCreate(i, reg, maxAttempts, now)] + ([LockRegistration(i)] + ([CountLive(i)] +
                          ([SpendAttempt(i)] + ([InsertSession(i, id)] + ([Commit(i)] + [])))));
            Run(p, labels).Some? && Run(p, labels).value.db == CreateSession(p.db, reg, maxAttempts, id, now).value
  {
    hide Step, Run;
    var p1, p2 := UndisturbedStart(p, i, reg, maxAttempts, now);
    var p3, p4 := UndisturbedSpend(p2, i, reg, maxAttempts, now);
    var p5 := UndisturbedInsert(p4, i, reg, maxAttempts, id, now);
    var p6 := UndisturbedCommit(p5, i, reg, maxAttempts, id, now);
    var l6: seq<Label> := [Commit(i)] + [];
    var l5 := [InsertSession(i, id)] + l6;
    var l4 := [SpendAttempt(i)] + l5;
    var l3 := [CountLive(i)] + l4;
    var l2 := [LockRegistration(i)] + l3;
    RunFirst(p5, Commit(i), []);
    RunFirst(p4, InsertSession(i, id), l6);
    RunFirst(p3, SpendAttempt(i), l5);
    RunFirst(p2, CountLive(i), l4);
    RunFirst(p1, LockRegistration(i), l3);
    RunFirst(p, BeginCreate(i, reg, maxAttempts, now), l2);
    RunsEnd(p6);
  }

  /** Nobody in the way: a start whose registration has no running sitting and an attempt left goes through. */
  lemma UndisturbedCreateCompletes(p: State, i: TxId, reg: RegistrationId, maxAttempts: Option<int>, id: SessionId, now: Time)
    requires i !in p.txs && p.locks == map[] && id !in p.db.sessions && reg in p.db.regs
    requires forall s :: s in p.db.sessions && p.db.sessions[s].reg == reg ==> p.db.sessions[s].status == Submitted
    requires maxAttempts.None? || p.db.regs[reg].attemptsUsed < if maxAttempts.value == 0 then 1 else maxAttempts.value
    requires p.db.regs[reg].exam in p.limits && maxAttempts == p.limits[p.db.regs[reg].exam]
    ensures var labels := [BeginCreate(i, reg, maxAttempts, now)] + ([LockRegistration(i)] + ([CountLive(i)] +
                          ([SpendAttempt(i)] + ([InsertSession(i, id)] + ([Commit(i)] + [])))));
            var row := p.db.regs[reg];
            && Run(p, labels).Some?
            && Run(p, labels).value.db == Tables(
                   p.db.regs[reg := Registration(row.student, row.exam, row.participantNumber, row.attemptsUsed + 1, Sitting,
                                                 if row.checkedInAt.Some? then row.checkedInAt else Some(now))],
                   p.db.sessions[id := Session(reg, row.student, row.exam, row.attemptsUsed + 1, now, None, None, false, None, None,
                                               None, InProgress)],
                   p.db.answers)
  {
    CreateSucceedsIff(p.db, reg, maxAttempts, id, now);
    UndisturbedCreateRun(p, i, reg, maxAttempts, id, now);
  }

  /** The transaction is in this state, and nobody else holds a lock. */
  ghost predicate Alone(p: State, i: TxId, tx: Tx) {
    i in p.txs && p.txs[i] == tx && forall res :: res in p.locks ==> p.locks[res] == i
  }

  /** A submit of `s` after its last statement. */
  function SubmitAt(s: SessionId, admin: bool, now: Time, progress: Progress, writes: Tables): Tx {
    Tx(SubmitJob(s, admin), now, progress, writes)
  }

  lemma UndisturbedRead(p: State, i: TxId, s: SessionId, admin: bool, now: Time) returns (p1: State, p2: State, p3: State)
    requires i !in p.txs && p.locks == map[] && IsLive(p.db, s)
    ensures Step(p, BeginSubmit(i, s, admin, now)) == Some(p1) && Step(p1, LockSession(i)) == Some(p2)
    ensures Step(p2, ReadAnswers(i)) == Some(p3) && p3.db == p.db && p3.wins == p.wins
    ensures Alone(p3, i, SubmitAt(s, admin, now, AnswersRead(true, TextsOf(p.db.answers, s)), NOTHING))
  {
    hide TextsOf, AreTexts;
    p1 := p.(txs := p.txs[i := SubmitAt(s, admin, now, Begun, NOTHING)]);
    p2 := Advance(p1, i, {SessionRow(s)}, SessionLocked, NOTHING);
    assert Step(p1, LockSession(i)) == SubmitStep(p1, i, LockSession(i));
    p3 := Advance(p2, i, {}, AnswersRead(true, TextsOf(p.db.answers, s)), NOTHING);
    assert Step(p2, ReadAnswers(i)) == SubmitStep(p2, i, ReadAnswers(i));
  }

  lemma UndisturbedWrite(p: State, i: TxId, s: SessionId, admin: bool, now: Time, graded: seq<Answer>, score: Points)
    returns (q: State)
    requires IsLive(p.db, s) && GradesTexts(TextsOf(p.db.answers, s), graded)
    requires Alone(p, i, SubmitAt(s, admin, now, AnswersRead(true, TextsOf(p.db.answers, s)), NOTHING))
    ensures Step(p, WriteAnswers(i, graded, score)) == Some(q) && q.db == p.db && q.wins == p.wins
    ensures Alone(q, i, SubmitAt(s, admin, now, AnswersWritten(true, graded, score),
                                 NOTHING.(answers := BatchRows(s, LastWins(graded), now))))
  {
    hide TextsOf, GradesTexts, BatchRows, LastWins;
    q := WriteAnswersStep(p, i, true, graded, score).value;
    assert Step(p, WriteAnswers(i, graded, score)) == SubmitStep(p, i, WriteAnswers(i, graded, score));
  }

  lemma UndisturbedCas(p: State, i: TxId, s: SessionId, admin: bool, now: Time, graded: seq<Answer>, score: Points, w: Tables)
    returns (q: State)
    requires IsLive(p.db, s) && Alone(p, i, SubmitAt(s, admin, now, AnswersWritten(true, graded, score), w))
    ensures Step(p, CompareAndSet(i)) == Some(q) && q.db == p.db && q.wins == p.wins
    ensures Alone(q, i, SubmitAt(s, admin, now, CasWon(true, graded, score),
                                 w.(sessions := map[s := SubmittedRow(p.db.sessions[s], admin, score, now)])))
  {
    q := WinCas(p, i, true, graded, score);
    assert Step(p, CompareAndSet(i)) == SubmitStep(p, i, CompareAndSet(i));
  }

  lemma UndisturbedFinish(p: State, i: TxId, s: SessionId, admin: bool, now: Time, graded: seq<Answer>, score: Points, w: Tables)
    returns (q: State)
    requires IsLive(p.db, s) && Alone(p, i, SubmitAt(s, admin, now, CasWon(true, graded, score), w))
    ensures Step(p, FinishRegistration(i)) == Some(q) && q.db == p.db && q.wins == p.wins && i in q.txs
    ensures var reg := p.db.sessions[s].reg;
            q.txs[i] == SubmitAt(s, admin, now, RegistrationFinished(true, graded, score),
                                 w.(regs := if reg in p.db.regs then map[reg := p.db.regs[reg].(status := Finished)] else map[]))
  {
    q := MarkRegistration(p, i, true, graded, score);
    assert Step(p, FinishRegistration(i)) == SubmitStep(p, i, FinishRegistration(i));
  }

  lemma UndisturbedSubmitCommit(p: State, i: TxId, s: SessionId, admin: bool, now: Time, graded: seq<Answer>, score: Points)
    returns (q: State)
    requires i in p.txs && IsLive(p.db, s)
    requires var reg := p.db.sessions[s].reg;
             p.txs[i] == SubmitAt(s, admin, now, RegistrationFinished(true, graded, score), Tables(
                                  if reg in p.db.regs then map[reg := p.db.regs[reg].(status := Finished)] else map[],
                                  map[s := SubmittedRow(p.db.sessions[s], admin, score, now)],
                                  BatchRows(s, LastWins(graded), now)))
    ensures Step(p, Commit(i)) == Some(q) && q.wins == p.wins + [s]
    ensures q.db == SubmitSession(p.db, s, graded, score, admin, now).1
  {
    q := CommitStep(p, i);
    SubmitMerges(p.db, s, graded, score, admin, now, p.txs[i].writes);
  }

  lemma UndisturbedSubmitRun(p: State, i: TxId, s: SessionId, admin: bool, now: Time, graded: seq<Answer>, score: Points)
    requires i !in p.txs && p.locks == map[] && IsLive(p.db, s) && GradesTexts(TextsOf(p.db.answers, s), graded)
    ensures var labels := [BeginSubmit(i, s, admin, now)] + ([LockSession(i)] + ([ReadAnswers(i)] +
                          ([WriteAnswers(i, graded, score)] + ([CompareAndSet(i)] + ([FinishRegistration(i)] + ([Commit(i)] + []))))));
            && Run(p, labels).Some?
            && Run(p, labels).value.db == SubmitSession(p.db, s, graded, score, admin, now).1
            && Run(p, labels).value.wins == p.wins + [s]
  {
    hide Step, Run, TextsOf, GradesTexts;
    var p1, p2, p3 := UndisturbedRead(p, i, s, admin, now);
    var p4 := UndisturbedWrite(p3, i, s, admin, now, graded, score);
    var p5 := UndisturbedCas(p4, i, s, admin, now, graded, score, p4.txs[i].writes);
    var p6 := UndisturbedFinish(p5, i, s, admin, now, graded, score, p5.txs[i].writes);
    var p7 := UndisturbedSubmitCommit(p6, i, s, admin, now, graded, score);
    var l7: seq<Label> := [Commit(i)] + [];
    var l6 := [FinishRegistration(i)] + l7;
    var l5 := [CompareAndSet(i)] + l6;
    var l4 := [WriteAnswers(i, graded, score)] + l5;
    var l3 := [ReadAnswers(i)] + l4;
    var l2 := [LockSession(i)] + l3;
    RunFirst(p6, Commit(i), []);
    RunFirst(p5, FinishRegistration(i), l7);
    RunFirst(p4, CompareAndSet(i), l6);
    RunFirst(p3, WriteAnswers(i, graded, score), l5);
    RunFirst(p2, ReadAnswers(i), l4);
    RunFirst(p1, LockSession(i), l3);
    RunFirst(p, BeginSubmit(i, s, admin, now), l2);
    RunsEnd(p7);
  }

  /** Nobody in the way: a locked submit of a live session goes through, whatever grading makes of the texts it read. */
  lemma UndisturbedSubmitCompletes(p: State, i: TxId, s: SessionId, admin: bool, now: Time, graded: seq<Answer>, score: Points)
    requires i !in p.txs && p.locks == map[] && s in p.db.sessions && p.db.sessions[s].status == InProgress
    requires forall k :: 0 <= k < |graded| ==>
                           graded[k].text == if (s, graded[k].question) in p.db.answers
                                             then p.db.answers[(s, graded[k].question)].answer.text else None
    ensures var labels := [BeginSubmit(i, s, admin, now)] + ([LockSession(i)] + ([ReadAnswers(i)] +
                          ([WriteAnswers(i, graded, score)] + ([CompareAndSet(i)] + ([FinishRegistration(i)] + ([Commit(i)] + []))))));
            var row := p.db.sessions[s];
            && Run(p, labels).Some?
            && var q := Run(p, labels).value;
               && q.wins == p.wins + [s]
               && SavedBatch(p.db.answers, s, graded, now, q.db.answers)
               && q.db.sessions == p.db.sessions[s := row.(status := Submitted, submittedAt := Some(now), score := Some(score),
                                                           adminSubmitted := admin || row.adminSubmitted)]
               && q.db.regs == if row.reg in p.db.regs then p.db.regs[row.reg := p.db.regs[row.reg].(status := Finished)]
                               else p.db.regs
  {
    UndisturbedSubmitRun(p, i, s, admin, now, graded, score);
    CollapsedIsSaved(p.db.answers, s, graded, now);
  }

  lemma RunsEnd(p: State)
    ensures Run(p, []) == Some(p)
  {
  }
}
