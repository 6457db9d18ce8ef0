/**
 That the engine's transactions get on: nobody is turned away without the reason the code has for
 it, and a transaction waits only for another that works on the same rows.
 */
module SessionProgress {
  import opened Prelude
  import opened ExamTables
  import opened ExamTransactions
  import opened SessionProtocol
  import opened SessionRuns
  import opened AnswerCollapse

  /** A statement, or the commit, of this transaction. */
  predicate IsWorkOf(l: Label, i: TxId) {
    match l
    case BeginCreate(_, _, _, _) => false
    case BeginSubmit(_, _, _, _) => false
    case BeginGrade(_, _, _, _, _, _, _) => false
    case Abort(_) => false
    case AutoSave(_, _, _, _) => false
    case AutoCheckIn(_, _) => false
    case AutoReopen(_, _, _) => false
    case _ => l.tx == i
  }

  // ---------- Nobody is turned away without reason ----------

  /** Why a transaction may end without a commit: what the code answers with an error, or with no row changed. */
  ghost predicate HasToFail(t: Tables, job: Job) {
    match job
    case CreateJob(reg, maxAttempts) =>
      || reg !in t.regs
      || (exists s :: s in t.sessions && t.sessions[s].reg == reg && t.sessions[s].status == InProgress)
      || (maxAttempts.Some? && t.regs[reg].attemptsUsed >= if maxAttempts.value == 0 then 1 else maxAttempts.value)
    case SubmitJob(s, _) => s !in t.sessions || t.sessions[s].status == Submitted
    case GradeJob(s, q, _, _, _) => (s, q) !in t.answers
  }

  /** A statement ends its transaction, or finds the race lost, only if the tables as they are leave it no choice. */
  lemma TurnedAwayForAReason(p: State, i: TxId, l: Label)
    requires ProtocolOk(p) && i in p.txs && IsWorkOf(l, i) && !l.Commit? && Step(p, l).Some?
    ensures var q := Step(p, l).value;
            i !in q.txs || q.txs[i].progress.CasLost? ==> HasToFail(p.db, p.txs[i].job)
  {
    assert TxOk(p, i, p.txs[i]);
    match p.txs[i].job
    case CreateJob(reg, maxAttempts) =>
      if l.CountLive? && LiveSessions(p.db, reg) != {} {
        var s := Member(LiveSessions(p.db, reg));
      }
    case SubmitJob(_, _) =>
    case GradeJob(_, _, _, _, _) =>
  }

  // ---------- Locks are taken on the job's own rows ----------

  predicate Touches(t: Tables, tx: Tx, res: Resource) {
    match tx.job
    case CreateJob(reg, _) =>
      res == RegistrationRow(reg) || (tx.progress.SessionInserted? && res == SessionRow(tx.progress.id))
    case SubmitJob(s, _) =>
      || res == SessionRow(s) || (res.AnswerKey? && res.owner == s)
      || (s in t.sessions && res == RegistrationRow(t.sessions[s].reg))
    case GradeJob(s, q, _, _, _) => res == AnswerKey(s, q) || res == SessionRow(s)
  }

  ghost predicate LocksAreOwn(p: State) {
    forall res :: res in p.locks ==> p.locks[res] in p.txs && Touches(p.db, p.txs[p.locks[res]], res)
  }

  ghost predicate RegsKept(t: Tables, t': Tables) {
    forall s :: s in t.sessions ==> s in t'.sessions && t'.sessions[s].reg == t.sessions[s].reg
  }

  lemma TransactionsKeepRegs(t: Tables, op: Transaction)
    requires op.Create? ==> op.id !in t.sessions
    ensures RegsKept(t, Apply(t, op))
  {
  }

  lemma StepKeepsRegs(p: State, l: Label)
    requires ProtocolOk(p) && Step(p, l).Some?
    ensures RegsKept(p.db, Step(p, l).value.db)
  {
    StepIsOneTransaction(p, l);
    if Effect(p, l).Some? {
      TransactionsKeepRegs(p.db, Effect(p, l).value);
    }
  }

  /** Whoever held a lock goes on or gives all its locks up, and what a statement locks is its own. */
  ghost predicate LocksOnlyOwn(p: State, q: State, i: TxId) {
    && q.db == p.db
    && (forall j :: j in p.txs && j != i ==> j in q.txs && q.txs[j] == p.txs[j])
    && (forall res :: res in q.locks && q.locks[res] != i ==> res in p.locks && p.locks[res] == q.locks[res])
    && (forall res :: res in q.locks && q.locks[res] == i ==> i in q.txs && Touches(p.db, q.txs[i], res))
  }

  lemma OwnLocksOnly(p: State, q: State, i: TxId)
    requires LocksAreOwn(p) && LocksOnlyOwn(p, q, i)
    ensures LocksAreOwn(q)
  {
  }

  lemma AdvanceLocksOwn(p: State, i: TxId, resources: set<Resource>, progress: Progress, writes: Tables)
    requires LocksAreOwn(p) && i in p.txs && !p.txs[i].progress.SessionInserted?
    requires var tx := p.txs[i].(progress := progress); forall res :: res in resources ==> Touches(p.db, tx, res)
    ensures LocksOnlyOwn(p, Advance(p, i, resources, progress, writes), i)
  {
  }

  lemma CreateStepLocksOwn(p: State, i: TxId, l: Label)
    requires LocksAreOwn(p) && i in p.txs && p.txs[i].job.CreateJob? && CreateStep(p, i, l).Some?
    ensures LocksOnlyOwn(p, CreateStep(p, i, l).value, i)
  {
    hide LiveSessions, HasAttemptLeft, BumpedRow, NewSession, Acquire;
    var q := CreateStep(p, i, l).value;
    if i in q.txs {
      var progress, writes := q.txs[i].progress, q.txs[i].writes;
      var locked := if l.LockRegistration? then {RegistrationRow(p.txs[i].job.reg)}
                    else if l.InsertSession? then {SessionRow(l.id)} else {};
      AdvanceLocksOwn(p, i, locked, progress, writes);
    }
  }

  lemma KeysAreOwn(s: SessionId, answers: seq<Answer>)
    ensures forall res :: res in KeysOf(s, answers) ==> res.AnswerKey? && res.owner == s
  {
  }

  lemma SubmitStepLocksOwn(p: State, i: TxId, l: Label)
    requires LocksAreOwn(p) && i in p.txs && p.txs[i].job.SubmitJob? && SubmitStep(p, i, l).Some?
    ensures LocksOnlyOwn(p, SubmitStep(p, i, l).value, i)
  {
    hide TextsOf, KeysOf, GradesTexts, BatchRows, LastWins, SubmittedRow, Acquire;
    var q := SubmitStep(p, i, l).value;
    var s := p.txs[i].job.session;
    if i in q.txs && !q.txs[i].progress.CasLost? {
      var progress, writes := q.txs[i].progress, q.txs[i].writes;
      match l
      case LockSession(_) => AdvanceLocksOwn(p, i, {SessionRow(s)}, progress, writes);
      case ReadAnswers(_) => AdvanceLocksOwn(p, i, {}, progress, writes);
      case WriteAnswers(_, graded, _) =>
        KeysAreOwn(s, graded);
        AdvanceLocksOwn(p, i, KeysOf(s, graded), progress, writes);
      case CompareAndSet(_) => AdvanceLocksOwn(p, i, {SessionRow(s)}, progress, writes);
      case FinishRegistration(_) => AdvanceLocksOwn(p, i, {RegistrationRow(p.db.sessions[s].reg)}, progress, writes);
    }
  }

  lemma GradeStepLocksOwn(p: State, i: TxId, l: Label)
    requires LocksAreOwn(p) && i in p.txs && p.txs[i].job.GradeJob? && GradeStep(p, i, l).Some?
    ensures LocksOnlyOwn(p, GradeStep(p, i, l).value, i)
  {
    hide GradedRow;
  }

  lemma StatementKeepsOwn(p: State, i: TxId, l: Label)
    requires ProtocolOk(p) && LocksAreOwn(p) && i in p.txs && IsWorkOf(l, i) && !l.Commit? && Step(p, l).Some?
    ensures LocksAreOwn(Step(p, l).value)
  {
    hide CreateStep, SubmitStep, GradeStep, LocksAreOwn, LocksOnlyOwn, ProtocolOk;
    match p.txs[i].job {
      case CreateJob(_, _) => CreateStepLocksOwn(p, i, l);
      case SubmitJob(_, _) => SubmitStepLocksOwn(p, i, l);
      case GradeJob(_, _, _, _, _) => GradeStepLocksOwn(p, i, l);
    }
    OwnLocksOnly(p, Step(p, l).value, i);
  }

  lemma StepKeepsOwnLocks(p: State, l: Label)
    requires ProtocolOk(p) && LocksAreOwn(p) && Step(p, l).Some?
    ensures LocksAreOwn(Step(p, l).value)
  {
    hide CreateStep, SubmitStep, GradeStep, Acquire, Merged, SaveAnswers, Apply;
    StepKeepsRegs(p, l);
    match l
    case BeginCreate(_, _, _, _) =>
    case BeginSubmit(_, _, _, _) =>
    case BeginGrade(_, _, _, _, _, _, _) =>
    case Abort(_) =>
    case AutoSave(_, _, _, _) =>
    case AutoCheckIn(_, _) =>
    case AutoReopen(_, _, _) =>
    case Commit(_) =>
    case _ => StatementKeepsOwn(p, l.tx, l);
  }

  /** In every run each lock is on a row that its holder's job is about. */
  lemma {:induction false} EveryRunLocksOwnRows(p: State, labels: seq<Label>)
    requires ProtocolOk(p) && LocksAreOwn(p) && Run(p, labels).Some?
    ensures LocksAreOwn(Run(p, labels).value)
    decreases |labels|
  {
    if labels != [] {
      StepKeepsProtocol(p, labels[0]);
      StepKeepsOwnLocks(p, labels[0]);
      EveryRunLocksOwnRows(Step(p, labels[0]).value, labels[1..]);
    }
  }

  // ---------- Who is not done can move, or waits for somebody ----------

  /** Somebody else has locked a row that this transaction's job is about. */
  ghost predicate Waits(p: State, i: TxId)
    requires i in p.txs
  {
    exists res :: res in p.locks && p.locks[res] != i && Touches(p.db, p.txs[i], res)
  }

  /** What the code outside the transaction decides: the new id, whether a submit locks first, the grades and the scores. */
  datatype Choices = Choices(id: SessionId, locking: bool, graded: seq<Answer>, score: Points)

  function NextOf(i: TxId, tx: Tx, c: Choices): Label {
    match (tx.job, tx.progress)
    case (CreateJob(_, _), Begun) => LockRegistration(i)
    case (CreateJob(_, _), RegistrationLocked) => CountLive(i)
    case (CreateJob(_, _), NoLiveSession) => SpendAttempt(i)
    case (CreateJob(_, _), AttemptSpent) => InsertSession(i, c.id)
    case (SubmitJob(_, _), Begun) => if c.locking then LockSession(i) else ReadAnswers(i)
    case (SubmitJob(_, _), SessionLocked) => ReadAnswers(i)
    case (SubmitJob(_, _), AnswersRead(_, _)) => WriteAnswers(i, c.graded, c.score)
    case (SubmitJob(_, _), AnswersWritten(_, _, _)) => CompareAndSet(i)
    case (SubmitJob(_, _), CasWon(_, _, _)) => FinishRegistration(i)
    case (GradeJob(_, _, _, _, _), Begun) => GradeAnswer(i)
    case (GradeJob(_, _, _, _, _), EssayGraded) => WriteTotal(i, c.score)
    case _ => Commit(i)
  }

  ghost predicate CanBeNext(p: State, i: TxId, c: Choices)
    requires i in p.txs
  {
    var tx := p.txs[i];
    && c.id !in p.db.sessions && SessionRow(c.id) !in p.locks
    && (tx.job.SubmitJob? ==> tx.job.session in p.db.sessions)
    && (tx.job.SubmitJob? && tx.progress.AnswersRead? ==> GradesTexts(tx.progress.texts, c.graded))
  }

  /** In every state of the protocol each transaction can execute its next statement, unless it waits for somebody. */
  lemma NextMovesOrWaits(p: State, i: TxId, c: Choices)
    requires ProtocolOk(p) && i in p.txs && CanBeNext(p, i, c)
    ensures IsWorkOf(NextOf(i, p.txs[i], c), i)
    ensures Step(p, NextOf(i, p.txs[i], c)).Some? || Waits(p, i)
  {
    var tx := p.txs[i];
    assert TxOk(p, i, tx);
    match tx.job
    case CreateJob(_, _) => CreateMovesOrWaits(p, i, c);
    case SubmitJob(_, _) => SubmitMovesOrWaits(p, i, c);
    case GradeJob(_, _, _, _, _) => GradeMovesOrWaits(p, i, c);
  }

  lemma CreateMovesOrWaits(p: State, i: TxId, c: Choices)
    requires ProtocolOk(p) && i in p.txs && CanBeNext(p, i, c) && p.txs[i].job.CreateJob?
    ensures Step(p, NextOf(i, p.txs[i], c)).Some? || Waits(p, i)
  {
    assert TxOk(p, i, p.txs[i]);
    assert !Free(p, RegistrationRow(p.txs[i].job.reg), i) ==> Waits(p, i);
  }

  lemma SubmitMovesOrWaits(p: State, i: TxId, c: Choices)
    requires ProtocolOk(p) && i in p.txs && CanBeNext(p, i, c) && p.txs[i].job.SubmitJob?
    ensures Step(p, NextOf(i, p.txs[i], c)).Some? || Waits(p, i)
  {
    hide GradesTexts, TextsOf, BatchRows, LastWins, KeysOf, SubmittedRow;
    var s := p.txs[i].job.session;
    assert TxOk(p, i, p.txs[i]);
    assert !Free(p, SessionRow(s), i) ==> Waits(p, i);
    assert !Free(p, RegistrationRow(p.db.sessions[s].reg), i) ==> Waits(p, i);
    KeysAreOwn(s, c.graded);
    if res :| res in KeysOf(s, c.graded) && !Free(p, res, i) {
      assert Waits(p, i);
    }
  }

  lemma GradeMovesOrWaits(p: State, i: TxId, c: Choices)
    requires ProtocolOk(p) && i in p.txs && p.txs[i].job.GradeJob?
    ensures Step(p, NextOf(i, p.txs[i], c)).Some? || Waits(p, i)
  {
    assert TxOk(p, i, p.txs[i]);
    var GradeJob(s, q, _, _, _) := p.txs[i].job;
    assert !Free(p, AnswerKey(s, q), i) ==> Waits(p, i);
    assert !Free(p, SessionRow(s), i) ==> Waits(p, i);
  }

  /** No statement is executed out of its turn. */
  lemma StatementsInOrder(p: State, i: TxId, l: Label) returns (c: Choices)
    requires i in p.txs && IsWorkOf(l, i) && Step(p, l).Some?
    ensures l == NextOf(i, p.txs[i], c)
  {
    hide TextsOf, GradesTexts, KeysOf, LiveSessions, HasAttemptLeft, Acquire, Merged;
    c := Choices(if l.InsertSession? then l.id else 0, l.LockSession?, if l.WriteAnswers? then l.graded else [],
                 if l.WriteAnswers? then l.score else if l.WriteTotal? then l.total else 0);
  }

  /** A rollback leaves the tables as they are and no lock behind. */
  lemma AbortLeavesNothing(p: State, i: TxId)
    requires i in p.txs
    ensures Step(p, Abort(i)).Some?
    ensures var q := Step(p, Abort(i)).value;
            && q.db == p.db && q.wins == p.wins && q.txs == p.txs - {i}
            && forall res :: res in q.locks <==> res in p.locks && p.locks[res] != i
  {
  }

  /** So whoever cannot move waits for another transaction that works on the same rows. */
  lemma OnlyForTheSameRows(p: State, labels: seq<Label>, i: TxId, c: Choices)
    requires ProtocolOk(p) && LocksAreOwn(p) && Run(p, labels).Some?
    requires var q := Run(p, labels).value; i in q.txs && CanBeNext(q, i, c) && Step(q, NextOf(i, q.txs[i], c)).None?
    ensures var q := Run(p, labels).value;
            exists j, res :: j in q.txs && j != i && Holds(q, res, j) && Touches(q.db, q.txs[i], res) && Touches(q.db, q.txs[j], res)
  {
    RunsAreSerial(p, labels);
    EveryRunLocksOwnRows(p, labels);
    var q := Run(p, labels).value;
    NextMovesOrWaits(q, i, c);
    var res :| res in q.locks && q.locks[res] != i && Touches(q.db, q.txs[i], res);
    assert Holds(q, res, q.locks[res]);
  }

  // ---------- Statements of their own ----------

  /** A save goes through, and at once, unless somebody has locked the session or one of its answers. */
  lemma SaveGoesThrough(p: State, s: SessionId, batch: seq<Answer>, position: Option<int>, now: Time)
    requires forall res :: res in p.locks ==> res != SessionRow(s) && !(res.AnswerKey? && res.owner == s)
    ensures Step(p, AutoSave(s, batch, position, now)) == Some(p.(db := Apply(p.db, Save(s, batch, position, now))))
  {
    KeysAreOwn(s, batch);
  }

  /** So do a check-in and an extension, unless their one row is locked. */
  lemma CheckInGoesThrough(p: State, reg: RegistrationId, now: Time)
    requires RegistrationRow(reg) !in p.locks
    ensures Step(p, AutoCheckIn(reg, now)) == Some(p.(db := Apply(p.db, CheckIn(reg, now))))
  {
  }

  lemma ReopenGoesThrough(p: State, s: SessionId, minutes: int, now: Time)
    requires SessionRow(s) !in p.locks
    ensures Step(p, AutoReopen(s, minutes, now)) == Some(p.(db := Apply(p.db, Reopen(s, minutes, now))))
  {
  }
}
