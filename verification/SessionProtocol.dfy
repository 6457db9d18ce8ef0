/**
 The session engine under concurrency, one SQL statement at a time.

 A transaction's writes stay private until it commits, and every row it writes or selects FOR
 UPDATE is locked until then. A statement that needs a row somebody else holds cannot run yet;
 when it does run it judges its guard on the row as committed, which is what READ COMMITTED's
 re-evaluation after a lock wait gives. The main result is that every run is a serial run: each
 commit applies one whole transaction of ExamTransactions to the tables it finds, so what those
 keep holds in every reachable state of every interleaving.
 */
module SessionProtocol {
  import opened Prelude
  import opened ExamTables
  import opened ExamTransactions
  import opened AnswerCollapse

  type TxId = int

  datatype Resource =
    | RegistrationRow(reg: RegistrationId)
    | SessionRow(session: SessionId)
    | AnswerKey(owner: SessionId, question: QuestionId)

  /** The texts that GetSessionAnswersTx returned. */
  type Texts = map<QuestionId, Option<string>>

  /** What a transaction was opened for. */
  datatype Job =
    | CreateJob(reg: RegistrationId, maxAttempts: Option<int>)
    | SubmitJob(session: SessionId, admin: bool)
    | GradeJob(session: SessionId, question: QuestionId, points: Points, comment: Option<string>, grader: UserId)

  /** The last statement a transaction has executed. */
  datatype Progress =
    | Begun
    // CreateExamSessionTx
    | RegistrationLocked | NoLiveSession | AttemptSpent | SessionInserted(id: SessionId)
    // finalizeSession and SubmitSessionTx; `held` records that the caller locked the session first
    | SessionLocked | AnswersRead(held: bool, texts: Texts)
    | AnswersWritten(held: bool, graded: seq<Answer>, score: Points)
    | CasWon(held: bool, graded: seq<Answer>, score: Points) | CasLost
    | RegistrationFinished(held: bool, graded: seq<Answer>, score: Points)
    // GradeEssayAnswerTx and UpdateSessionScoreTx
    | EssayGraded | TotalWritten(total: Points)

  datatype Tx = Tx(job: Job, now: Time, progress: Progress, writes: Tables)

  datatype State = State(
    db: Tables,
    limits: map<ExamId, Option<int>>,
    locks: map<Resource, TxId>,
    txs: map<TxId, Tx>,
    wins: seq<SessionId>)

  datatype Label =
    | BeginCreate(tx: TxId, reg: RegistrationId, maxAttempts: Option<int>, now: Time)
    | LockRegistration(tx: TxId)
    | CountLive(tx: TxId)
    | SpendAttempt(tx: TxId)
    | InsertSession(tx: TxId, id: SessionId)
    | BeginSubmit(tx: TxId, session: SessionId, admin: bool, now: Time)
    | LockSession(tx: TxId)
    | ReadAnswers(tx: TxId)
    | WriteAnswers(tx: TxId, graded: seq<Answer>, score: Points)
    | CompareAndSet(tx: TxId)
    | FinishRegistration(tx: TxId)
    | BeginGrade(tx: TxId, session: SessionId, question: QuestionId, points: Points, comment: Option<string>,
                 grader: UserId, now: Time)
    | GradeAnswer(tx: TxId)
    | WriteTotal(tx: TxId, total: Points)
    | Commit(tx: TxId)
    | Abort(tx: TxId)
    | AutoSave(session: SessionId, answers: seq<Answer>, position: Option<int>, now: Time)
    | AutoCheckIn(reg: RegistrationId, now: Time)
    | AutoReopen(session: SessionId, minutes: int, now: Time)

  const NOTHING: Tables := Tables(map[], map[], map[])

  // ---------- Locks ----------

  predicate Free(p: State, res: Resource, tx: TxId) {
    res !in p.locks || p.locks[res] == tx
  }

  predicate Unlocked(p: State, res: Resource) {
    res !in p.locks
  }

  predicate Holds(p: State, res: Resource, tx: TxId) {
    res in p.locks && p.locks[res] == tx
  }

  function KeysOf(s: SessionId, answers: seq<Answer>): set<Resource> {
    set q | q in Questions(answers) :: AnswerKey(s, q)
  }

  function Acquire(p: State, resources: set<Resource>, tx: TxId): map<Resource, TxId> {
    map res | res in p.locks.Keys + resources :: if res in resources then tx else p.locks[res]
  }

  function Released(p: State, tx: TxId): map<Resource, TxId> {
    map res | res in p.locks && p.locks[res] != tx :: p.locks[res]
  }

  /** The transaction is over: it leaves no lock and no private write behind. */
  function Close(p: State, tx: TxId): State {
    p.(txs := p.txs - {tx}, locks := Released(p, tx))
  }

  /** The transaction has executed a statement: it locked rows and moved on. */
  function Advance(p: State, tx: TxId, resources: set<Resource>, progress: Progress, writes: Tables): State
    requires tx in p.txs
  {
    p.(txs := p.txs[tx := p.txs[tx].(progress := progress, writes := writes)], locks := Acquire(p, resources, tx))
  }

  function Open(p: State, tx: TxId, job: Job, now: Time): Option<State> {
    if tx in p.txs then None else Some(p.(txs := p.txs[tx := Tx(job, now, Begun, NOTHING)]))
  }

  function Merged(db: Tables, w: Tables): Tables {
    Tables(db.regs + w.regs, db.sessions + w.sessions, db.answers + w.answers)
  }

  // ---------- Statements ----------

  /** SELECT of a session's answers, as far as grading looks at it. */
  function TextsOf(t: AnswerTable, s: SessionId): (texts: Texts)
    ensures AreTexts(texts, t, s)
  {
    var questions := set k | k in t && k.0 == s :: k.1;
    map q | q in questions && (s, q) in t :: t[(s, q)].answer.text
  }

  /** `texts` are what the table holds for the session. */
  ghost predicate AreTexts(texts: Texts, t: AnswerTable, s: SessionId) {
    && (forall q :: q in texts <==> (s, q) in t)
    && (forall q :: q in texts && (s, q) in t ==> texts[q] == t[(s, q)].answer.text)
  }

  /** Grading copies the text it was given; a question without an answer gets none. */
  ghost predicate GradesTexts(texts: Texts, graded: seq<Answer>) {
    forall i :: 0 <= i < |graded| ==>
                  graded[i].text == if graded[i].question in texts then texts[graded[i].question] else None
  }

  /** The graded answers have the texts of the table. */
  ghost predicate CarriesTexts(t: AnswerTable, s: SessionId, graded: seq<Answer>) {
    forall i :: 0 <= i < |graded| && (s, graded[i].question) in t ==>
                  graded[i].text == t[(s, graded[i].question)].answer.text
  }

  function CreateStep(p: State, tx: TxId, l: Label): Option<State>
    requires tx in p.txs && p.txs[tx].job.CreateJob?
  {
    var me := p.txs[tx];
    var reg := me.job.reg;
    match (l, me.progress)
    case (LockRegistration(_), Begun) =>
      if !Free(p, RegistrationRow(reg), tx) then None
      else if reg !in p.db.regs then Some(Close(p, tx))
      else Some(Advance(p, tx, {RegistrationRow(reg)}, RegistrationLocked, NOTHING))
    case (CountLive(_), RegistrationLocked) =>
      if LiveSessions(p.db, reg) != {} then Some(Close(p, tx))
      else Some(Advance(p, tx, {}, NoLiveSession, NOTHING))
    case (SpendAttempt(_), NoLiveSession) =>
      if reg !in p.db.regs || !HasAttemptLeft(p.db.regs[reg].attemptsUsed, me.job.maxAttempts) then Some(Close(p, tx))
      else Some(Advance(p, tx, {}, AttemptSpent, NOTHING.(regs := map[reg := BumpedRow(p.db.regs[reg], me.now)])))
    case (InsertSession(_, id), AttemptSpent) =>
      if id in p.db.sessions || !Unlocked(p, SessionRow(id)) || reg !in me.writes.regs then None
      else
        var row := me.writes.regs[reg];
        Some(Advance(p, tx, {SessionRow(id)}, SessionInserted(id), me.writes.(
             sessions := map[id := NewSession(reg, row.student, row.exam, row.attemptsUsed, me.now)])))
    case _ => None
  }

  ghost function SubmitStep(p: State, tx: TxId, l: Label): Option<State>
    requires tx in p.txs && p.txs[tx].job.SubmitJob?
  {
    var me := p.txs[tx];
    var s := me.job.session;
    match (l, me.progress)
    case (LockSession(_), Begun) =>
      if !Free(p, SessionRow(s), tx) then None
      else if !IsLive(p.db, s) then Some(Close(p, tx))
      else Some(Advance(p, tx, {SessionRow(s)}, SessionLocked, NOTHING))
    case (ReadAnswers(_), Begun) => Some(Advance(p, tx, {}, AnswersRead(false, TextsOf(p.db.answers, s)), NOTHING))
    case (ReadAnswers(_), SessionLocked) => Some(Advance(p, tx, {}, AnswersRead(true, TextsOf(p.db.answers, s)), NOTHING))
    case (WriteAnswers(_, graded, score), AnswersRead(held, texts)) =>
      if s !in p.db.sessions || !GradesTexts(texts, graded) || exists res :: res in KeysOf(s, graded) && !Free(p, res, tx) then None
      else WriteAnswersStep(p, tx, held, graded, score)
    case (CompareAndSet(_), AnswersWritten(held, graded, score)) =>
      if !IsLive(p.db, s) then
        // ROLLBACK TO SAVEPOINT undoes the upsert and the row locks it took.
        Some(p.(txs := p.txs[tx := me.(progress := CasLost, writes := NOTHING)], locks := Released(p, tx)))
      else if !Free(p, SessionRow(s), tx) then None
      else Some(WinCas(p, tx, held, graded, score))
    case (FinishRegistration(_), CasWon(held, graded, score)) =>
      if s !in p.db.sessions || !Free(p, RegistrationRow(p.db.sessions[s].reg), tx) then None
      else Some(MarkRegistration(p, tx, held, graded, score))
    case _ => None
  }

  function WinCas(p: State, tx: TxId, held: bool, graded: seq<Answer>, score: Points): State
    requires tx in p.txs && p.txs[tx].job.SubmitJob? && p.txs[tx].job.session in p.db.sessions
  {
    var me := p.txs[tx];
    var s := me.job.session;
    Advance(p, tx, {SessionRow(s)}, CasWon(held, graded, score), me.writes.(
            sessions := map[s := SubmittedRow(p.db.sessions[s], me.job.admin, score, me.now)]))
  }

  function MarkRegistration(p: State, tx: TxId, held: bool, graded: seq<Answer>, score: Points): State
    requires tx in p.txs && p.txs[tx].job.SubmitJob? && p.txs[tx].job.session in p.db.sessions
  {
    var me := p.txs[tx];
    var reg := p.db.sessions[me.job.session].reg;
    Advance(p, tx, {RegistrationRow(reg)}, RegistrationFinished(held, graded, score), me.writes.(
            regs := if reg in p.db.regs then map[reg := p.db.regs[reg].(status := Finished)] else map[]))
  }

  function WriteAnswersStep(p: State, tx: TxId, held: bool, graded: seq<Answer>, score: Points): Option<State>
    requires tx in p.txs && p.txs[tx].job.SubmitJob?
  {
    var s := p.txs[tx].job.session;
    Some(Advance(p, tx, KeysOf(s, graded), AnswersWritten(held, graded, score),
                 NOTHING.(answers := BatchRows(s, LastWins(graded), p.txs[tx].now))))
  }

  function GradeStep(p: State, tx: TxId, l: Label): Option<State>
    requires tx in p.txs && p.txs[tx].job.GradeJob?
  {
    var me := p.txs[tx];
    var GradeJob(s, q, points, comment, grader) := me.job;
    match (l, me.progress)
    case (GradeAnswer(_), Begun) =>
      if !Free(p, AnswerKey(s, q), tx) then None
      else if (s, q) !in p.db.answers then Some(Close(p, tx))
      else Some(Advance(p, tx, {AnswerKey(s, q)}, EssayGraded, NOTHING.(
                answers := map[(s, q) := GradedRow(p.db.answers[(s, q)], points, comment, grader, me.now)])))
    case (WriteTotal(_, total), EssayGraded) =>
      if !Free(p, SessionRow(s), tx) then None
      else Some(ScoreSession(p, tx, total))
    case _ => None
  }

  function ScoreSession(p: State, tx: TxId, total: Points): State
    requires tx in p.txs && p.txs[tx].job.GradeJob?
  {
    var s := p.txs[tx].job.session;
    Advance(p, tx, {SessionRow(s)}, TotalWritten(total), p.txs[tx].writes.(
            sessions := if s in p.db.sessions then map[s := p.db.sessions[s].(score := Some(total))] else map[]))
  }

  predicate MayCommit(tx: Tx) {
    || tx.progress.SessionInserted? || tx.progress.RegistrationFinished? || tx.progress.CasLost? || tx.progress.TotalWritten?
  }

  function CommitStep(p: State, tx: TxId): State
    requires tx in p.txs
  {
    var me := p.txs[tx];
    Close(p, tx).(
      db := Merged(p.db, me.writes),
      wins := if me.job.SubmitJob? && me.progress.RegistrationFinished? then p.wins + [me.job.session] else p.wins)
  }

  /** One statement of one transaction, or nothing if the statement has to wait or is not next. */
  ghost function Step(p: State, l: Label): Option<State> {
    match l
    case BeginCreate(tx, reg, maxAttempts, now) =>
      if reg in p.db.regs && !(p.db.regs[reg].exam in p.limits && maxAttempts == p.limits[p.db.regs[reg].exam]) then None
      else Open(p, tx, CreateJob(reg, maxAttempts), now)
    case BeginSubmit(tx, s, admin, now) => Open(p, tx, SubmitJob(s, admin), now)
    case BeginGrade(tx, s, q, points, comment, grader, now) => Open(p, tx, GradeJob(s, q, points, comment, grader), now)
    case Commit(tx) => if tx in p.txs && MayCommit(p.txs[tx]) then Some(CommitStep(p, tx)) else None
    case Abort(tx) => if tx in p.txs then Some(Close(p, tx)) else None
    case AutoSave(s, answers, position, now) =>
      if IsLive(p.db, s) && (!Unlocked(p, SessionRow(s)) || exists res :: res in KeysOf(s, answers) && !Unlocked(p, res)) then None
      else Some(p.(db := SaveAnswers(p.db, s, answers, position, now)))
    case AutoCheckIn(reg, now) =>
      if !Unlocked(p, RegistrationRow(reg)) then None else Some(p.(db := Apply(p.db, CheckIn(reg, now))))
    case AutoReopen(s, minutes, now) =>
      if !Unlocked(p, SessionRow(s)) then None else Some(p.(db := Apply(p.db, Reopen(s, minutes, now))))
    case _ =>
      if l.tx !in p.txs then None
      else if p.txs[l.tx].job.CreateJob? then CreateStep(p, l.tx, l)
      else if p.txs[l.tx].job.SubmitJob? then SubmitStep(p, l.tx, l)
      else GradeStep(p, l.tx, l)
  }

  /** The state after a run of statements, if every one of them could execute when it was tried. */
  ghost function Run(p: State, labels: seq<Label>): Option<State>
    decreases |labels|
  {
    if labels == [] then Some(p)
    else
      var q := Step(p, labels[0]);
      if q.None? then None else Run(q.value, labels[1..])
  }

  // ---------- The invariant ----------

  /** Every private write is on a row its transaction has locked. */
  ghost predicate WritesLocked(p: State, i: TxId, w: Tables) {
    && (forall r :: r in w.regs ==> Holds(p, RegistrationRow(r), i))
    && (forall s :: s in w.sessions ==> Holds(p, SessionRow(s), i))
    && (forall k :: k in w.answers ==> Holds(p, AnswerKey(k.0, k.1), i))
  }

  ghost predicate CreateOk(p: State, i: TxId, tx: Tx)
    requires tx.job.CreateJob?
  {
    var reg := tx.job.reg;
    match tx.progress
    case Begun => tx.writes == NOTHING
    case RegistrationLocked =>
      tx.writes == NOTHING && reg in p.db.regs && Holds(p, RegistrationRow(reg), i)
    case NoLiveSession =>
      tx.writes == NOTHING && reg in p.db.regs && Holds(p, RegistrationRow(reg), i) && LiveSessions(p.db, reg) == {}
    case AttemptSpent =>
      && reg in p.db.regs && Holds(p, RegistrationRow(reg), i) && LiveSessions(p.db, reg) == {}
      && HasAttemptLeft(p.db.regs[reg].attemptsUsed, tx.job.maxAttempts)
      && tx.writes == Tables(map[reg := BumpedRow(p.db.regs[reg], tx.now)], map[], map[])
    case SessionInserted(id) =>
      && reg in p.db.regs && Holds(p, RegistrationRow(reg), i) && LiveSessions(p.db, reg) == {}
      && HasAttemptLeft(p.db.regs[reg].attemptsUsed, tx.job.maxAttempts)
      && id !in p.db.sessions && Holds(p, SessionRow(id), i)
      && var row := p.db.regs[reg];
         tx.writes == Tables(map[reg := BumpedRow(row, tx.now)],
                             map[id := NewSession(reg, row.student, row.exam, row.attemptsUsed + 1, tx.now)], map[])
    case _ => false
  }

  /** The state of a submit that has written its answers. */
  ghost predicate AnswersOk(p: State, i: TxId, tx: Tx, held: bool, graded: seq<Answer>)
    requires tx.job.SubmitJob?
  {
    var s := tx.job.session;
    && s in p.db.sessions
    && tx.writes.answers == BatchRows(s, LastWins(graded), tx.now)
    && (forall k :: k in tx.writes.answers ==> Holds(p, AnswerKey(k.0, k.1), i))
    && (held ==> Holds(p, SessionRow(s), i) && IsLive(p.db, s) && CarriesTexts(p.db.answers, s, graded))
  }

  ghost predicate SubmitOk(p: State, i: TxId, tx: Tx)
    requires tx.job.SubmitJob?
  {
    var s := tx.job.session;
    match tx.progress
    case Begun => tx.writes == NOTHING
    case SessionLocked => tx.writes == NOTHING && Holds(p, SessionRow(s), i) && IsLive(p.db, s)
    case AnswersRead(held, texts) =>
      tx.writes == NOTHING && (held ==> Holds(p, SessionRow(s), i) && IsLive(p.db, s) && AreTexts(texts, p.db.answers, s))
    case AnswersWritten(held, graded, score) =>
      AnswersOk(p, i, tx, held, graded) && tx.writes.regs == map[] && tx.writes.sessions == map[]
    case CasWon(held, graded, score) =>
      && AnswersOk(p, i, tx, held, graded) && tx.writes.regs == map[]
      && Holds(p, SessionRow(s), i) && IsLive(p.db, s)
      && tx.writes.sessions == map[s := SubmittedRow(p.db.sessions[s], tx.job.admin, score, tx.now)]
    case RegistrationFinished(held, graded, score) =>
      && AnswersOk(p, i, tx, held, graded)
      && Holds(p, SessionRow(s), i) && IsLive(p.db, s)
      && tx.writes.sessions == map[s := SubmittedRow(p.db.sessions[s], tx.job.admin, score, tx.now)]
      && var reg := p.db.sessions[s].reg;
         && Holds(p, RegistrationRow(reg), i)
         && tx.writes.regs == if reg in p.db.regs then map[reg := p.db.regs[reg].(status := Finished)] else map[]
    case CasLost => tx.writes == NOTHING
    case _ => false
  }

  ghost predicate GradeOk(p: State, i: TxId, tx: Tx)
    requires tx.job.GradeJob?
  {
    var GradeJob(s, q, points, comment, grader) := tx.job;
    match tx.progress
    case Begun => tx.writes == NOTHING
    case EssayGraded =>
      && Holds(p, AnswerKey(s, q), i) && (s, q) in p.db.answers
      && tx.writes == NOTHING.(answers := map[(s, q) := GradedRow(p.db.answers[(s, q)], points, comment, grader, tx.now)])
    case TotalWritten(total) =>
      && Holds(p, AnswerKey(s, q), i) && (s, q) in p.db.answers && Holds(p, SessionRow(s), i)
      && tx.writes == Tables(map[],
                             if s in p.db.sessions then map[s := p.db.sessions[s].(score := Some(total))] else map[],
                             map[(s, q) := GradedRow(p.db.answers[(s, q)], points, comment, grader, tx.now)])
    case _ => false
  }

  ghost predicate TxOk(p: State, i: TxId, tx: Tx) {
    && WritesLocked(p, i, tx.writes)
    && match tx.job {
         case CreateJob(_, _) => CreateOk(p, i, tx)
         case SubmitJob(_, _) => SubmitOk(p, i, tx)
         case GradeJob(_, _, _, _, _) => GradeOk(p, i, tx)
       }
  }

  /** Callers of CreateExamSessionTx pass the exam's own limit. */
  ghost predicate LimitOk(p: State, tx: Tx) {
    tx.job.CreateJob? && tx.job.reg in p.db.regs ==>
      p.db.regs[tx.job.reg].exam in p.limits && tx.job.maxAttempts == p.limits[p.db.regs[tx.job.reg].exam]
  }

  ghost predicate ProtocolOk(p: State) {
    && (forall res :: res in p.locks ==> p.locks[res] in p.txs)
    && (forall i :: i in p.txs ==> TxOk(p, i, p.txs[i]) && LimitOk(p, p.txs[i]))
  }

  // ---------- Locked rows do not change under their holder ----------

  ghost predicate RowKept(p: State, q: State, res: Resource) {
    match res
    case RegistrationRow(r) =>
      (r in p.db.regs <==> r in q.db.regs) && (r in p.db.regs ==> q.db.regs[r] == p.db.regs[r])
    case SessionRow(s) =>
      (s in p.db.sessions <==> s in q.db.sessions) && (s in p.db.sessions ==> q.db.sessions[s] == p.db.sessions[s])
    case AnswerKey(s, k) =>
      ((s, k) in p.db.answers <==> (s, k) in q.db.answers) && ((s, k) in p.db.answers ==> q.db.answers[(s, k)] == p.db.answers[(s, k)])
  }

  /** What transaction `i` may rely on while others run. */
  ghost predicate Undisturbed(p: State, q: State, i: TxId) {
    && (forall res :: Holds(p, res, i) ==> Holds(q, res, i) && RowKept(p, q, res))
    && (forall r :: Holds(p, RegistrationRow(r), i) ==> LiveSessions(q.db, r) <= LiveSessions(p.db, r))
    && p.db.sessions.Keys <= q.db.sessions.Keys
  }

  /** A locked session's answers keep their texts: whoever writes answers of a session locks its row before committing. */
  ghost predicate TextsKept(p: State, q: State, i: TxId) {
    forall s, texts :: Holds(p, SessionRow(s), i) && AreTexts(texts, p.db.answers, s) ==> AreTexts(texts, q.db.answers, s)
  }

  lemma UndisturbedAnswers(p: State, q: State, i: TxId, tx: Tx, held: bool, graded: seq<Answer>)
    requires tx.job.SubmitJob? && AnswersOk(p, i, tx, held, graded) && Undisturbed(p, q, i)
    ensures AnswersOk(q, i, tx, held, graded)
  {
    var s := tx.job.session;
    LastWinsSameQuestions(graded);
    if held {
      assert RowKept(p, q, SessionRow(s));
      forall j | 0 <= j < |graded| && (s, graded[j].question) in q.db.answers
        ensures graded[j].text == q.db.answers[(s, graded[j].question)].answer.text
      {
        assert graded[j] in graded && graded[j].question in Questions(LastWins(graded));
        assert (s, graded[j].question) in tx.writes.answers;
        assert RowKept(p, q, AnswerKey(s, graded[j].question));
      }
    }
  }

  lemma UndisturbedSubmit(p: State, q: State, i: TxId, tx: Tx)
    requires tx.job.SubmitJob? && SubmitOk(p, i, tx) && Undisturbed(p, q, i) && TextsKept(p, q, i)
    ensures SubmitOk(q, i, tx)
  {
    var s := tx.job.session;
    if tx.progress.AnswersWritten? || tx.progress.CasWon? || tx.progress.RegistrationFinished? {
      UndisturbedAnswers(p, q, i, tx, tx.progress.held, tx.progress.graded);
    }
    assert Holds(p, SessionRow(s), i) ==> RowKept(p, q, SessionRow(s));
    if tx.progress.RegistrationFinished? {
      assert RowKept(p, q, RegistrationRow(p.db.sessions[s].reg));
    }
  }

  lemma UndisturbedTx(p: State, q: State, i: TxId, tx: Tx)
    requires TxOk(p, i, tx) && Undisturbed(p, q, i) && TextsKept(p, q, i)
    ensures TxOk(q, i, tx)
  {
    match tx.job
    case CreateJob(reg, _) =>
      if Holds(p, RegistrationRow(reg), i) {
        assert RowKept(p, q, RegistrationRow(reg));
      }
      if tx.progress.SessionInserted? {
        assert RowKept(p, q, SessionRow(tx.progress.id));
      }
    case SubmitJob(_, _) =>
      UndisturbedSubmit(p, q, i, tx);
    case GradeJob(s, k, _, _, _) =>
      if Holds(p, AnswerKey(s, k), i) {
        assert RowKept(p, q, AnswerKey(s, k));
      }
      if Holds(p, SessionRow(s), i) {
        assert RowKept(p, q, SessionRow(s));
      }
  }
}
