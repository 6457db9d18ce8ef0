/**
 The result views: leaderboard, rank counts, results workspace and export. Each picks the latest
 scored attempt of every registration and ranks by score, with its own SQL. They agree because of
 what the session engine keeps in every reachable state.
 */
module ResultViews {
  import opened Prelude
  import opened ExamTables
  import opened ExamTransactions
  import opened Ranking
  import SessionProtocol
  import SessionRuns

  // ---------- Which rows qualify, and which of a registration's rows is picked ----------

  /** No essay answer of the session is without a grade. */
  predicate FullyGraded(t: Tables, essays: set<QuestionId>, s: SessionId) {
    forall k :: k in t.answers && k.0 == s && k.1 in essays ==> t.answers[k].answer.gradedAt.Some?
  }

  /** The WHERE clause of the leaderboard and of the counts. */
  function Graded(t: Tables, essays: set<QuestionId>, exam: ExamId): set<SessionId> {
    set s | s in t.sessions && t.sessions[s].exam == exam && t.sessions[s].status == Submitted && FullyGraded(t, essays, s)
  }

  /** The WHERE clause of the workspace and of the export. */
  function Scored(t: Tables, essays: set<QuestionId>, exam: ExamId): set<SessionId> {
    set s | s in Graded(t, essays, exam) && t.sessions[s].score.Some?
  }

  predicate SameReg(t: Tables, s: SessionId, u: SessionId) {
    s in t.sessions && u in t.sessions && t.sessions[s].reg == t.sessions[u].reg
  }

  /** ORDER BY attempt_number DESC */
  predicate NewerAttempt(t: Tables, s: SessionId, u: SessionId) {
    s in t.sessions && u in t.sessions && t.sessions[s].attempt > t.sessions[u].attempt
  }

  /** ORDER BY attempt_number DESC, started_at DESC, id DESC */
  predicate NewerRow(t: Tables, s: SessionId, u: SessionId) {
    && s in t.sessions && u in t.sessions
    && (|| t.sessions[s].attempt > t.sessions[u].attempt
        || (t.sessions[s].attempt == t.sessions[u].attempt
            && (|| t.sessions[s].startedAt > t.sessions[u].startedAt
                || (t.sessions[s].startedAt == t.sessions[u].startedAt && s > u))))
  }

  /** SELECT DISTINCT ON (registration_id): one row for each registration, and no row of it comes first. */
  ghost predicate DistinctOn(t: Tables, rows: set<SessionId>, newer: (Tables, SessionId, SessionId) -> bool, picked: set<SessionId>) {
    && picked <= rows
    && (forall s :: s in rows ==> exists p :: p in picked && SameReg(t, s, p))
    && (forall p, q :: p in picked && q in picked && SameReg(t, p, q) ==> p == q)
    && (forall p, s :: p in picked && s in rows && SameReg(t, s, p) ==> !newer(t, s, p))
  }

  /** The registration's scored attempts have no later one. */
  predicate IsLatest(t: Tables, rows: set<SessionId>, s: SessionId) {
    s in rows && forall u :: u in rows && SameReg(t, s, u) ==> t.sessions[u].attempt <= t.sessions[s].attempt
  }

  function Latest(t: Tables, rows: set<SessionId>): set<SessionId> {
    set s | s in rows && IsLatest(t, rows, s)
  }

  function Above(t: Tables, rows: set<SessionId>, attempt: nat): set<SessionId> {
    set u | u in rows && u in t.sessions && t.sessions[u].attempt > attempt
  }

  lemma {:induction false} LatestExists(t: Tables, rows: set<SessionId>, s: SessionId) returns (p: SessionId)
    requires s in rows && rows <= t.sessions.Keys
    ensures p in Latest(t, rows) && SameReg(t, s, p)
    decreases Above(t, rows, t.sessions[s].attempt)
  {
    if u :| u in rows && SameReg(t, s, u) && t.sessions[u].attempt > t.sessions[s].attempt {
      assert u in Above(t, rows, t.sessions[s].attempt) && u !in Above(t, rows, t.sessions[u].attempt);
      p := LatestExists(t, rows, u);
    } else {
      p := s;
    }
  }

  /** Among the rows of one registration, `newer` is decided by the attempt number. */
  ghost predicate DecidedByAttempt(t: Tables, rows: set<SessionId>, newer: (Tables, SessionId, SessionId) -> bool) {
    && rows <= t.sessions.Keys
    && (forall s, u :: s in rows && u in rows && SameReg(t, s, u) ==> (newer(t, s, u) <==> NewerAttempt(t, s, u)))
    && (forall s, u :: s in rows && u in rows && SameReg(t, s, u) && s != u ==> NewerAttempt(t, s, u) || NewerAttempt(t, u, s))
  }

  lemma LatestIsAPick(t: Tables, rows: set<SessionId>, newer: (Tables, SessionId, SessionId) -> bool)
    requires DecidedByAttempt(t, rows, newer)
    ensures DistinctOn(t, rows, newer, Latest(t, rows))
  {
    forall s | s in rows ensures exists p :: p in Latest(t, rows) && SameReg(t, s, p) {
      var p := LatestExists(t, rows, s);
    }
    forall p, q | p in Latest(t, rows) && q in Latest(t, rows) && SameReg(t, p, q) ensures p == q {
      assert IsLatest(t, rows, p) && IsLatest(t, rows, q);
    }
  }

  lemma APickIsLatest(t: Tables, rows: set<SessionId>, newer: (Tables, SessionId, SessionId) -> bool, picked: set<SessionId>)
    requires DecidedByAttempt(t, rows, newer) && DistinctOn(t, rows, newer, picked)
    ensures picked == Latest(t, rows)
  {
    forall s | s in picked ensures s in Latest(t, rows) {
      forall u | u in rows && SameReg(t, s, u) ensures t.sessions[u].attempt <= t.sessions[s].attempt {
        assert SameReg(t, u, s) && !newer(t, u, s);
      }
    }
    forall s | s in Latest(t, rows) ensures s in picked {
      var p :| p in picked && SameReg(t, s, p);
      assert !newer(t, s, p) && IsLatest(t, rows, s);
      assert s != p ==> NewerAttempt(t, s, p) || NewerAttempt(t, p, s);
    }
  }

  lemma AttemptsDecide(t: Tables, essays: set<QuestionId>, exam: ExamId)
    requires AttemptsUnique(t)
    ensures DecidedByAttempt(t, Graded(t, essays, exam), NewerAttempt)
    ensures DecidedByAttempt(t, Scored(t, essays, exam), NewerRow)
  {
  }

  /** With unique attempt numbers and scored submits, both ways to pick give the same sessions, and only those. */
  lemma AllViewsPickTheSame(t: Tables, essays: set<QuestionId>, exam: ExamId, picked: set<SessionId>)
    requires Consistent(t)
    ensures DistinctOn(t, Graded(t, essays, exam), NewerAttempt, picked) <==> picked == Results(t, essays, exam)
    ensures DistinctOn(t, Scored(t, essays, exam), NewerRow, picked) <==> picked == Results(t, essays, exam)
  {
    assert Graded(t, essays, exam) == Scored(t, essays, exam);
    AttemptsDecide(t, essays, exam);
    LatestIsAPick(t, Graded(t, essays, exam), NewerAttempt);
    LatestIsAPick(t, Scored(t, essays, exam), NewerRow);
    if DistinctOn(t, Graded(t, essays, exam), NewerAttempt, picked) {
      APickIsLatest(t, Graded(t, essays, exam), NewerAttempt, picked);
    }
    if DistinctOn(t, Scored(t, essays, exam), NewerRow, picked) {
      APickIsLatest(t, Scored(t, essays, exam), NewerRow, picked);
    }
  }

  // ---------- The views ----------

  /** The score column of exam_session. */
  function ScoresOf(t: Tables): Scores {
    map s | s in t.sessions :: t.sessions[s].score
  }

  /** The joined sessions, each with its score and its rank among them. */
  ghost predicate IsRanked(t: Tables, joined: set<SessionId>, rows: set<ResultRow>) {
    forall row :: row in rows <==> IsRow(t, joined, row) && HasRank(ScoresOf(t), joined, row.session, row.rank)
  }

  predicate IsRow(t: Tables, joined: set<SessionId>, row: ResultRow) {
    && row.session in joined && row.session in t.sessions
    && row.reg == t.sessions[row.session].reg && t.sessions[row.session].score == Some(row.score)
  }

  /** ListExamLeaderboard without its paging. */
  ghost predicate IsLeaderboard(t: Tables, essays: set<QuestionId>, exam: ExamId, rows: set<ResultRow>) {
    exists picked :: DistinctOn(t, Graded(t, essays, exam), NewerAttempt, picked) && IsRanked(t, picked, rows)
  }

  /** The sessions whose registration is for this exam and belongs to a student of the cohort. */
  function Joined(t: Tables, exam: ExamId, cohort: set<StudentId>, picked: set<SessionId>): set<SessionId> {
    set s | s in picked && s in t.sessions && t.sessions[s].reg in t.regs
            && t.regs[t.sessions[s].reg].exam == exam && t.regs[t.sessions[s].reg].student in cohort
  }

  /** ListResultsWorkspaceRows without its paging: the filters narrow the cohort before the ranking. */
  ghost predicate IsWorkspace(t: Tables, essays: set<QuestionId>, exam: ExamId, cohort: set<StudentId>, rows: set<ResultRow>) {
    exists picked :: DistinctOn(t, Scored(t, essays, exam), NewerRow, picked) && IsRanked(t, Joined(t, exam, cohort, picked), rows)
  }

  /** The rows of students the search finds. */
  function Shown(t: Tables, found: set<StudentId>, ranked: set<ResultRow>): set<ResultRow> {
    set row | row in ranked && row.reg in t.regs && t.regs[row.reg].student in found
  }

  /** ListDetailedExportRows: the school narrows the cohort, but the search only hides rows after the ranking. */
  ghost predicate IsExport(t: Tables, essays: set<QuestionId>, exam: ExamId, cohort: set<StudentId>, found: set<StudentId>,
                           rows: set<ResultRow>)
  {
    exists picked, ranked: set<ResultRow> ::
      && DistinctOn(t, Scored(t, essays, exam), NewerRow, picked) && IsRanked(t, Joined(t, exam, cohort, picked), ranked)
      && rows == Shown(t, found, ranked)
  }

  /** GetResultsWorkspaceSummary's completed: registrations of the cohort with a scored session. */
  function Completed(t: Tables, exam: ExamId, cohort: set<StudentId>, picked: set<SessionId>): set<RegistrationId> {
    set r | r in t.regs && t.regs[r].exam == exam && t.regs[r].student in cohort
            && exists s :: s in picked && s in t.sessions && t.sessions[s].reg == r
  }

  ghost predicate IsCompletedCount(t: Tables, essays: set<QuestionId>, exam: ExamId, cohort: set<StudentId>, n: nat) {
    exists picked :: DistinctOn(t, Scored(t, essays, exam), NewerRow, picked) && n == |Completed(t, exam, cohort, picked)|
  }

  ghost predicate IsFullyGradedCount(t: Tables, essays: set<QuestionId>, exam: ExamId, n: nat) {
    exists picked :: DistinctOn(t, Graded(t, essays, exam), NewerAttempt, picked) && n == |picked|
  }

  /** The sessions every view is about. */
  function Results(t: Tables, essays: set<QuestionId>, exam: ExamId): set<SessionId> {
    Latest(t, Scored(t, essays, exam))
  }

  function RowOf(t: Tables, view: set<SessionId>, s: SessionId): ResultRow
    requires s in t.sessions && t.sessions[s].score.Some?
  {
    var score := t.sessions[s].score.value;
    ResultRow(t.sessions[s].reg, s, score, 1 + |HigherScores(ScoresOf(t), view, score)|)
  }

  /** One row for each session, with the rank its score deserves among them. */
  function RowsOf(t: Tables, view: set<SessionId>): set<ResultRow> {
    set s | s in view && s in t.sessions && t.sessions[s].score.Some? :: RowOf(t, view, s)
  }

  lemma RankedRows(t: Tables, view: set<SessionId>, rows: set<ResultRow>)
    requires AllScored(ScoresOf(t), view)
    ensures IsRanked(t, view, rows) <==> rows == RowsOf(t, view)
  {
    forall row: ResultRow
      ensures row in RowsOf(t, view) <==> IsRow(t, view, row) && HasRank(ScoresOf(t), view, row.session, row.rank)
    {
      if IsRow(t, view, row) {
        RankIsOneMoreThanHigherScores(ScoresOf(t), view, row.session, row.rank);
        assert RowOf(t, view, row.session) in RowsOf(t, view);
      }
    }
  }

  lemma LeaderboardIs(t: Tables, essays: set<QuestionId>, exam: ExamId, rows: set<ResultRow>)
    requires Consistent(t)
    ensures IsLeaderboard(t, essays, exam, rows) <==> rows == RowsOf(t, Results(t, essays, exam))
  {
    var view := Results(t, essays, exam);
    forall picked ensures DistinctOn(t, Graded(t, essays, exam), NewerAttempt, picked) <==> picked == view {
      AllViewsPickTheSame(t, essays, exam, picked);
    }
    RankedRows(t, view, rows);
  }

  lemma WorkspaceIs(t: Tables, essays: set<QuestionId>, exam: ExamId, cohort: set<StudentId>, rows: set<ResultRow>)
    requires Consistent(t)
    ensures IsWorkspace(t, essays, exam, cohort, rows) <==>
            rows == RowsOf(t, Joined(t, exam, cohort, Results(t, essays, exam)))
  {
    var view := Results(t, essays, exam);
    forall picked ensures DistinctOn(t, Scored(t, essays, exam), NewerRow, picked) <==> picked == view {
      AllViewsPickTheSame(t, essays, exam, picked);
    }
    RankedRows(t, Joined(t, exam, cohort, view), rows);
  }

  lemma ExportIs(t: Tables, essays: set<QuestionId>, exam: ExamId, cohort: set<StudentId>, found: set<StudentId>,
                 rows: set<ResultRow>)
    requires Consistent(t)
    ensures IsExport(t, essays, exam, cohort, found, rows) <==>
            rows == Shown(t, found, RowsOf(t, Joined(t, exam, cohort, Results(t, essays, exam))))
  {
    var view := Results(t, essays, exam);
    forall picked ensures DistinctOn(t, Scored(t, essays, exam), NewerRow, picked) <==> picked == view {
      AllViewsPickTheSame(t, essays, exam, picked);
    }
    forall ranked ensures IsRanked(t, Joined(t, exam, cohort, view), ranked) <==> ranked == RowsOf(t, Joined(t, exam, cohort, view)) {
      RankedRows(t, Joined(t, exam, cohort, view), ranked);
    }
  }

  // ---------- Agreement ----------

  lemma ResultsAreScored(t: Tables, essays: set<QuestionId>, exam: ExamId, cohort: set<StudentId>)
    ensures AllScored(ScoresOf(t), Results(t, essays, exam))
    ensures AllScored(ScoresOf(t), Joined(t, exam, cohort, Results(t, essays, exam)))
  {
  }

  ghost predicate AllIn(t: Tables, view: set<SessionId>, cohort: set<StudentId>) {
    forall s :: s in view && s in t.sessions ==> t.sessions[s].student in cohort
  }

  /** Joining to the registration loses a session only for its student. */
  lemma JoinKeeps(t: Tables, essays: set<QuestionId>, exam: ExamId, cohort: set<StudentId>, s: SessionId)
    requires SessionsBelong(t)
    ensures s in Joined(t, exam, cohort, Results(t, essays, exam)) <==>
            s in Results(t, essays, exam) && t.sessions[s].student in cohort
  {
  }

  lemma RowsAgreeIff(t: Tables, a: set<SessionId>, b: set<SessionId>)
    requires AllScored(ScoresOf(t), a) && AllScored(ScoresOf(t), b)
    ensures RowsOf(t, a) == RowsOf(t, b) <==> a == b
  {
    if RowsOf(t, a) == RowsOf(t, b) {
      forall s | s in a ensures s in b {
        assert RowOf(t, a, s) in RowsOf(t, a);
      }
      forall s | s in b ensures s in a {
        assert RowOf(t, b, s) in RowsOf(t, b);
      }
    }
  }

  lemma EveryRowIsShown(t: Tables, exam: ExamId, cohort: set<StudentId>, picked: set<SessionId>)
    ensures var rows := RowsOf(t, Joined(t, exam, cohort, picked)); Shown(t, cohort, rows) == rows
  {
  }

  lemma JoinLosesNothingIff(t: Tables, essays: set<QuestionId>, exam: ExamId, cohort: set<StudentId>)
    requires SessionsBelong(t)
    ensures Results(t, essays, exam) == Joined(t, exam, cohort, Results(t, essays, exam)) <==>
            AllIn(t, Results(t, essays, exam), cohort)
  {
    forall s ensures s in Joined(t, exam, cohort, Results(t, essays, exam)) <==>
                     s in Results(t, essays, exam) && t.sessions[s].student in cohort
    {
      JoinKeeps(t, essays, exam, cohort, s);
    }
  }

  /**
   The leaderboard, the unfiltered workspace and the unfiltered export show the same sessions with
   the same ranks. The leaderboard does not look at roles, so against the student views this holds
   exactly if every session in the results is a student's.
   */
  lemma UnfilteredViewsAgreeIff(t: Tables, essays: set<QuestionId>, exam: ExamId, students: set<StudentId>,
                                leaderboard: set<ResultRow>, workspace: set<ResultRow>, exported: set<ResultRow>)
    requires Consistent(t)
    requires IsLeaderboard(t, essays, exam, leaderboard)
    requires IsWorkspace(t, essays, exam, students, workspace)
    requires IsExport(t, essays, exam, students, students, exported)
    ensures workspace == exported
    ensures leaderboard == workspace <==> AllIn(t, Results(t, essays, exam), students)
  {
    var view := Results(t, essays, exam);
    LeaderboardIs(t, essays, exam, leaderboard);
    WorkspaceIs(t, essays, exam, students, workspace);
    ExportIs(t, essays, exam, students, students, exported);
    ResultsAreScored(t, essays, exam, students);
    JoinLosesNothingIff(t, essays, exam, students);
    RowsAgreeIff(t, view, Joined(t, exam, students, view));
    EveryRowIsShown(t, exam, students, view);
  }

  // ---------- What is in them, row by row ----------

  /** Submitted, of this exam, and with a grade on every answer to an essay question. */
  ghost predicate HasResult(t: Tables, essays: set<QuestionId>, exam: ExamId, s: SessionId) {
    && s in t.sessions && t.sessions[s].exam == exam && t.sessions[s].status == Submitted
    && forall q :: q in essays && (s, q) in t.answers ==> t.answers[(s, q)].answer.gradedAt.Some?
  }

  /** And no later attempt of its registration has all of that. */
  ghost predicate CountsForRegistration(t: Tables, essays: set<QuestionId>, exam: ExamId, s: SessionId) {
    && HasResult(t, essays, exam, s)
    && forall u :: HasResult(t, essays, exam, u) && t.sessions[u].reg == t.sessions[s].reg ==>
                     t.sessions[u].attempt <= t.sessions[s].attempt
  }

  ghost function Counting(t: Tables, essays: set<QuestionId>, exam: ExamId): set<SessionId> {
    set s | s in t.sessions && CountsForRegistration(t, essays, exam, s)
  }

  ghost function CountingIn(t: Tables, essays: set<QuestionId>, exam: ExamId, cohort: set<StudentId>): set<SessionId> {
    set s | s in Counting(t, essays, exam) && t.sessions[s].student in cohort
  }

  /** The row of one of these sessions: its registration and score, ranked one behind those of them that scored higher. */
  ghost predicate RowAmong(t: Tables, among: set<SessionId>, row: ResultRow) {
    && row.session in among && row.session in t.sessions
    && t.sessions[row.session].reg == row.reg && t.sessions[row.session].score == Some(row.score)
    && row.rank == 1 + |set u | u in among && u in t.sessions && t.sessions[u].score.Some? && t.sessions[u].score.value > row.score|
  }

  lemma HasResultIff(t: Tables, essays: set<QuestionId>, exam: ExamId, s: SessionId)
    requires SubmittedIsScored(t)
    ensures s in Scored(t, essays, exam) <==> HasResult(t, essays, exam, s)
  {
    if s in Scored(t, essays, exam) {
      assert FullyGraded(t, essays, s);
    }
    if HasResult(t, essays, exam, s) {
      forall k | k in t.answers && k.0 == s && k.1 in essays ensures t.answers[k].answer.gradedAt.Some? {
        var q := k.1;
        assert k == (s, q);
        assert t.answers[(s, q)].answer.gradedAt.Some?;
      }
    }
  }

  lemma ResultsAreCounting(t: Tables, essays: set<QuestionId>, exam: ExamId)
    requires Consistent(t)
    ensures Results(t, essays, exam) == Counting(t, essays, exam)
  {
    hide Scored, HasResult;
    forall s ensures s in Scored(t, essays, exam) <==> HasResult(t, essays, exam, s) {
      HasResultIff(t, essays, exam, s);
    }
    forall s | s in t.sessions ensures s in Results(t, essays, exam) <==> s in Counting(t, essays, exam) {
      assert HasResult(t, essays, exam, s) ==> SameReg(t, s, s);
      forall u | HasResult(t, essays, exam, u) ensures u in t.sessions {
        InSessions(t, essays, exam, u);
      }
    }
    forall s | s in Results(t, essays, exam) ensures s in t.sessions {
      InSessions(t, essays, exam, s);
    }
  }

  lemma InSessions(t: Tables, essays: set<QuestionId>, exam: ExamId, s: SessionId)
    requires HasResult(t, essays, exam, s)
    ensures s in t.sessions
  {
  }

  lemma CountingOfCohort(t: Tables, essays: set<QuestionId>, exam: ExamId, cohort: set<StudentId>)
    requires Consistent(t)
    ensures Joined(t, exam, cohort, Results(t, essays, exam)) == CountingIn(t, essays, exam, cohort)
  {
    ResultsAreCounting(t, essays, exam);
    forall s | s in Counting(t, essays, exam) ensures t.sessions[s].exam == exam {
      assert HasResult(t, essays, exam, s);
    }
  }

  lemma RowsAreRowsAmong(t: Tables, view: set<SessionId>, row: ResultRow)
    ensures row in RowsOf(t, view) <==> RowAmong(t, view, row)
  {
    assert HigherScores(ScoresOf(t), view, row.score)
        == set u | u in view && u in t.sessions && t.sessions[u].score.Some? && t.sessions[u].score.value > row.score;
    if RowAmong(t, view, row) {
      assert row == RowOf(t, view, row.session);
    }
  }

  /** The leaderboard has a row for exactly the sessions that count for their registration. */
  lemma LeaderboardRows(t: Tables, essays: set<QuestionId>, exam: ExamId, leaderboard: set<ResultRow>, row: ResultRow)
    requires Consistent(t) && IsLeaderboard(t, essays, exam, leaderboard)
    ensures row in leaderboard <==> RowAmong(t, Counting(t, essays, exam), row)
  {
    LeaderboardIs(t, essays, exam, leaderboard);
    ResultsAreCounting(t, essays, exam);
    RowsAreRowsAmong(t, Counting(t, essays, exam), row);
  }

  /** The workspace for exactly those of the cohort, ranked among them. */
  lemma WorkspaceRows(t: Tables, essays: set<QuestionId>, exam: ExamId, cohort: set<StudentId>, workspace: set<ResultRow>,
                      row: ResultRow)
    requires Consistent(t) && IsWorkspace(t, essays, exam, cohort, workspace)
    ensures row in workspace <==> RowAmong(t, CountingIn(t, essays, exam, cohort), row)
  {
    WorkspaceIs(t, essays, exam, cohort, workspace);
    CountingOfCohort(t, essays, exam, cohort);
    RowsAreRowsAmong(t, CountingIn(t, essays, exam, cohort), row);
  }

  /** The export has the same rows, and of those the ones whose student the search found. */
  lemma ExportedRows(t: Tables, essays: set<QuestionId>, exam: ExamId, cohort: set<StudentId>, found: set<StudentId>,
                     exported: set<ResultRow>, row: ResultRow)
    requires Consistent(t) && IsExport(t, essays, exam, cohort, found, exported)
    ensures row in exported <==>
            RowAmong(t, CountingIn(t, essays, exam, cohort), row) && t.sessions[row.session].student in found
  {
    ExportIs(t, essays, exam, cohort, found, exported);
    CountingOfCohort(t, essays, exam, cohort);
    RowsAreRowsAmong(t, CountingIn(t, essays, exam, cohort), row);
  }

  /** Both counts count those sessions. */
  lemma CountsCount(t: Tables, essays: set<QuestionId>, exam: ExamId, cohort: set<StudentId>, n: nat)
    requires Consistent(t)
    ensures IsFullyGradedCount(t, essays, exam, n) <==> n == |Counting(t, essays, exam)|
    ensures IsCompletedCount(t, essays, exam, cohort, n) <==> n == |CountingIn(t, essays, exam, cohort)|
  {
    var view := Results(t, essays, exam);
    forall picked
      ensures DistinctOn(t, Graded(t, essays, exam), NewerAttempt, picked) <==> picked == view
      ensures DistinctOn(t, Scored(t, essays, exam), NewerRow, picked) <==> picked == view
    {
      AllViewsPickTheSame(t, essays, exam, picked);
    }
    ResultsAreCounting(t, essays, exam);
    CountingOfCohort(t, essays, exam, cohort);
    CompletedSize(t, exam, cohort, view);
  }

  /** The grade on the last essay of a submitted session that was without one brings the session in, with the total written. */
  lemma LastGradeBringsSessionIn(t: Tables, essays: set<QuestionId>, exam: ExamId, s: SessionId, grade: Transaction,
                                 before: set<ResultRow>, after: set<ResultRow>)
    requires Consistent(t) && grade.Grade? && grade.session == s && grade.question in essays
    requires s in t.sessions && t.sessions[s].exam == exam && t.sessions[s].status == Submitted
    requires (s, grade.question) in t.answers && t.answers[(s, grade.question)].answer.gradedAt.None?
    requires forall q :: q in essays && q != grade.question && (s, q) in t.answers ==> t.answers[(s, q)].answer.gradedAt.Some?
    requires forall u :: u in t.sessions && u != s && t.sessions[u].reg == t.sessions[s].reg ==>
                           t.sessions[u].attempt < t.sessions[s].attempt
    requires IsLeaderboard(t, essays, exam, before) && IsLeaderboard(Apply(t, grade), essays, exam, after)
    ensures forall row :: row in before ==> row.session != s
    ensures exists row :: row in after && row.session == s && row.score == grade.total
  {
    var t' := Apply(t, grade);
    GradeWritesGrading(t, s, grade.question, grade.points, grade.comment, grade.grader, grade.total, grade.now);
    TransactionsKeepAttempts(t, grade);
    TransactionsKeepAnswersAndScores(t, grade);
    forall row | row in before ensures row.session != s {
      LeaderboardRows(t, essays, exam, before, row);
    }
    LeaderboardRows(t', essays, exam, after, RowOf(t', Counting(t', essays, exam), s));
    RowsAreRowsAmong(t', Counting(t', essays, exam), RowOf(t', Counting(t', essays, exam), s));
    assert HasResult(t', essays, exam, s);
    assert s in Counting(t', essays, exam);
    assert RowOf(t', Counting(t', essays, exam), s) in RowsOf(t', Counting(t', essays, exam));
  }

  /** One registration, one sitting, submitted with one point. */
  function OneSitting(student: StudentId): Tables {
    var row := NewSession(1, student, 1, 1, 0).(status := Submitted, submittedAt := Some(5), score := Some(100));
    Tables(map[1 := Registration(student, 1, Some(1), 1, Finished, Some(0))], map[1 := row], map[])
  }

  lemma OneSittingIs(student: StudentId)
    ensures var t := OneSitting(student); Consistent(t) && Results(t, {}, 1) == {1} && Joined(t, 1, {}, {1}) == {}
  {
    assert OneSitting(student).sessions[1].attempt == 1;
    assert Scored(OneSitting(student), {}, 1) == {1};
  }

  lemma OneRow(t: Tables, s: SessionId)
    requires s in t.sessions && t.sessions[s].score.Some?
    ensures RowsOf(t, {s}) == {ResultRow(t.sessions[s].reg, s, t.sessions[s].score.value, 1)}
    ensures RowsOf(t, {}) == {}
  {
    assert HigherScores(ScoresOf(t), {s}, t.sessions[s].score.value) == {};
    assert RowOf(t, {s}, s) in RowsOf(t, {s});
  }

  /** A sitting by somebody who is not a student is on the leaderboard and in no other view. */
  lemma StaffSittingSplitsViews(leaderboard: set<ResultRow>, workspace: set<ResultRow>)
    requires IsLeaderboard(OneSitting(9), {}, 1, leaderboard) && IsWorkspace(OneSitting(9), {}, 1, {}, workspace)
    ensures Consistent(OneSitting(9)) && leaderboard == {ResultRow(1, 1, 100, 1)} && workspace == {}
  {
    hide IsLeaderboard, IsWorkspace, Consistent, Results, Joined, RowsOf;
    OneSittingIs(9);
    OneRow(OneSitting(9), 1);
    LeaderboardIs(OneSitting(9), {}, 1, leaderboard);
    WorkspaceIs(OneSitting(9), {}, 1, {}, workspace);
  }

  lemma RowsCount(t: Tables, view: set<SessionId>)
    requires AllScored(ScoresOf(t), view)
    ensures |RowsOf(t, view)| == |view|
  {
    var row := map s | s in view && s in t.sessions && t.sessions[s].score.Some? :: RowOf(t, view, s);
    forall s | s in view ensures s in row && row[s] in RowsOf(t, view) {
      assert s in ScoresOf(t);
    }
    forall r | r in RowsOf(t, view) ensures exists s :: s in view && row[s] == r {
      assert r == row[r.session];
    }
    ImageSize(view, RowsOf(t, view), row);
  }

  lemma RowRank(t: Tables, view: set<SessionId>, row: ResultRow)
    requires row in RowsOf(t, view)
    ensures row.rank == 1 + |HigherScores(ScoresOf(t), view, row.score)|
  {
  }

  /** Each leaderboard rank is 1 + CountHigherScores. */
  lemma LeaderboardRanks(t: Tables, essays: set<QuestionId>, exam: ExamId, leaderboard: set<ResultRow>, row: ResultRow)
    requires Consistent(t) && IsLeaderboard(t, essays, exam, leaderboard) && row in leaderboard
    ensures row.rank == 1 + |HigherScores(ScoresOf(t), Results(t, essays, exam), row.score)|
  {
    LeaderboardIs(t, essays, exam, leaderboard);
    RowRank(t, Results(t, essays, exam), row);
  }

  /** The leaderboard is as long as CountFullyGradedSessions says. */
  lemma LeaderboardLength(t: Tables, essays: set<QuestionId>, exam: ExamId, leaderboard: set<ResultRow>, n: nat)
    requires Consistent(t) && IsLeaderboard(t, essays, exam, leaderboard) && IsFullyGradedCount(t, essays, exam, n)
    ensures |leaderboard| == n
  {
    var picked :| DistinctOn(t, Graded(t, essays, exam), NewerAttempt, picked) && n == |picked|;
    AllViewsPickTheSame(t, essays, exam, picked);
    LeaderboardIs(t, essays, exam, leaderboard);
    ResultsAreScored(t, essays, exam, {});
    RowsCount(t, picked);
  }

  /** One session of the view for every registration it completes. */
  lemma CompletedSize(t: Tables, exam: ExamId, cohort: set<StudentId>, picked: set<SessionId>)
    requires forall s, u :: s in picked && u in picked && SameReg(t, s, u) ==> s == u
    ensures |Completed(t, exam, cohort, picked)| == |Joined(t, exam, cohort, picked)|
  {
    var joined := Joined(t, exam, cohort, picked);
    var reg := map s | s in joined :: t.sessions[s].reg;
    forall r | r in Completed(t, exam, cohort, picked) ensures exists s :: s in joined && reg[s] == r {
      var s :| s in picked && s in t.sessions && t.sessions[s].reg == r;
      assert s in joined && reg[s] == r;
    }
    forall s, u | s in joined && u in joined && reg[s] == reg[u] ensures s == u {
      assert SameReg(t, s, u);
    }
    ImageSize(joined, Completed(t, exam, cohort, picked), reg);
  }

  /** The workspace has as many rows as its summary counts completed registrations, under any filter. */
  lemma WorkspaceCountsMatchSummary(t: Tables, essays: set<QuestionId>, exam: ExamId, cohort: set<StudentId>,
                                    workspace: set<ResultRow>, n: nat)
    requires Consistent(t)
    requires IsWorkspace(t, essays, exam, cohort, workspace) && IsCompletedCount(t, essays, exam, cohort, n)
    ensures |workspace| == n
  {
    var picked :| DistinctOn(t, Scored(t, essays, exam), NewerRow, picked) && n == |Completed(t, exam, cohort, picked)|;
    CompletedSize(t, exam, cohort, picked);
    AllViewsPickTheSame(t, essays, exam, picked);
    WorkspaceIs(t, essays, exam, cohort, workspace);
    ResultsAreScored(t, essays, exam, cohort);
    RowsCount(t, Joined(t, exam, cohort, picked));
  }

  // ---------- Under a search ----------

  /** Nobody left out of `some` scored higher than somebody in it. */
  ghost predicate NobodyHigherLeftOut(t: Tables, some: set<SessionId>, all: set<SessionId>) {
    forall s, u :: s in some && u in all && u !in some && s in t.sessions && u in t.sessions
                   && t.sessions[s].score.Some? && t.sessions[u].score.Some? ==>
                     t.sessions[u].score.value <= t.sessions[s].score.value
  }

  lemma ShownRowsAgreeIff(t: Tables, some: set<SessionId>, all: set<SessionId>, shown: set<ResultRow>)
    requires AllScored(ScoresOf(t), all) && some <= all
    requires shown == set row | row in RowsOf(t, all) && row.session in some
    ensures RowsOf(t, some) == shown <==> NobodyHigherLeftOut(t, some, all)
  {
    forall s | s in some
      ensures RowOf(t, some, s) == RowOf(t, all, s) <==>
              forall u :: u in all && u !in some ==> t.sessions[u].score.value <= t.sessions[s].score.value
    {
      NarrowerRank(ScoresOf(t), some, all, t.sessions[s].score.value);
      assert forall u :: u in all ==> ScoresOf(t)[u] == t.sessions[u].score;
    }
    if RowsOf(t, some) == shown {
      forall s | s in some ensures RowOf(t, some, s) == RowOf(t, all, s) {
        assert RowOf(t, some, s) in RowsOf(t, some);
      }
    }
    if NobodyHigherLeftOut(t, some, all) {
      forall s | s in some ensures RowOf(t, some, s) == RowOf(t, all, s) {
      }
      RowsThroughAll(t, some, all, shown);
    }
  }

  lemma RowsThroughAll(t: Tables, some: set<SessionId>, all: set<SessionId>, shown: set<ResultRow>)
    requires AllScored(ScoresOf(t), all) && some <= all
    requires shown == set row | row in RowsOf(t, all) && row.session in some
    requires forall s :: s in some ==> RowOf(t, some, s) == RowOf(t, all, s)
    ensures RowsOf(t, some) == shown
  {
    forall row | row in RowsOf(t, some) ensures row in shown {
      assert RowOf(t, all, row.session) in RowsOf(t, all);
    }
    forall row | row in shown ensures row in RowsOf(t, some) {
      assert RowOf(t, some, row.session) in RowsOf(t, some);
    }
  }

  /**
   A search ranks differently in the two views: the workspace ranks only what it found, the export
   ranks the cohort first. They agree exactly if nobody left out scored higher than somebody found.
   */
  lemma SearchRanksAgreeIff(t: Tables, essays: set<QuestionId>, exam: ExamId, cohort: set<StudentId>, found: set<StudentId>,
                            workspace: set<ResultRow>, exported: set<ResultRow>)
    requires Consistent(t)
    requires IsWorkspace(t, essays, exam, cohort * found, workspace)
    requires IsExport(t, essays, exam, cohort, found, exported)
    ensures var view := Results(t, essays, exam);
            workspace == exported <==>
            NobodyHigherLeftOut(t, Joined(t, exam, cohort * found, view), Joined(t, exam, cohort, view))
  {
    var view := Results(t, essays, exam);
    WorkspaceIs(t, essays, exam, cohort * found, workspace);
    ExportIs(t, essays, exam, cohort, found, exported);
    ResultsAreScored(t, essays, exam, cohort);
    ShownAreFound(t, exam, cohort, found, view);
    ShownRowsAgreeIff(t, Joined(t, exam, cohort * found, view), Joined(t, exam, cohort, view), exported);
  }

  lemma ShownAreFound(t: Tables, exam: ExamId, cohort: set<StudentId>, found: set<StudentId>, picked: set<SessionId>)
    ensures var all, some := Joined(t, exam, cohort, picked), Joined(t, exam, cohort * found, picked);
            && some <= all
            && Shown(t, found, RowsOf(t, all)) == set row | row in RowsOf(t, all) && row.session in some
  {
  }

  /** Two students, each with one submitted sitting: the first has two points, the second one. */
  function TwoResults(): Tables {
    var first := NewSession(1, 1, 1, 1, 0).(status := Submitted, submittedAt := Some(5), score := Some(200));
    var second := NewSession(2, 2, 1, 1, 0).(status := Submitted, submittedAt := Some(5), score := Some(100));
    Tables(map[1 := Registration(1, 1, Some(1), 1, Finished, Some(0)), 2 := Registration(2, 1, Some(2), 1, Finished, Some(0))],
           map[1 := first, 2 := second], map[])
  }

  lemma TwoResultsAre()
    ensures var t := TwoResults(); Consistent(t) && Results(t, {}, 1) == {1, 2}
    ensures Joined(TwoResults(), 1, {1, 2}, {1, 2}) == {1, 2} && Joined(TwoResults(), 1, {1, 2} * {2}, {1, 2}) == {2}
  {
    var t := TwoResults();
    assert t.sessions[1].attempt == 1 && t.sessions[2].attempt == 1;
    assert Scored(t, {}, 1) == {1, 2};
  }

  lemma SecondIsShown()
    ensures Shown(TwoResults(), {2}, RowsOf(TwoResults(), {1, 2})) == {ResultRow(2, 2, 100, 2)}
  {
    var t := TwoResults();
    var rows := RowsOf(t, {1, 2});
    assert HigherScores(ScoresOf(t), {1, 2}, 100) == {1};
    assert RowOf(t, {1, 2}, 2) == ResultRow(2, 2, 100, 2) && RowOf(t, {1, 2}, 2) in rows;
    forall row | row in Shown(t, {2}, rows) ensures row == RowOf(t, {1, 2}, 2) {
      assert row == RowOf(t, {1, 2}, row.session);
    }
  }

  /** Searching for the second student only: the workspace shows rank 1, the export rank 2. */
  lemma SearchSplitsRanks(workspace: set<ResultRow>, exported: set<ResultRow>)
    requires IsWorkspace(TwoResults(), {}, 1, {1, 2} * {2}, workspace)
    requires IsExport(TwoResults(), {}, 1, {1, 2}, {2}, exported)
    ensures workspace == {ResultRow(2, 2, 100, 1)} && exported == {ResultRow(2, 2, 100, 2)}
  {
    hide IsWorkspace, IsExport, Consistent, Results, Joined, RowsOf, Shown;
    TwoResultsAre();
    OneRow(TwoResults(), 2);
    SecondIsShown();
    WorkspaceIs(TwoResults(), {}, 1, {1, 2} * {2}, workspace);
    ExportIs(TwoResults(), {}, 1, {1, 2}, {2}, exported);
  }

  // ---------- In every reachable state ----------

  /** Whatever rows and counts the queries return for an exam, they tell the same story. */
  ghost predicate ViewsAgree(t: Tables, essays: set<QuestionId>, exam: ExamId, students: set<StudentId>) {
    && (forall leaderboard, workspace, exported ::
          IsLeaderboard(t, essays, exam, leaderboard) && IsWorkspace(t, essays, exam, students, workspace)
          && IsExport(t, essays, exam, students, students, exported) ==>
            leaderboard == workspace == exported)
    && (forall leaderboard, row: ResultRow :: IsLeaderboard(t, essays, exam, leaderboard) && row in leaderboard ==>
                                     row.rank == 1 + |HigherScores(ScoresOf(t), Results(t, essays, exam), row.score)|)
    && (forall leaderboard, graded :: IsLeaderboard(t, essays, exam, leaderboard) && IsFullyGradedCount(t, essays, exam, graded) ==>
                                        |leaderboard| == graded)
    && (forall workspace, completed ::
          IsWorkspace(t, essays, exam, students, workspace) && IsCompletedCount(t, essays, exam, students, completed) ==>
            |workspace| == completed)
  }

  lemma ConsistentViewsAgree(t: Tables, essays: set<QuestionId>, exam: ExamId, students: set<StudentId>)
    requires Consistent(t) && AllIn(t, Results(t, essays, exam), students)
    ensures ViewsAgree(t, essays, exam, students)
  {
    forall leaderboard, workspace, exported |
      IsLeaderboard(t, essays, exam, leaderboard) && IsWorkspace(t, essays, exam, students, workspace)
      && IsExport(t, essays, exam, students, students, exported)
      ensures leaderboard == workspace == exported
    {
      UnfilteredViewsAgreeIff(t, essays, exam, students, leaderboard, workspace, exported);
    }
    forall leaderboard, row: ResultRow | IsLeaderboard(t, essays, exam, leaderboard) && row in leaderboard
      ensures row.rank == 1 + |HigherScores(ScoresOf(t), Results(t, essays, exam), row.score)|
    {
      LeaderboardRanks(t, essays, exam, leaderboard, row);
    }
    forall leaderboard, graded | IsLeaderboard(t, essays, exam, leaderboard) && IsFullyGradedCount(t, essays, exam, graded)
      ensures |leaderboard| == graded
    {
      LeaderboardLength(t, essays, exam, leaderboard, graded);
    }
    forall workspace, completed |
      IsWorkspace(t, essays, exam, students, workspace) && IsCompletedCount(t, essays, exam, students, completed)
      ensures |workspace| == completed
    {
      WorkspaceCountsMatchSummary(t, essays, exam, students, workspace, completed);
    }
  }

  /** Every view has an answer, so the agreement is not empty. */
  lemma ViewsExist(t: Tables, essays: set<QuestionId>, exam: ExamId, students: set<StudentId>)
    requires Consistent(t)
    ensures exists rows :: IsLeaderboard(t, essays, exam, rows)
    ensures exists rows :: IsWorkspace(t, essays, exam, students, rows)
    ensures exists rows :: IsExport(t, essays, exam, students, students, rows)
  {
    var view := Results(t, essays, exam);
    LeaderboardIs(t, essays, exam, RowsOf(t, view));
    WorkspaceIs(t, essays, exam, students, RowsOf(t, Joined(t, exam, students, view)));
    ExportIs(t, essays, exam, students, students, Shown(t, students, RowsOf(t, Joined(t, exam, students, view))));
  }

  /** Whatever the interleaving of sittings, saves, submits and gradings that led there. */
  lemma ViewsAgreeInEveryReachableState(p: SessionProtocol.State, labels: seq<SessionProtocol.Label>, essays: set<QuestionId>,
                                        exam: ExamId, students: set<StudentId>)
    requires SessionProtocol.ProtocolOk(p) && Consistent(p.db) && WithinCeilings(p.db, p.limits)
    requires SessionProtocol.Run(p, labels).Some?
    requires AllIn(SessionProtocol.Run(p, labels).value.db, Results(SessionProtocol.Run(p, labels).value.db, essays, exam), students)
    ensures ViewsAgree(SessionProtocol.Run(p, labels).value.db, essays, exam, students)
  {
    SessionRuns.EveryRunKeepsTables(p, labels);
    ConsistentViewsAgree(SessionProtocol.Run(p, labels).value.db, essays, exam, students);
  }
}
