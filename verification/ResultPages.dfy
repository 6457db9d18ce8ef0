/**
 What somebody sees who pages through the leaderboard or the results workspace of an exam, in any
 state the session engine can reach: its results, each once, in order, with the ranks they deserve.
 */
module ResultPages {
  import opened Prelude
  import opened ExamTables
  import opened Keyset
  import opened Ranking
  import opened Listings
  import opened ResultViews
  import SessionProtocol
  import SessionRuns

  lemma RowsHaveOneKey(t: Tables, view: set<SessionId>)
    ensures forall x, y :: x in RowsOf(t, view) && y in RowsOf(t, view) && x.session == y.session ==> x == y
  {
  }

  /** Of two rows the one with the better score has the better rank, and only ties share one. */
  lemma RanksFollowScores(t: Tables, view: set<SessionId>, x: ResultRow, y: ResultRow)
    requires AllScored(ScoresOf(t), view) && x in RowsOf(t, view) && y in RowsOf(t, view)
    ensures x.rank < y.rank <==> x.score > y.score
    ensures x.rank == y.rank <==> x.score == y.score
  {
    RowRank(t, view, x);
    RowRank(t, view, y);
    if x.score > y.score {
      HigherScoreRanksFirst(t, view, x, y);
    } else if y.score > x.score {
      HigherScoreRanksFirst(t, view, y, x);
    }
  }

  lemma HigherScoreRanksFirst(t: Tables, view: set<SessionId>, x: ResultRow, y: ResultRow)
    requires x in RowsOf(t, view) && y in RowsOf(t, view) && x.score > y.score
    ensures |HigherScores(ScoresOf(t), view, x.score)| < |HigherScores(ScoresOf(t), view, y.score)|
  {
    var a, b := HigherScores(ScoresOf(t), view, x.score), HigherScores(ScoresOf(t), view, y.score);
    assert x.session in b - a;
    assert b == a + (b - a) && |b| == |a| + |b - a|;
  }

  /** The pages put together are the rows of the view in order: best rank first. */
  ghost predicate InRankOrder(t: Tables, view: set<SessionId>, shown: seq<ResultRow>) {
    && |shown| == |view|
    && (forall row :: row in shown <==> row in RowsOf(t, view))
    && (forall i, j :: 0 <= i < j < |shown| ==> shown[i].rank <= shown[j].rank && shown[i] != shown[j])
    && (forall i, j :: 0 <= i < |shown| && 0 <= j < |shown| ==> (shown[i].rank == shown[j].rank <==> shown[i].score == shown[j].score))
  }

  lemma LeaderboardListingIsInRankOrder(t: Tables, view: set<SessionId>, shown: seq<ResultRow>)
    requires AllScored(ScoresOf(t), view) && IsListing(RowsOf(t, view), LeaderboardBefore, shown) && |shown| == |RowsOf(t, view)|
    ensures InRankOrder(t, view, shown)
  {
    RowsCount(t, view);
    forall i, j | 0 <= i < |shown| && 0 <= j < |shown|
      ensures i < j ==> shown[i].rank <= shown[j].rank && shown[i] != shown[j]
      ensures shown[i].rank == shown[j].rank <==> shown[i].score == shown[j].score
    {
      assert shown[i] in shown && shown[j] in shown;
      RanksFollowScores(t, view, shown[i], shown[j]);
      assert i < j ==> LeaderboardBefore(shown[i], shown[j]);
    }
  }

  lemma WorkspaceListingIsInRankOrder(t: Tables, view: set<SessionId>, shown: seq<ResultRow>)
    requires AllScored(ScoresOf(t), view) && IsListing(RowsOf(t, view), WorkspaceBefore, shown) && |shown| == |RowsOf(t, view)|
    ensures InRankOrder(t, view, shown)
  {
    RowsCount(t, view);
    forall i, j | 0 <= i < |shown| && 0 <= j < |shown|
      ensures i < j ==> shown[i].rank <= shown[j].rank && shown[i] != shown[j]
      ensures shown[i].rank == shown[j].rank <==> shown[i].score == shown[j].score
    {
      assert shown[i] in shown && shown[j] in shown;
      RanksFollowScores(t, view, shown[i], shown[j]);
      assert i < j ==> WorkspaceBefore(shown[i], shown[j]);
    }
  }

  /** Whoever walks the leaderboard to its end has seen the result of every registration once, best rank first. */
  lemma LeaderboardWalkShowsResults(p: SessionProtocol.State, labels: seq<SessionProtocol.Label>, essays: set<QuestionId>,
                                    exam: ExamId, rows: set<ResultRow>, limit: nat, pages: seq<seq<ResultRow>>)
    requires SessionProtocol.ProtocolOk(p) && Consistent(p.db) && WithinCeilings(p.db, p.limits)
    requires SessionProtocol.Run(p, labels).Some?
    requires IsLeaderboard(SessionProtocol.Run(p, labels).value.db, essays, exam, rows)
    requires limit >= 1 && IsWalk(rows, LeaderboardPaging(), None, limit, pages)
    ensures var t := SessionProtocol.Run(p, labels).value.db;
            InRankOrder(t, Results(t, essays, exam), Concat(pages))
  {
    SessionRuns.EveryRunKeepsTables(p, labels);
    var t := SessionProtocol.Run(p, labels).value.db;
    var view := Results(t, essays, exam);
    LeaderboardIs(t, essays, exam, rows);
    ResultsAreScored(t, essays, exam, {});
    RowsHaveOneKey(t, view);
    LeaderboardPagesAreComplete(rows, limit, pages);
    LeaderboardListingIsInRankOrder(t, view, Concat(pages));
  }

  /** The results workspace of a cohort: likewise, ranked within what the filters select. */
  lemma WorkspaceWalkShowsResults(p: SessionProtocol.State, labels: seq<SessionProtocol.Label>, essays: set<QuestionId>,
                                  exam: ExamId, cohort: set<StudentId>, rows: set<ResultRow>, limit: int, pages: seq<seq<ResultRow>>)
    requires SessionProtocol.ProtocolOk(p) && Consistent(p.db) && WithinCeilings(p.db, p.limits)
    requires SessionProtocol.Run(p, labels).Some?
    requires IsWorkspace(SessionProtocol.Run(p, labels).value.db, essays, exam, cohort, rows)
    requires IsWalk(rows, WorkspacePaging(), None, Clamped(limit), pages)
    ensures var t := SessionProtocol.Run(p, labels).value.db;
            InRankOrder(t, Joined(t, exam, cohort, Results(t, essays, exam)), Concat(pages))
  {
    SessionRuns.EveryRunKeepsTables(p, labels);
    var t := SessionProtocol.Run(p, labels).value.db;
    var view := Joined(t, exam, cohort, Results(t, essays, exam));
    WorkspaceIs(t, essays, exam, cohort, rows);
    ResultsAreScored(t, essays, exam, cohort);
    OneRowPerRegistration(t, essays, exam, cohort);
    WorkspacePagesAreComplete(rows, limit, pages);
    WorkspaceListingIsInRankOrder(t, view, Concat(pages));
  }

  lemma OneRowPerRegistration(t: Tables, essays: set<QuestionId>, exam: ExamId, cohort: set<StudentId>)
    requires Consistent(t)
    ensures var rows := RowsOf(t, Joined(t, exam, cohort, Results(t, essays, exam)));
            forall x, y :: x in rows && y in rows && x.reg == y.reg ==> x == y
  {
    var view := Results(t, essays, exam);
    AllViewsPickTheSame(t, essays, exam, view);
    var joined := Joined(t, exam, cohort, view);
    forall x, y | x in RowsOf(t, joined) && y in RowsOf(t, joined) && x.reg == y.reg ensures x == y {
      assert SameReg(t, x.session, y.session);
    }
  }
}
