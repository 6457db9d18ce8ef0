/** RANK() OVER (ORDER BY score DESC), and why it is one more than the number of higher scores. */
module Ranking {
  import opened Prelude
  import opened ExamTables
  import opened Keyset

  /** What the result views show of a session: its registration, its score and its rank among the rows of the view. */
  datatype ResultRow = ResultRow(reg: RegistrationId, session: SessionId, score: Points, rank: nat)

  /** The score column; None is NULL. */
  type Scores = map<SessionId, Option<Points>>

  /** DESC puts NULL first. */
  predicate ScoreBefore(a: Option<Points>, b: Option<Points>) {
    b.Some? && (a.None? || a.value > b.value)
  }

  /** The window's rows in an order that agrees with the scores; ties in any order. */
  ghost predicate IsWindow(scores: Scores, view: set<SessionId>, xs: seq<SessionId>) {
    && Distinct(xs)
    && (forall s :: s in xs <==> s in view)
    && (forall i :: 0 <= i < |xs| ==> xs[i] in scores)
    && (forall i, j :: 0 <= i < j < |xs| ==> !ScoreBefore(scores[xs[j]], scores[xs[i]]))
  }

  /** A row has the rank of the one before it if they tie, and otherwise its position. */
  function RankAt(scores: Scores, xs: seq<SessionId>, i: nat): (r: nat)
    requires i < |xs| && forall k :: 0 <= k < |xs| ==> xs[k] in scores
    ensures 1 <= r <= i + 1
  {
    if i > 0 && scores[xs[i - 1]] == scores[xs[i]] then RankAt(scores, xs, i - 1) else i + 1
  }

  ghost predicate HasRank(scores: Scores, view: set<SessionId>, s: SessionId, rank: nat) {
    exists xs, i: nat :: IsWindow(scores, view, xs) && i < |xs| && xs[i] == s && RankAt(scores, xs, i) == rank
  }

  /** What CountHigherScores counts: d.score > $2. */
  function HigherScores(scores: Scores, view: set<SessionId>, score: Points): set<SessionId> {
    set s | s in view && s in scores && scores[s].Some? && scores[s].value > score
  }

  /** A rank points at the first row of its tie. */
  lemma {:induction false} RankStartsTies(scores: Scores, xs: seq<SessionId>, i: nat)
    requires i < |xs| && forall k :: 0 <= k < |xs| ==> xs[k] in scores
    ensures var k := RankAt(scores, xs, i) - 1;
            && (forall j :: k <= j <= i ==> scores[xs[j]] == scores[xs[i]])
            && (k > 0 ==> scores[xs[k - 1]] != scores[xs[i]])
  {
    if i > 0 && scores[xs[i - 1]] == scores[xs[i]] {
      RankStartsTies(scores, xs, i - 1);
    }
  }

  ghost predicate AllScored(scores: Scores, view: set<SessionId>) {
    forall s :: s in view ==> s in scores && scores[s].Some?
  }

  lemma WindowIsScored(scores: Scores, view: set<SessionId>, xs: seq<SessionId>, j: nat)
    requires IsWindow(scores, view, xs) && AllScored(scores, view) && j < |xs|
    ensures xs[j] in view && scores[xs[j]].Some?
  {
    var s := xs[j];
    assert s in xs && s in view;
  }

  /** The rows before the tie, and only those, have a higher score. */
  lemma HigherComeFirst(scores: Scores, view: set<SessionId>, xs: seq<SessionId>, i: nat, j: nat)
    requires IsWindow(scores, view, xs) && AllScored(scores, view) && i < |xs| && j < |xs|
    ensures scores[xs[i]].Some?
    ensures xs[j] in HigherScores(scores, view, scores[xs[i]].value) <==> j < RankAt(scores, xs, i) - 1
  {
    var k := RankAt(scores, xs, i) - 1;
    RankStartsTies(scores, xs, i);
    WindowIsScored(scores, view, xs, i);
    WindowIsScored(scores, view, xs, j);
    if j < k {
      WindowIsScored(scores, view, xs, k - 1);
      assert !ScoreBefore(scores[xs[i]], scores[xs[k - 1]]);
      assert j < k - 1 ==> !ScoreBefore(scores[xs[k - 1]], scores[xs[j]]);
    } else {
      assert j > i ==> !ScoreBefore(scores[xs[j]], scores[xs[i]]);
    }
  }

  lemma PrefixSize<T>(xs: seq<T>, k: nat, s: set<T>)
    requires Distinct(xs) && k <= |xs|
    requires forall j :: 0 <= j < |xs| ==> (xs[j] in s <==> j < k)
    requires forall x :: x in s ==> x in xs
    ensures |s| == k
  {
    forall x ensures x in xs[..k] <==> x in s {
      if x in xs[..k] {
        var j :| 0 <= j < k && xs[..k][j] == x;
        assert xs[j] == x;
      }
      if x in s {
        var j :| 0 <= j < |xs| && xs[j] == x;
        assert xs[..k][j] == x;
      }
    }
    DistinctSameSetSameLength(xs[..k], s);
  }

  lemma WindowRank(scores: Scores, view: set<SessionId>, xs: seq<SessionId>, i: nat)
    requires IsWindow(scores, view, xs) && i < |xs| && AllScored(scores, view) && scores[xs[i]].Some?
    ensures RankAt(scores, xs, i) == 1 + |HigherScores(scores, view, scores[xs[i]].value)|
  {
    var k := RankAt(scores, xs, i) - 1;
    var higher := HigherScores(scores, view, scores[xs[i]].value);
    forall j | 0 <= j < |xs| ensures xs[j] in higher <==> j < k {
      HigherComeFirst(scores, view, xs, i, j);
    }
    forall s | s in higher ensures s in xs {
      assert s in view;
    }
    PrefixSize(xs, k, higher);
  }

  predicate WindowBefore(scores: Scores, s: SessionId, u: SessionId) {
    && s in scores && u in scores
    && (ScoreBefore(scores[s], scores[u]) || (scores[s] == scores[u] && s < u))
  }

  lemma WindowOrder(scores: Scores, view: set<SessionId>)
    requires AllScored(scores, view)
    ensures StrictOrder(view, (s, u) => WindowBefore(scores, s, u))
  {
    var before := (s, u) => WindowBefore(scores, s, u);
    forall s, u | s in view && u in view && s != u ensures before(s, u) || before(u, s) {
      assert WindowBefore(scores, s, u) || WindowBefore(scores, u, s);
    }
    forall s, u, v | s in view && u in view && v in view && before(s, u) && before(u, v) ensures before(s, v) {
      assert WindowBefore(scores, s, u) && WindowBefore(scores, u, v);
    }
  }

  lemma WindowExists(scores: Scores, view: set<SessionId>) returns (xs: seq<SessionId>)
    requires AllScored(scores, view)
    ensures IsWindow(scores, view, xs)
  {
    var before := (s, u) => WindowBefore(scores, s, u);
    WindowOrder(scores, view);
    xs := ListingExists(view, before);
    ListingLength(view, before, xs);
    forall i | 0 <= i < |xs| ensures xs[i] in scores {
      assert xs[i] in xs;
    }
    forall i, j | 0 <= i < j < |xs| ensures !ScoreBefore(scores[xs[j]], scores[xs[i]]) {
      assert before(xs[i], xs[j]);
    }
  }

  /** Every rank equals 1 + CountHigherScores, however the window orders its ties. */
  lemma RankIsOneMoreThanHigherScores(scores: Scores, view: set<SessionId>, s: SessionId, rank: nat)
    requires AllScored(scores, view) && s in view
    ensures HasRank(scores, view, s, rank) <==> rank == 1 + |HigherScores(scores, view, scores[s].value)|
  {
    forall xs, i: nat | IsWindow(scores, view, xs) && i < |xs| && xs[i] == s
      ensures RankAt(scores, xs, i) == 1 + |HigherScores(scores, view, scores[s].value)|
    {
      WindowRank(scores, view, xs, i);
    }
    var xs := WindowExists(scores, view);
    assert s in xs;
    var i: nat :| i < |xs| && xs[i] == s;
    WindowRank(scores, view, xs, i);
  }

  /** In a narrower view a score keeps its rank exactly if nobody left out scored higher. */
  lemma NarrowerRank(scores: Scores, some: set<SessionId>, all: set<SessionId>, score: Points)
    requires some <= all && AllScored(scores, all)
    ensures |HigherScores(scores, some, score)| == |HigherScores(scores, all, score)| <==>
            forall u :: u in all && u !in some ==> scores[u].value <= score
  {
    var a, b := HigherScores(scores, some, score), HigherScores(scores, all, score);
    assert b == a + (b - a) && |b| == |a| + |b - a|;
    if |a| == |b| {
      assert b - a == {};
      forall u | u in all && u !in some ensures scores[u].value <= score {
        assert u !in b - a;
      }
    }
    if forall u :: u in all && u !in some ==> scores[u].value <= score {
      assert a == b;
    }
  }
}
