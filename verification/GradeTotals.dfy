/**
 The total of a submitted session: the sum of its answers' scores, never below zero. Submitting writes
 it, and every essay grade writes it anew from answers that were read before the grading transaction.
 Transactions are whole here, which is what their interleavings amount to.
 */
module GradeTotals {
  import opened Prelude
  import opened ExamTables
  import opened AnswerCollapse
  import opened ExamTransactions

  /** The scores that are not NULL. */
  type Scores = map<QuestionId, Points>

  function ScoresOf(t: AnswerTable, s: SessionId): Scores {
    var scored := set k | k in t && k.0 == s && t[k].answer.score.Some? :: k.1;
    map q | q in scored && (s, q) in t && t[(s, q)].answer.score.Some? :: t[(s, q)].answer.score.value
  }

  ghost function Sum(m: Scores): int
    decreases |m|
  {
    if m == map[] then 0
    else
      SomeKey(m);
      var q :| q in m.Keys;
      m[q] + Sum(m - {q})
  }

  lemma SomeKey(m: Scores)
    requires m != map[]
    ensures exists q :: q in m.Keys
  {
    var q := Member(m.Keys);
  }

  lemma {:induction false} SumWithout(m: Scores, q: QuestionId)
    requires q in m
    ensures Sum(m) == m[q] + Sum(m - {q})
    decreases |m|
  {
    SomeKey(m);
    var p :| p in m.Keys && Sum(m) == m[p] + Sum(m - {p});
    if p != q {
      SumWithout(m - {p}, q);
      SumWithout(m - {q}, p);
      assert m - {p} - {q} == m - {q} - {p};
    }
  }

  lemma SumWith(m: Scores, q: QuestionId, points: Points)
    ensures Sum(m[q := points]) == points + Sum(m - {q})
    ensures q !in m ==> Sum(m[q := points]) == points + Sum(m)
  {
    SumWithout(m[q := points], q);
    assert m[q := points] - {q} == m - {q};
    assert q !in m ==> m - {q} == m;
  }

  ghost function Total(m: Scores): Points {
    Max(0, Sum(m))
  }

  ghost predicate TotalIsRight(t: Tables, s: SessionId) {
    s in t.sessions && t.sessions[s].score == Some(Total(ScoresOf(t.answers, s)))
  }

  // ---------- computeSessionTotal ----------

  /** The scores that a list of answers carries, a question's last one counting. */
  function Listed(answers: seq<Answer>): Scores {
    if answers == [] then map[]
    else
      var last := answers[|answers| - 1];
      var before := Listed(answers[..|answers| - 1]);
      if last.score.Some? then before[last.question := last.score.value] else before
  }

  lemma {:induction false} ListedAre(answers: seq<Answer>)
    requires DistinctQuestions(answers)
    ensures forall q :: q in Listed(answers) <==> exists i :: 0 <= i < |answers| && answers[i].question == q && answers[i].score.Some?
    ensures forall i :: 0 <= i < |answers| && answers[i].score.Some? ==>
                          answers[i].question in Listed(answers) && Listed(answers)[answers[i].question] == answers[i].score.value
  {
    if answers != [] {
      var init := answers[..|answers| - 1];
      ListedAre(init);
      assert forall i :: 0 <= i < |init| ==> init[i] == answers[i];
    }
  }

  /** What the answers scored, one after the other; an answer without a score adds nothing. */
  function ScoreSum(answers: seq<Answer>): Points {
    if answers == [] then 0
    else
      var last := answers[|answers| - 1];
      ScoreSum(answers[..|answers| - 1]) + match last.score case Some(points) => points case None => 0
  }

  lemma {:induction false} ListedSum(answers: seq<Answer>)
    requires DistinctQuestions(answers)
    ensures Sum(Listed(answers)) == ScoreSum(answers)
  {
    if answers != [] {
      var init, last := answers[..|answers| - 1], answers[|answers| - 1];
      ListedSum(init);
      ListedAre(init);
      if last.score.Some? {
        SumWith(Listed(init), last.question, last.score.value);
      }
    }
  }

  /** The loop adds up what is not NULL and floors the sum at zero. */
  method ComputeSessionTotal(answers: seq<Answer>) returns (total: Points)
    ensures total == if ScoreSum(answers) < 0 then 0 else ScoreSum(answers)
    ensures DistinctQuestions(answers) ==> total == Total(Listed(answers))
  {
    var sum := 0;
    for i := 0 to |answers|
      invariant sum == ScoreSum(answers[..i])
    {
      assert answers[..i + 1][..i] == answers[..i];
      if answers[i].score.Some? {
        sum := sum + answers[i].score.value;
      }
    }
    assert answers[..|answers|] == answers;
    total := Max(0, sum);
    if DistinctQuestions(answers) {
      ListedSum(answers);
    }
  }

  // ---------- Submitting ----------

  /** The session's scored rows are the scored answers of the list. */
  lemma RowsListed(t: AnswerTable, s: SessionId, graded: seq<Answer>)
    requires DistinctQuestions(graded)
    requires forall i :: 0 <= i < |graded| ==> (s, graded[i].question) in t && t[(s, graded[i].question)].answer == graded[i]
    requires forall q :: (s, q) in t && q !in Questions(graded) ==> t[(s, q)].answer.score.None?
    ensures ScoresOf(t, s) == Listed(graded)
  {
    ListedAre(graded);
    forall q ensures q in ScoresOf(t, s) <==> q in Listed(graded) {
      if q in Questions(graded) {
        RowListed(graded, q);
      }
    }
    forall q | q in Listed(graded) ensures ScoresOf(t, s)[q] == Listed(graded)[q] {
      var i :| 0 <= i < |graded| && graded[i].question == q && graded[i].score.Some?;
    }
  }

  lemma RowListed(graded: seq<Answer>, q: QuestionId)
    requires q in Questions(graded)
    ensures exists i :: 0 <= i < |graded| && graded[i].question == q
  {
    var a :| a in graded && a.question == q;
    var i :| 0 <= i < |graded| && graded[i] == a;
  }

  /** A session's total is right if it is what its answers, listed in any order, add up to, or zero if that is less. */
  lemma TotalIsRightIff(t: Tables, s: SessionId, answers: seq<Answer>)
    requires DistinctQuestions(answers)
    requires forall i :: 0 <= i < |answers| ==>
                           (s, answers[i].question) in t.answers && t.answers[(s, answers[i].question)].answer == answers[i]
    requires forall q :: (s, q) in t.answers ==> q in Questions(answers)
    ensures TotalIsRight(t, s) <==>
            s in t.sessions && t.sessions[s].score == Some(if ScoreSum(answers) < 0 then 0 else ScoreSum(answers))
  {
    RowsListed(t.answers, s, answers);
    ListedSum(answers);
  }

  /** A live session's answers have no scores before it is submitted; whatever is graded then has those of grading. */
  lemma SubmittedScores(t: AnswerTable, s: SessionId, graded: seq<Answer>, now: Time)
    requires DistinctQuestions(graded)
    requires forall q :: (s, q) in t && q !in Questions(graded) ==> t[(s, q)].answer.score.None?
    ensures ScoresOf(UpsertEach(t, s, graded, now), s) == Listed(graded)
  {
    hide ScoresOf, Listed;
    UpsertEachRows(t, s, graded, now);
    RowsListed(UpsertEach(t, s, graded, now), s, graded);
  }

  /** A submit with the total of what it graded leaves the total right. */
  lemma SubmitLeavesTotalRight(t: Tables, s: SessionId, graded: seq<Answer>, score: Points, admin: bool, now: Time)
    requires IsLive(t, s) && DistinctQuestions(graded) && score == Total(Listed(graded))
    requires forall q :: (s, q) in t.answers && q !in Questions(graded) ==> t.answers[(s, q)].answer.score.None?
    ensures TotalIsRight(SubmitSession(t, s, graded, score, admin, now).1, s)
  {
    BatchedSaveRefinesSequentialSave(t.answers, s, graded, now);
    LastWinsSameQuestions(graded);
    SubmittedScores(t.answers, s, graded, now);
  }

  // ---------- Grading essays ----------

  type GraderId = int

  /** A grade that has been decided: its total was computed from the answers as they were read. */
  datatype Grading = Grading(question: QuestionId, points: Points, comment: Option<string>, grader: UserId, seen: Scores)

  /** Grading of one session; other transactions run in between. */
  datatype State = State(t: Tables, open: map<GraderId, Grading>)

  datatype Label =
    | ReadAnswers(call: GraderId, question: QuestionId, points: Points, comment: Option<string>, grader: UserId)
    | WriteGrade(call: GraderId, now: Time)
    | Other(op: Transaction)

  ghost function GradeOf(s: SessionId, g: Grading, now: Time): Transaction {
    Grade(s, g.question, g.points, g.comment, g.grader, Total(g.seen[g.question := g.points]), now)
  }

  /** The other transactions grade nothing of this session and start sessions under new ids. */
  predicate IsOther(t: Tables, s: SessionId, op: Transaction) {
    (op.Grade? ==> op.session != s) && (op.Create? ==> op.id !in t.sessions)
  }

  ghost function Step(s: SessionId, p: State, l: Label): Option<State> {
    match l
    case ReadAnswers(c, q, points, comment, grader) =>
      if c in p.open || (s, q) !in p.t.answers then None
      else Some(p.(open := p.open[c := Grading(q, points, comment, grader, ScoresOf(p.t.answers, s))]))
    case WriteGrade(c, now) =>
      if c !in p.open then None else Some(State(Apply(p.t, GradeOf(s, p.open[c], now)), p.open - {c}))
    case Other(op) => if IsOther(p.t, s, op) then Some(p.(t := Apply(p.t, op))) else None
  }

  /** The total that the grade writes is that of the answers as they are now. */
  ghost predicate SeenStillCounts(s: SessionId, p: State, l: Label) {
    l.WriteGrade? && l.call in p.open ==>
      var g := p.open[l.call];
      Total(g.seen[g.question := g.points]) == Total(ScoresOf(p.t.answers, s)[g.question := g.points])
  }

  /** `guarded` says that a grade is written only if the total it read for still counts. */
  ghost function Run(s: SessionId, p: State, labels: seq<Label>, guarded: bool): Option<State>
    decreases |labels|
  {
    if labels == [] then Some(p)
    else if guarded && !SeenStillCounts(s, p, labels[0]) then None
    else
      var next := Step(s, p, labels[0]);
      if next.None? then None else Run(s, next.value, labels[1..], guarded)
  }

  /** The session is submitted, and grades are decided only for answers it has. */
  ghost predicate GradingOk(s: SessionId, p: State) {
    s in p.t.sessions && p.t.sessions[s].status == Submitted && forall c :: c in p.open ==> (s, p.open[c].question) in p.t.answers
  }

  lemma StepKeepsGradingOk(s: SessionId, p: State, l: Label)
    requires GradingOk(s, p) && Step(s, p, l).Some?
    ensures GradingOk(s, Step(s, p, l).value)
  {
    match l
    case ReadAnswers(_, _, _, _, _) =>
    case WriteGrade(c, now) => SubmittedSessionIsFrozen(p.t, GradeOf(s, p.open[c], now), s);
    case Other(op) => SubmittedSessionIsFrozen(p.t, op, s);
  }

  /** Whatever else runs in between takes its whole effect. */
  lemma OthersTakeEffect(s: SessionId, p: State, op: Transaction)
    requires IsOther(p.t, s, op)
    ensures Step(s, p, Other(op)) == Some(State(Apply(p.t, op), p.open))
  {
  }

  lemma OthersKeepScores(s: SessionId, t: Tables, op: Transaction)
    requires s in t.sessions && t.sessions[s].status == Submitted && IsOther(t, s, op)
    ensures ScoresOf(Apply(t, op).answers, s) == ScoresOf(t.answers, s)
    ensures s in Apply(t, op).sessions && Apply(t, op).sessions[s].score == t.sessions[s].score
  {
    forall q ensures (s, q) in Apply(t, op).answers <==> (s, q) in t.answers
             ensures (s, q) in t.answers && (s, q) in Apply(t, op).answers ==> Apply(t, op).answers[(s, q)] == t.answers[(s, q)]
    {
      RowIsKept(s, t, op, q);
    }
    hide ScoresOf, Apply;
    SameRowsSameScores(t.answers, Apply(t, op).answers, s);
    ScoreIsKept(s, t, op);
  }

  lemma SameRowsSameScores(t: AnswerTable, t': AnswerTable, s: SessionId)
    requires forall q :: (s, q) in t' <==> (s, q) in t
    requires forall q :: (s, q) in t && (s, q) in t' ==> t'[(s, q)] == t[(s, q)]
    ensures ScoresOf(t', s) == ScoresOf(t, s)
  {
    forall q ensures q in ScoresOf(t', s) <==> q in ScoresOf(t, s)
             ensures q in ScoresOf(t, s) && q in ScoresOf(t', s) ==> ScoresOf(t', s)[q] == ScoresOf(t, s)[q]
    {
      ScoreAt(t, s, q);
      ScoreAt(t', s, q);
    }
  }

  lemma ScoreAt(t: AnswerTable, s: SessionId, q: QuestionId)
    ensures q in ScoresOf(t, s) <==> (s, q) in t && t[(s, q)].answer.score.Some?
    ensures q in ScoresOf(t, s) && (s, q) in t ==> t[(s, q)].answer.score == Some(ScoresOf(t, s)[q])
  {
    var scored := set k | k in t && k.0 == s && t[k].answer.score.Some? :: k.1;
    assert (s, q) in t && t[(s, q)].answer.score.Some? ==> (s, q).1 in scored;
  }

  lemma ScoreIsKept(s: SessionId, t: Tables, op: Transaction)
    requires s in t.sessions && t.sessions[s].status == Submitted && IsOther(t, s, op)
    ensures s in Apply(t, op).sessions && Apply(t, op).sessions[s].score == t.sessions[s].score
  {
  }

  lemma RowIsKept(s: SessionId, t: Tables, op: Transaction, q: QuestionId)
    requires s in t.sessions && t.sessions[s].status == Submitted && IsOther(t, s, op)
    ensures (s, q) in Apply(t, op).answers <==> (s, q) in t.answers
    ensures (s, q) in t.answers && (s, q) in Apply(t, op).answers ==> Apply(t, op).answers[(s, q)] == t.answers[(s, q)]
  {
  }

  /** A grade puts its points among the scores and its total into the session. */
  lemma GradeWrites(s: SessionId, t: Tables, g: Grading, now: Time)
    requires s in t.sessions && (s, g.question) in t.answers
    ensures var t' := Apply(t, GradeOf(s, g, now));
            && t'.answers.Keys == t.answers.Keys
            && ScoresOf(t'.answers, s) == ScoresOf(t.answers, s)[g.question := g.points]
            && s in t'.sessions && t'.sessions[s].score == Some(Total(g.seen[g.question := g.points]))
  {
    hide Total;
  }

  ghost predicate TotalRightThroughout(s: SessionId, p: State, labels: seq<Label>)
    requires Run(s, p, labels, false).Some?
    decreases |labels|
  {
    && TotalIsRight(p.t, s)
    && (labels != [] ==> TotalRightThroughout(s, Step(s, p, labels[0]).value, labels[1..]))
  }

  /** One step: the total stays right exactly if it still counts what the grade read. */
  lemma StepKeepsTotalIff(s: SessionId, p: State, l: Label)
    requires GradingOk(s, p) && TotalIsRight(p.t, s) && Step(s, p, l).Some?
    ensures TotalIsRight(Step(s, p, l).value.t, s) <==> SeenStillCounts(s, p, l)
  {
    match l
    case ReadAnswers(_, _, _, _, _) =>
    case WriteGrade(c, now) => GradeWrites(s, p.t, p.open[c], now);
    case Other(op) => OthersKeepScores(s, p.t, op);
  }

  /** In any run: the session's total is right in every state exactly if every grade was written while its total still counted. */
  lemma {:induction false} TotalRightThroughoutIff(s: SessionId, p: State, labels: seq<Label>)
    requires GradingOk(s, p) && TotalIsRight(p.t, s) && Run(s, p, labels, false).Some?
    ensures TotalRightThroughout(s, p, labels) <==> Run(s, p, labels, true).Some?
    decreases |labels|
  {
    hide Step, GradingOk, TotalIsRight, SeenStillCounts;
    if labels != [] {
      var next := Step(s, p, labels[0]).value;
      StepKeepsGradingOk(s, p, labels[0]);
      StepKeepsTotalIff(s, p, labels[0]);
      if TotalIsRight(next.t, s) {
        TotalRightThroughoutIff(s, next, labels[1..]);
      }
    }
  }

  /** It does if no other answer of the session has been graded since the read. */
  lemma NobodyElseGraded(s: SessionId, p: State, l: Label)
    requires l.WriteGrade? && l.call in p.open
    requires p.open[l.call].seen - {p.open[l.call].question} == ScoresOf(p.t.answers, s) - {p.open[l.call].question}
    ensures SeenStillCounts(s, p, l)
  {
    var g := p.open[l.call];
    SumWith(g.seen, g.question, g.points);
    SumWith(ScoresOf(p.t.answers, s), g.question, g.points);
  }

  // ---------- Two graders ----------

  lemma RunFirst(s: SessionId, p: State, l: Label, rest: seq<Label>)
    requires Step(s, p, l).Some?
    ensures Run(s, p, [l] + rest, false) == Run(s, Step(s, p, l).value, rest, false)
  {
    assert ([l] + rest)[1..] == rest;
  }

  /** Both read, then both write. */
  function BothGrade(q: QuestionId, a: Points, r: QuestionId, b: Points, admin: UserId, now: Time): seq<Label> {
    [ReadAnswers(0, q, a, None, admin)] + ([ReadAnswers(1, r, b, None, admin)] + ([WriteGrade(0, now)] + ([WriteGrade(1, now)] + [])))
  }

  /**
   On every submitted session with two ungraded essays: two graders who both read before either writes
   leave both grades on the answers and only the second in the total.
   */
  lemma RacingGradersLoseOne(s: SessionId, p: State, q: QuestionId, a: Points, r: QuestionId, b: Points, admin: UserId, now: Time)
    requires GradingOk(s, p) && TotalIsRight(p.t, s) && p.open == map[] && Sum(ScoresOf(p.t.answers, s)) >= 0
    requires q != r && (s, q) in p.t.answers && (s, r) in p.t.answers && a > 0 && b >= 0
    requires q !in ScoresOf(p.t.answers, s) && r !in ScoresOf(p.t.answers, s)
    ensures Run(s, p, BothGrade(q, a, r, b, admin, now), false).Some?
    ensures var end := Run(s, p, BothGrade(q, a, r, b, admin, now), false).value;
            && s in end.t.sessions && end.t.sessions[s].score == Some(p.t.sessions[s].score.value + b)
            && Total(ScoresOf(end.t.answers, s)) == p.t.sessions[s].score.value + a + b
            && !TotalIsRight(end.t, s)
  {
    hide Step, Run, Sum, ScoresOf, BothGrade;
    var seen := ScoresOf(p.t.answers, s);
    var p1, p2, p3, p4 := BothGradeSteps(s, p, q, a, r, b, admin, now);
    BothTotals(seen, q, a, r, b);
    BothGradeRuns(s, p, q, a, r, b, admin, now, p1, p2, p3, p4);
  }

  lemma BothTotals(seen: Scores, q: QuestionId, a: Points, r: QuestionId, b: Points)
    requires q !in seen && r !in seen && q != r && Sum(seen) >= 0 && a > 0 && b >= 0
    ensures Total(seen[r := b]) == Total(seen) + b && Total(seen[q := a][r := b]) == Total(seen) + a + b
  {
    SumWith(seen, q, a);
    SumWith(seen, r, b);
    SumWith(seen[q := a], r, b);
  }

  lemma BothGradeSteps(s: SessionId, p: State, q: QuestionId, a: Points, r: QuestionId, b: Points, admin: UserId, now: Time)
    returns (p1: State, p2: State, p3: State, p4: State)
    requires GradingOk(s, p) && p.open == map[] && (s, q) in p.t.answers && (s, r) in p.t.answers
    ensures Step(s, p, ReadAnswers(0, q, a, None, admin)) == Some(p1) && Step(s, p1, ReadAnswers(1, r, b, None, admin)) == Some(p2)
    ensures Step(s, p2, WriteGrade(0, now)) == Some(p3) && Step(s, p3, WriteGrade(1, now)) == Some(p4)
    ensures var seen := ScoresOf(p.t.answers, s);
            && ScoresOf(p4.t.answers, s) == seen[q := a][r := b]
            && s in p4.t.sessions && p4.t.sessions[s].score == Some(Total(seen[r := b]))
  {
    hide ScoresOf, Total, Apply;
    var seen := ScoresOf(p.t.answers, s);
    var g, h := Grading(q, a, None, admin, seen), Grading(r, b, None, admin, seen);
    p1 := p.(open := p.open[0 := g]);
    p2 := p1.(open := p1.open[1 := h]);
    p3 := State(Apply(p.t, GradeOf(s, g, now)), p2.open - {0});
    p4 := State(Apply(p3.t, GradeOf(s, h, now)), p3.open - {1});
    GradeWrites(s, p.t, g, now);
    StepKeepsGradingOk(s, p2, WriteGrade(0, now));
    GradeWrites(s, p3.t, h, now);
  }

  lemma BothGradeRuns(s: SessionId, p: State, q: QuestionId, a: Points, r: QuestionId, b: Points, admin: UserId, now: Time,
                      p1: State, p2: State, p3: State, p4: State)
    requires Step(s, p, ReadAnswers(0, q, a, None, admin)) == Some(p1) && Step(s, p1, ReadAnswers(1, r, b, None, admin)) == Some(p2)
    requires Step(s, p2, WriteGrade(0, now)) == Some(p3) && Step(s, p3, WriteGrade(1, now)) == Some(p4)
    ensures Run(s, p, BothGrade(q, a, r, b, admin, now), false) == Some(p4)
  {
    hide Step;
    var l3: seq<Label> := [WriteGrade(1, now)] + [];
    var l2 := [WriteGrade(0, now)] + l3;
    RunFirst(s, p3, WriteGrade(1, now), []);
    RunFirst(s, p2, WriteGrade(0, now), l3);
    RunFirst(s, p1, ReadAnswers(1, r, b, None, admin), l2);
    RunFirst(s, p, ReadAnswers(0, q, a, None, admin), [ReadAnswers(1, r, b, None, admin)] + l2);
  }
}
