/**
 Which questions an exam asks: its linked tests' questions. An answer row names only the question,
 so a question may not be in two tests of one exam; the check for that runs before the attaching
 transaction, not in it.
 */
module ExamQuestions {
  import opened Prelude
  import opened ExamTables
  import opened TestQuestions

  /** exam_test, keyed by exam and test. */
  type Links = set<(ExamId, TestId)>

  /** test_question by test. */
  type Attached = map<TestId, set<QuestionId>>

  function Questions(a: Attached, test: TestId): set<QuestionId> {
    if test in a then a[test] else {}
  }

  predicate ShareAnExam(links: Links, t: TestId, u: TestId) {
    exists l :: l in links && l.1 == t && (l.0, u) in links
  }

  /** No question is in two tests of one exam. */
  ghost predicate OneTestPerExam(links: Links, a: Attached) {
    forall t, u, q :: t != u && ShareAnExam(links, t, u) && q in Questions(a, t) ==> q !in Questions(a, u)
  }

  /** FindQuestionsAttachedToSiblingTests */
  function Colliding(links: Links, a: Attached, test: TestId, ids: seq<QuestionId>): set<QuestionId> {
    set u, q | u in a && u != test && ShareAnExam(links, test, u) && q in a[u] && q in ids :: q
  }

  function Attach(a: Attached, test: TestId, ids: seq<QuestionId>): (r: Attached)
    ensures forall t, q :: q in Questions(r, t) <==> q in Questions(a, t) || (t == test && q in ids)
  {
    a[test := Questions(a, test) + set q | q in ids]
  }

  function Detach(a: Attached, test: TestId, q: QuestionId): (r: Attached)
    ensures forall t, k :: k in Questions(r, t) <==> k in Questions(a, t) && (t, k) != (test, q)
  {
    a[test := Questions(a, test) - {q}]
  }

  lemma ShareIsSymmetric(links: Links, t: TestId, u: TestId)
    requires ShareAnExam(links, t, u)
    ensures ShareAnExam(links, u, t)
  {
    var l :| l in links && l.1 == t && (l.0, u) in links;
    assert (l.0, u).1 == u && ((l.0, u).0, t) == l;
  }

  lemma ClearOfCollisions(links: Links, a: Attached, test: TestId, ids: seq<QuestionId>, u: TestId, q: QuestionId)
    requires Colliding(links, a, test, ids) == {} && q in ids && u != test && ShareAnExam(links, test, u)
    ensures q !in Questions(a, u)
  {
    assert q in Questions(a, u) ==> q in Colliding(links, a, test, ids);
  }

  lemma StaysInOneTest(links: Links, a: Attached, test: TestId, ids: seq<QuestionId>, t: TestId, u: TestId, q: QuestionId)
    requires OneTestPerExam(links, a) && Colliding(links, a, test, ids) == {}
    requires t != u && ShareAnExam(links, t, u) && q in Questions(Attach(a, test, ids), t)
    ensures q !in Questions(Attach(a, test, ids), u)
  {
    var a' := Attach(a, test, ids);
    assert t != test ==> Questions(a', t) == Questions(a, t);
    assert u != test ==> Questions(a', u) == Questions(a, u);
    if t == test && q in ids {
      ClearOfCollisions(links, a, test, ids, u, q);
    } else {
      assert q in Questions(a, t) && q !in Questions(a, u);
      if u == test && q in ids {
        ShareIsSymmetric(links, t, u);
        ClearOfCollisions(links, a, test, ids, t, q);
      }
    }
  }

  lemma CollisionBreaksRule(links: Links, a: Attached, test: TestId, ids: seq<QuestionId>)
    requires Colliding(links, a, test, ids) != {}
    ensures !OneTestPerExam(links, Attach(a, test, ids))
  {
    var q := Member(Colliding(links, a, test, ids));
    var u :| u in a && u != test && ShareAnExam(links, test, u) && q in a[u] && q in ids;
    assert q in Questions(Attach(a, test, ids), test) && q in Questions(Attach(a, test, ids), u);
  }

  /** An attach keeps the rule exactly if the collision query is empty when it runs. */
  lemma AttachKeepsRuleIff(links: Links, a: Attached, test: TestId, ids: seq<QuestionId>)
    requires OneTestPerExam(links, a)
    ensures OneTestPerExam(links, Attach(a, test, ids)) <==> Colliding(links, a, test, ids) == {}
  {
    var a' := Attach(a, test, ids);
    if Colliding(links, a, test, ids) != {} {
      CollisionBreaksRule(links, a, test, ids);
    } else {
      forall t, u, q | t != u && ShareAnExam(links, t, u) && q in Questions(a', t) ensures q !in Questions(a', u) {
        StaysInOneTest(links, a, test, ids, t, u, q);
      }
    }
  }

  lemma DetachKeepsRule(links: Links, a: Attached, test: TestId, q: QuestionId)
    requires OneTestPerExam(links, a)
    ensures OneTestPerExam(links, Detach(a, test, q))
  {
    assert forall t :: Questions(Detach(a, test, q), t) <= Questions(a, t);
  }

  // ---------- Runs ----------

  type CallId = int

  /** A call has asked for collisions and found none, and may attach. */
  datatype State = State(attached: Attached, cleared: map<CallId, (TestId, seq<QuestionId>)>)

  datatype Label =
    | Check(call: CallId, test: TestId, ids: seq<QuestionId>)
    | AttachCleared(call: CallId)
    | DetachOne(test: TestId, question: QuestionId)

  function Step(links: Links, p: State, l: Label): Option<State> {
    match l
    case Check(c, test, ids) =>
      if c in p.cleared then None
      else if Colliding(links, p.attached, test, ids) != {} then Some(p) // the request is refused
      else Some(p.(cleared := p.cleared[c := (test, ids)]))
    case AttachCleared(c) =>
      if c !in p.cleared then None
      else Some(State(Attach(p.attached, p.cleared[c].0, p.cleared[c].1), p.cleared - {c}))
    case DetachOne(test, q) => Some(p.(attached := Detach(p.attached, test, q)))
  }

  /** `guarded` says that an attach runs only while its collision query is still empty. */
  function Run(links: Links, p: State, labels: seq<Label>, guarded: bool): Option<State>
    decreases |labels|
  {
    if labels == [] then Some(p)
    else if guarded && !StillClear(links, p, labels[0]) then None
    else
      var q := Step(links, p, labels[0]);
      if q.None? then None else Run(links, q.value, labels[1..], guarded)
  }

  predicate StillClear(links: Links, p: State, l: Label) {
    l.AttachCleared? && l.call in p.cleared ==>
      Colliding(links, p.attached, p.cleared[l.call].0, p.cleared[l.call].1) == {}
  }

  /** If every attach runs while its check still holds, the rule holds in every reachable state. */
  lemma {:induction false} GuardedRunsKeepRule(links: Links, p: State, labels: seq<Label>)
    requires OneTestPerExam(links, p.attached) && Run(links, p, labels, true).Some?
    ensures OneTestPerExam(links, Run(links, p, labels, true).value.attached)
    decreases |labels|
  {
    if labels != [] {
      var l := labels[0];
      if l.AttachCleared? {
        AttachKeepsRuleIff(links, p.attached, p.cleared[l.call].0, p.cleared[l.call].1);
      } else if l.DetachOne? {
        DetachKeepsRule(links, p.attached, l.test, l.question);
      }
      GuardedRunsKeepRule(links, Step(links, p, l).value, labels[1..]);
    }
  }

  /** The rule holds in this state and in every later state of the run. */
  ghost predicate RuleHoldsThroughout(links: Links, p: State, labels: seq<Label>)
    requires Run(links, p, labels, false).Some?
    decreases |labels|
  {
    && OneTestPerExam(links, p.attached)
    && (labels != [] ==> RuleHoldsThroughout(links, Step(links, p, labels[0]).value, labels[1..]))
  }

  /** In any run: the rule holds in all its states exactly if every attach in it ran while its check still held. */
  lemma {:induction false} RuleHoldsThroughoutIff(links: Links, p: State, labels: seq<Label>)
    requires OneTestPerExam(links, p.attached) && Run(links, p, labels, false).Some?
    ensures RuleHoldsThroughout(links, p, labels) <==> Run(links, p, labels, true).Some?
    decreases |labels|
  {
    if labels != [] {
      var l := labels[0];
      var next := Step(links, p, l).value;
      if l.AttachCleared? {
        AttachKeepsRuleIff(links, p.attached, p.cleared[l.call].0, p.cleared[l.call].1);
      } else if l.DetachOne? {
        DetachKeepsRule(links, p.attached, l.test, l.question);
      }
      if OneTestPerExam(links, next.attached) {
        RuleHoldsThroughoutIff(links, next, labels[1..]);
      }
    }
  }

  lemma RunFirst(links: Links, p: State, l: Label, rest: seq<Label>)
    requires Step(links, p, l).Some?
    ensures Run(links, p, [l] + rest, false) == Run(links, Step(links, p, l).value, rest, false)
  {
    assert ([l] + rest)[1..] == rest;
  }

  /** Two calls that both check before either attaches put one question into two tests of an exam. */
  lemma RacingAttachesBreakRule(links: Links, p: State, exam: ExamId, t: TestId, u: TestId, q: QuestionId)
    returns (labels: seq<Label>)
    requires t != u && (exam, t) in links && (exam, u) in links && p.cleared == map[]
    requires forall v :: q !in Questions(p.attached, v)
    ensures Run(links, p, labels, false).Some? && !OneTestPerExam(links, Run(links, p, labels, false).value.attached)
  {
    assert forall v :: v in p.attached ==> p.attached[v] == Questions(p.attached, v);
    assert Colliding(links, p.attached, t, [q]) == {} && Colliding(links, p.attached, u, [q]) == {};
    var p1 := p.(cleared := map[0 := (t, [q])]);
    var p2 := p.(cleared := map[0 := (t, [q]), 1 := (u, [q])]);
    var p3 := State(Attach(p.attached, t, [q]), p2.cleared - {0});
    var p4 := State(Attach(p3.attached, u, [q]), p3.cleared - {1});
    assert Step(links, p, Check(0, t, [q])) == Some(p1) && Step(links, p1, Check(1, u, [q])) == Some(p2);
    RunFirst(links, p3, AttachCleared(1), []);
    RunFirst(links, p2, AttachCleared(0), [AttachCleared(1)] + []);
    RunFirst(links, p1, Check(1, u, [q]), [AttachCleared(0)] + ([AttachCleared(1)] + []));
    labels := [Check(0, t, [q])] + ([Check(1, u, [q])] + ([AttachCleared(0)] + ([AttachCleared(1)] + [])));
    RunFirst(links, p, Check(0, t, [q]), [Check(1, u, [q])] + ([AttachCleared(0)] + ([AttachCleared(1)] + [])));
    assert (exam, t).1 == t && ((exam, t).0, u) in links;
    assert ShareAnExam(links, t, u) && q in Questions(p4.attached, t) && q in Questions(p4.attached, u);
  }

  // ---------- GetQuestionTestMap ----------

  datatype JoinRow = JoinRow(question: QuestionId, test: TestId)

  /** The rows of exam_test JOIN test_question for an exam, in some order. */
  ghost predicate IsJoin(links: Links, a: Attached, exam: ExamId, rows: seq<JoinRow>) {
    Distinct(rows) && forall q, t :: JoinRow(q, t) in rows <==> (exam, t) in links && q in Questions(a, t)
  }

  /** The loop over the rows: a later row overwrites an earlier one of the same question. */
  method GetQuestionTestMap(rows: seq<JoinRow>) returns (m: map<QuestionId, TestId>)
    ensures m == Overwritten(rows)
    ensures forall q :: q in m ==> exists i: nat :: i < |rows| && IsLastRow(rows, i) && rows[i] == JoinRow(q, m[q])
    ensures forall i: nat :: i < |rows| && IsLastRow(rows, i) ==> rows[i].question in m && m[rows[i].question] == rows[i].test
  {
    m := map[];
    for i := 0 to |rows|
      invariant m == Overwritten(rows[..i])
    {
      assert rows[..i + 1][..i] == rows[..i];
      m := m[rows[i].question := rows[i].test];
    }
    assert rows[..|rows|] == rows;
    LastRowsRemain(rows);
  }

  /** No later row is about the same question. */
  ghost predicate IsLastRow(rows: seq<JoinRow>, i: nat)
    requires i < |rows|
  {
    forall j :: i < j < |rows| ==> rows[j].question != rows[i].question
  }

  lemma LastRowIff(rows: seq<JoinRow>, i: nat)
    requires i < |rows|
    ensures i == |rows| - 1 ==> IsLastRow(rows, i)
    ensures i < |rows| - 1 ==> (IsLastRow(rows, i) <==> IsLastRow(rows[..|rows| - 1], i) && rows[|rows| - 1].question != rows[i].question)
  {
    var init := rows[..|rows| - 1];
    assert forall j :: 0 <= j < |init| ==> init[j] == rows[j];
    if i < |init| && IsLastRow(init, i) && rows[|init|].question != rows[i].question {
      forall j | i < j < |rows| ensures rows[j].question != rows[i].question {
        assert j < |init| ==> init[j].question != init[i].question;
      }
    }
  }

  lemma {:induction false} LastRowsRemain(rows: seq<JoinRow>)
    ensures forall q :: q in Overwritten(rows) ==>
                          exists i: nat :: i < |rows| && IsLastRow(rows, i) && rows[i] == JoinRow(q, Overwritten(rows)[q])
    ensures forall i: nat :: i < |rows| && IsLastRow(rows, i) ==>
                               rows[i].question in Overwritten(rows) && Overwritten(rows)[rows[i].question] == rows[i].test
  {
    hide IsLastRow;
    if rows != [] {
      var init, last := rows[..|rows| - 1], rows[|rows| - 1];
      LastRowsRemain(init);
      forall q | q in Overwritten(rows)
        ensures exists i: nat :: i < |rows| && IsLastRow(rows, i) && rows[i] == JoinRow(q, Overwritten(rows)[q])
      {
        LastRowIff(rows, |init|);
        if q != last.question {
          assert q in Overwritten(init) && Overwritten(rows)[q] == Overwritten(init)[q];
          var i: nat :| i < |init| && IsLastRow(init, i) && init[i] == JoinRow(q, Overwritten(init)[q]);
          LastRowIff(rows, i);
        }
      }
      forall i: nat | i < |init| && IsLastRow(rows, i)
        ensures rows[i].question in Overwritten(rows) && Overwritten(rows)[rows[i].question] == rows[i].test
      {
        LastRowIff(rows, i);
      }
    }
  }

  function Overwritten(rows: seq<JoinRow>): map<QuestionId, TestId> {
    if rows == [] then map[]
    else Overwritten(rows[..|rows| - 1])[rows[|rows| - 1].question := rows[|rows| - 1].test]
  }

  lemma {:induction false} OverwrittenHasRows(rows: seq<JoinRow>)
    ensures forall q :: q in Overwritten(rows) ==> JoinRow(q, Overwritten(rows)[q]) in rows
    ensures forall r :: r in rows ==> r.question in Overwritten(rows)
  {
    if rows != [] {
      var init, last := rows[..|rows| - 1], rows[|rows| - 1];
      OverwrittenHasRows(init);
      assert rows == init + [last];
    }
  }

  lemma RuleWithinExam(links: Links, a: Attached, exam: ExamId, rows: seq<JoinRow>, q: QuestionId, t: TestId, u: TestId)
    requires OneTestPerExam(links, a) && IsJoin(links, a, exam, rows) && JoinRow(q, t) in rows && JoinRow(q, u) in rows
    ensures t == u
  {
    assert (exam, t) in links && (exam, u) in links && q in Questions(a, t) && q in Questions(a, u);
    assert (exam, t).1 == t && ((exam, t).0, u) in links;
    assert t != u ==> ShareAnExam(links, t, u);
  }

  /** Under the rule the map says of every row what the row says, so it does not depend on the order of the rows. */
  lemma MapIsTheJoin(links: Links, a: Attached, exam: ExamId, rows: seq<JoinRow>)
    requires OneTestPerExam(links, a) && IsJoin(links, a, exam, rows)
    ensures forall q, t :: JoinRow(q, t) in rows <==> q in Overwritten(rows) && Overwritten(rows)[q] == t
  {
    OverwrittenHasRows(rows);
    forall q, t | JoinRow(q, t) in rows ensures q in Overwritten(rows) && Overwritten(rows)[q] == t {
      assert JoinRow(q, t).question in Overwritten(rows);
      RuleWithinExam(links, a, exam, rows, q, t, Overwritten(rows)[q]);
    }
  }

  lemma SameJoin(links: Links, a: Attached, exam: ExamId, rows: seq<JoinRow>, others: seq<JoinRow>, r: JoinRow)
    requires IsJoin(links, a, exam, rows) && IsJoin(links, a, exam, others)
    ensures r in rows <==> r in others
  {
    var JoinRow(q, t) := r;
    assert JoinRow(q, t) in rows <==> (exam, t) in links && q in Questions(a, t);
    assert JoinRow(q, t) in others <==> (exam, t) in links && q in Questions(a, t);
  }

  lemma MapIgnoresRowOrder(links: Links, a: Attached, exam: ExamId, rows: seq<JoinRow>, others: seq<JoinRow>)
    requires OneTestPerExam(links, a) && IsJoin(links, a, exam, rows) && IsJoin(links, a, exam, others)
    ensures Overwritten(rows) == Overwritten(others)
  {
    MapIsTheJoin(links, a, exam, rows);
    MapIsTheJoin(links, a, exam, others);
    forall q ensures q in Overwritten(rows) <==> q in Overwritten(others) {
      if q in Overwritten(rows) {
        SameJoin(links, a, exam, rows, others, JoinRow(q, Overwritten(rows)[q]));
      }
      if q in Overwritten(others) {
        SameJoin(links, a, exam, rows, others, JoinRow(q, Overwritten(others)[q]));
      }
    }
    forall q | q in Overwritten(rows) ensures Overwritten(rows)[q] == Overwritten(others)[q] {
      SameJoin(links, a, exam, rows, others, JoinRow(q, Overwritten(rows)[q]));
    }
  }

  /** No question occurs twice in the join. */
  ghost predicate EachOnce(rows: seq<JoinRow>) {
    forall i, j :: 0 <= i < j < |rows| ==> rows[i].question != rows[j].question
  }

  /** The map is as large as GetExamQuestionTotal, which counts the rows, exactly if no question occurs in two tests. */
  lemma {:induction false} MapSizeIsTotalIff(rows: seq<JoinRow>)
    ensures |Overwritten(rows)| <= |rows|
    ensures |Overwritten(rows)| == |rows| <==> EachOnce(rows)
  {
    if rows != [] {
      var init, last := rows[..|rows| - 1], rows[|rows| - 1];
      MapSizeIsTotalIff(init);
      OverwrittenHasRows(init);
      var m := Overwritten(init);
      assert m[last.question := last.test].Keys == m.Keys + {last.question};
      assert last.question in m <==> exists i :: 0 <= i < |init| && init[i].question == last.question by {
        if last.question in m {
          assert JoinRow(last.question, m[last.question]) in init;
          var i :| 0 <= i < |init| && init[i] == JoinRow(last.question, m[last.question]);
        }
      }
      assert forall i :: 0 <= i < |init| ==> rows[i] == init[i];
    }
  }

  /** In every state that guarded runs reach, the map is the join and as large as the total. */
  lemma MapIsWellDefinedInGuardedRuns(links: Links, p: State, labels: seq<Label>, exam: ExamId, rows: seq<JoinRow>)
    requires OneTestPerExam(links, p.attached) && Run(links, p, labels, true).Some?
    requires IsJoin(links, Run(links, p, labels, true).value.attached, exam, rows)
    ensures |Overwritten(rows)| == |rows|
    ensures forall others :: IsJoin(links, Run(links, p, labels, true).value.attached, exam, others) ==>
                               Overwritten(others) == Overwritten(rows)
  {
    GuardedRunsKeepRule(links, p, labels);
    var a := Run(links, p, labels, true).value.attached;
    forall i, j | 0 <= i < j < |rows| ensures rows[i].question != rows[j].question {
      var r, s := rows[i], rows[j];
      assert r in rows && s in rows && r == JoinRow(r.question, r.test) && s == JoinRow(s.question, s.test);
      if r.question == s.question {
        RuleWithinExam(links, a, exam, rows, r.question, r.test, s.test);
      }
    }
    MapSizeIsTotalIff(rows);
    forall others | IsJoin(links, a, exam, others) ensures Overwritten(others) == Overwritten(rows) {
      MapIgnoresRowOrder(links, a, exam, others, rows);
    }
  }
}
