/**
 Collapsing a batch of answers to the last one per question before the single-statement upsert,
 and why that is the same as saving the answers one at a time.
 */
module AnswerCollapse {
  import opened Prelude
  import opened ExamTables

  /** The last answer of each question, in the order those last answers were given. */
  function LastWins(answers: seq<Answer>): seq<Answer> {
    if answers == [] then []
    else if answers[0].question in Questions(answers[1..]) then LastWins(answers[1..])
    else [answers[0]] + LastWins(answers[1..])
  }

  lemma QuestionsCons(answers: seq<Answer>)
    requires answers != []
    ensures Questions(answers) == {answers[0].question} + Questions(answers[1..])
  {
    assert answers == [answers[0]] + answers[1..];
  }

  lemma {:induction false} LastWinsSameQuestions(answers: seq<Answer>)
    ensures Questions(LastWins(answers)) == Questions(answers)
    ensures DistinctQuestions(LastWins(answers))
  {
    if answers != [] {
      LastWinsSameQuestions(answers[1..]);
      QuestionsCons(answers);
      if answers[0].question !in Questions(answers[1..]) {
        var kept := LastWins(answers[1..]);
        assert LastWins(answers)[1..] == kept;
        QuestionsCons(LastWins(answers));
        assert forall i :: 0 <= i < |kept| ==> kept[i] in kept && kept[i].question in Questions(kept);
      }
    }
  }

  /** Writing an answer whose question is written again later has no effect. */
  lemma {:induction false} EarlierWriteIsForgotten(t: AnswerTable, s: SessionId, a: Answer, later: seq<Answer>, now: Time)
    requires a.question in Questions(later)
    ensures UpsertEach(Upsert(t, s, a, now), s, later, now) == UpsertEach(t, s, later, now)
    decreases |later|
  {
    var first := later[0];
    if first.question == a.question {
      assert Upsert(Upsert(t, s, a, now), s, first, now) == Upsert(t, s, first, now);
    } else {
      QuestionsCons(later);
      EarlierWriteIsForgotten(Upsert(t, s, first, now), s, a, later[1..], now);
      assert Upsert(Upsert(t, s, a, now), s, first, now) == Upsert(Upsert(t, s, first, now), s, a, now);
    }
  }

  lemma {:induction false} CollapseKeepsSequentialSave(t: AnswerTable, s: SessionId, answers: seq<Answer>, now: Time)
    ensures UpsertEach(t, s, LastWins(answers), now) == UpsertEach(t, s, answers, now)
    decreases |answers|
  {
    if answers != [] {
      var rest := answers[1..];
      if answers[0].question in Questions(rest) {
        CollapseKeepsSequentialSave(t, s, rest, now);
        EarlierWriteIsForgotten(t, s, answers[0], rest, now);
      } else {
        assert ([answers[0]] + LastWins(rest))[1..] == LastWins(rest);
        CollapseKeepsSequentialSave(Upsert(t, s, answers[0], now), s, rest, now);
      }
    }
  }

  lemma BatchRowsCons(s: SessionId, answers: seq<Answer>, now: Time)
    requires answers != [] && answers[0].question !in Questions(answers[1..])
    ensures BatchRows(s, answers, now) == Upsert(BatchRows(s, answers[1..], now), s, answers[0], now)
    ensures (s, answers[0].question) !in BatchRows(s, answers[1..], now)
  {
    QuestionsCons(answers);
  }

  lemma DistinctTail(answers: seq<Answer>)
    requires answers != [] && DistinctQuestions(answers)
    ensures answers[0].question !in Questions(answers[1..])
    ensures DistinctQuestions(answers[1..])
  {
    forall i | 0 <= i < |answers| - 1 ensures answers[1..][i].question != answers[0].question {
      assert answers[1..][i] == answers[i + 1];
    }
  }

  lemma {:induction false} BatchIsSequentialWhenDistinct(t: AnswerTable, s: SessionId, answers: seq<Answer>, now: Time)
    requires DistinctQuestions(answers)
    ensures UpsertBatch(t, s, answers, now) == UpsertEach(t, s, answers, now)
    decreases |answers|
  {
    if answers == [] {
      assert BatchRows(s, answers, now) == map[];
    } else {
      DistinctTail(answers);
      BatchIsSequentialWhenDistinct(Upsert(t, s, answers[0], now), s, answers[1..], now);
      BatchRowsCons(s, answers, now);
      MergeOrder(t, BatchRows(s, answers[1..], now), (s, answers[0].question), AnswerRow(answers[0], now));
    }
  }

  lemma MergeOrder(t: AnswerTable, rows: AnswerTable, k: (SessionId, QuestionId), row: AnswerRow)
    requires k !in rows
    ensures t + rows[k := row] == t[k := row] + rows
  {
  }

  /** Saving distinct answers one by one: their rows are there, all others are as before. */
  lemma {:induction false} UpsertEachRows(t: AnswerTable, s: SessionId, answers: seq<Answer>, now: Time)
    requires DistinctQuestions(answers)
    ensures forall i :: 0 <= i < |answers| ==>
                          (s, answers[i].question) in UpsertEach(t, s, answers, now)
                          && UpsertEach(t, s, answers, now)[(s, answers[i].question)].answer == answers[i]
    ensures forall k: (SessionId, QuestionId) :: (k.0 != s || k.1 !in Questions(answers)) ==>
                          (k in UpsertEach(t, s, answers, now) <==> k in t)
                          && (k in t ==> UpsertEach(t, s, answers, now)[k] == t[k])
    decreases |answers|
  {
    if answers != [] {
      var rest := answers[1..];
      DistinctTail(answers);
      QuestionsCons(answers);
      UpsertEachRows(Upsert(t, s, answers[0], now), s, rest, now);
      forall i | 1 <= i < |answers| ensures answers[i] == rest[i - 1] {
      }
    }
  }

  /** The batched statement leaves the same table as saving the original answers one by one. */
  lemma BatchedSaveRefinesSequentialSave(t: AnswerTable, s: SessionId, answers: seq<Answer>, now: Time)
    ensures DistinctQuestions(LastWins(answers))
    ensures UpsertBatch(t, s, LastWins(answers), now) == UpsertEach(t, s, answers, now)
  {
    LastWinsSameQuestions(answers);
    BatchIsSequentialWhenDistinct(t, s, LastWins(answers), now);
    CollapseKeepsSequentialSave(t, s, answers, now);
  }

  /** No later answer of the batch is to the same question. */
  ghost predicate IsLast(batch: seq<Answer>, i: nat)
    requires i < |batch|
  {
    forall j :: i < j < |batch| ==> batch[j].question != batch[i].question
  }

  /**
   What saving a batch of a session leaves: for every question it names the last answer to it, stamped
   with the time, and every other row as before.
   */
  ghost predicate SavedBatch(t: AnswerTable, s: SessionId, batch: seq<Answer>, now: Time, t': AnswerTable) {
    && (forall i: nat :: i < |batch| && IsLast(batch, i) ==>
                      (s, batch[i].question) in t' && t'[(s, batch[i].question)] == AnswerRow(batch[i], now))
    && (forall k: (SessionId, QuestionId) :: (k.0 != s || forall a :: a in batch ==> a.question != k.1) ==>
          (k in t' <==> k in t) && (k in t ==> t'[k] == t[k]))
  }

  lemma LastOfRest(batch: seq<Answer>, i: nat)
    requires i < |batch| && IsLast(batch, i)
    ensures i > 0 ==> IsLast(batch[1..], i - 1)
    ensures i == 0 ==> forall a :: a in batch[1..] ==> a.question != batch[0].question
  {
    assert forall j :: 0 <= j < |batch| - 1 ==> batch[1..][j] == batch[j + 1];
  }

  /** Saving one answer and then the rest of its batch saves the batch. */
  lemma SavedFirst(t: AnswerTable, s: SessionId, batch: seq<Answer>, now: Time, t': AnswerTable)
    requires batch != [] && SavedBatch(t[(s, batch[0].question) := AnswerRow(batch[0], now)], s, batch[1..], now, t')
    ensures SavedBatch(t, s, batch, now, t')
  {
    hide IsLast;
    forall i: nat | i < |batch| && IsLast(batch, i)
      ensures (s, batch[i].question) in t' && t'[(s, batch[i].question)] == AnswerRow(batch[i], now)
    {
      LastOfRest(batch, i);
      assert i > 0 ==> batch[1..][i - 1] == batch[i];
    }
  }

  lemma {:induction false} SavedOneByOne(t: AnswerTable, s: SessionId, batch: seq<Answer>, now: Time)
    ensures SavedBatch(t, s, batch, now, UpsertEach(t, s, batch, now))
    decreases |batch|
  {
    if batch != [] {
      SavedOneByOne(Upsert(t, s, batch[0], now), s, batch[1..], now);
      SavedFirst(t, s, batch, now, UpsertEach(t, s, batch, now));
    }
  }

  /** What one statement saves is the batch. */
  lemma CollapsedIsSaved(t: AnswerTable, s: SessionId, batch: seq<Answer>, now: Time)
    ensures DistinctQuestions(LastWins(batch))
    ensures SavedBatch(t, s, batch, now, UpsertBatch(t, s, LastWins(batch), now))
  {
    BatchedSaveRefinesSequentialSave(t, s, batch, now);
    SavedOneByOne(t, s, batch, now);
  }

  /** Kept is exactly what no later answer repeats, in the order given. */
  ghost predicate PicksLast(answers: seq<Answer>, positions: seq<nat>, kept: seq<Answer>) {
    Selects(answers, positions, kept) && forall i: nat :: i < |answers| ==> (i in positions <==> IsLast(answers, i))
  }

  lemma {:induction false} LastWinsInOrder(answers: seq<Answer>) returns (positions: seq<nat>)
    ensures PicksLast(answers, positions, LastWins(answers))
  {
    positions := [];
    if answers != [] {
      var rest := LastWinsInOrder(answers[1..]);
      FirstIsLastIff(answers);
      positions := SelectsCons(answers, rest, LastWins(answers[1..]), IsLast(answers, 0));
      forall i: nat | 0 < i < |answers| ensures i in positions <==> IsLast(answers, i) {
        LastInRest(answers, i);
      }
    }
  }

  lemma FirstIsLastIff(answers: seq<Answer>)
    requires answers != []
    ensures IsLast(answers, 0) <==> answers[0].question !in Questions(answers[1..])
  {
    assert forall j :: 0 <= j < |answers| - 1 ==> answers[1..][j] == answers[j + 1];
    if answers[0].question in Questions(answers[1..]) {
      var j :| 0 <= j < |answers| - 1 && answers[1..][j].question == answers[0].question;
      assert answers[j + 1].question == answers[0].question;
    }
  }

  lemma LastInRest(answers: seq<Answer>, i: nat)
    requires 0 < i < |answers|
    ensures IsLast(answers, i) <==> IsLast(answers[1..], i - 1)
  {
    assert forall j :: 0 <= j < |answers| - 1 ==> answers[1..][j] == answers[j + 1];
    if IsLast(answers[1..], i - 1) {
      forall j | i < j < |answers| ensures answers[j].question != answers[i].question {
        assert answers[1..][j - 1] == answers[j];
      }
    }
  }

  /** The swap loop: turns the first `n` elements back to front in place. */
  method ReverseFirst(a: array<Answer>, n: nat)
    requires n <= a.Length
    modifies a
    ensures forall k :: 0 <= k < n ==> a[k] == old(a[n - 1 - k])
    ensures forall k :: n <= k < a.Length ==> a[k] == old(a[k])
  {
    var i, j := 0, n - 1;
    while i < j
      invariant 0 <= i <= n && j == n - 1 - i
      invariant forall k :: 0 <= k < n ==> a[k] == if i <= k <= j then old(a[k]) else old(a[n - 1 - k])
      invariant forall k :: n <= k < a.Length ==> a[k] == old(a[k])
    {
      a[i], a[j] := a[j], a[i];
      i, j := i + 1, j - 1;
    }
  }

  lemma LastWinsCons(answers: seq<Answer>, i: nat)
    requires i < |answers|
    ensures Questions(answers[i..]) == {answers[i].question} + Questions(answers[i + 1..])
    ensures LastWins(answers[i..]) == if answers[i].question in Questions(answers[i + 1..]) then LastWins(answers[i + 1..])
                                      else [answers[i]] + LastWins(answers[i + 1..])
  {
    assert answers[i..][1..] == answers[i + 1..];
    QuestionsCons(answers[i..]);
  }

  /** Scans backwards remembering the questions seen, then reverses what it kept in place. */
  method CollapseSessionAnswersLastWins(answers: seq<Answer>) returns (result: seq<Answer>)
    ensures result == LastWins(answers)
    ensures exists positions :: PicksLast(answers, positions, result)
  {
    var seen: set<QuestionId> := {};
    var collapsed := new Answer[|answers|];
    var n := 0;
    var i := |answers|;
    ghost var kept: seq<Answer> := [];
    while i > 0
      invariant 0 <= i <= |answers| && 0 <= n <= |answers| - i
      invariant seen == Questions(answers[i..])
      invariant kept == LastWins(answers[i..]) && |kept| == n
      invariant forall k :: 0 <= k < n ==> collapsed[k] == kept[n - 1 - k]
    {
      i := i - 1;
      LastWinsCons(answers, i);
      if answers[i].question !in seen {
        seen := seen + {answers[i].question};
        collapsed[n] := answers[i];
        kept := [answers[i]] + kept;
        n := n + 1;
      }
    }
    assert answers[0..] == answers;
    ReverseFirst(collapsed, n);
    result := collapsed[..n];
    ghost var positions := LastWinsInOrder(answers);
  }
}
