/**
 The export's question rows: fetched for at most a hundred sessions at a time, collected by session,
 and written into the ranked rows in place.
 */
module ExportRows {
  import opened Prelude
  import opened ExamTables

  datatype QuestionRow = QuestionRow(question: QuestionId, answer: Option<string>, points: Option<Points>)

  datatype ExportRow = ExportRow(session: SessionId, rank: nat, questionRows: seq<QuestionRow>)

  /** A fetched row. */
  datatype Fetched = Fetched(session: SessionId, row: QuestionRow)

  const EXPORT_ANSWER_BATCH_SIZE: nat := 100

  /** The rows of one session, in the order they came. */
  function For(rows: seq<Fetched>, s: SessionId): seq<QuestionRow> {
    if rows == [] then []
    else
      var last := rows[|rows| - 1];
      For(rows[..|rows| - 1], s) + if last.session == s then [last.row] else []
  }

  /**
   A batch query for up to a hundred sessions answers each session asked for with that session's rows
   in question order, and nothing else; the order of the sessions is the database's.
   */
  ghost predicate AnswersBatches(fetch: seq<SessionId> -> seq<Fetched>, expected: SessionId -> seq<QuestionRow>) {
    forall ids, s :: Distinct(ids) && |ids| <= 100 ==> For(fetch(ids), s) == if s in ids then expected(s) else []
  }

  function Get(m: map<SessionId, seq<QuestionRow>>, s: SessionId): seq<QuestionRow> {
    if s in m then m[s] else []
  }

  /** The sessions of the next batch are new. */
  lemma NextBatch(ids: seq<SessionId>, start: nat, end: nat)
    requires Distinct(ids) && start <= end <= |ids|
    ensures Distinct(ids[start..end])
    ensures forall s :: s in ids[..end] <==> s in ids[..start] || s in ids[start..end]
    ensures forall s :: s in ids[start..end] ==> s !in ids[..start]
  {
    assert ids[..end] == ids[..start] + ids[start..end];
    forall s | s in ids[start..end] ensures s !in ids[..start] {
      var j :| 0 <= j < end - start && ids[start..end][j] == s;
      assert ids[start + j] == s;
    }
  }

  /** One more row for its session. */
  function WithRow(m: map<SessionId, seq<QuestionRow>>, f: Fetched): map<SessionId, seq<QuestionRow>> {
    m[f.session := Get(m, f.session) + [f.row]]
  }

  function WithRows(m: map<SessionId, seq<QuestionRow>>, rows: seq<Fetched>): map<SessionId, seq<QuestionRow>> {
    if rows == [] then m else WithRow(WithRows(m, rows[..|rows| - 1]), rows[|rows| - 1])
  }

  lemma {:induction false} RowsAreAppended(m: map<SessionId, seq<QuestionRow>>, rows: seq<Fetched>, s: SessionId)
    ensures Get(WithRows(m, rows), s) == Get(m, s) + For(rows, s)
  {
    if rows != [] {
      RowsAreAppended(m, rows[..|rows| - 1], s);
    }
  }

  /** The scan of one batch's rows. */
  method Collect(collected: map<SessionId, seq<QuestionRow>>, rows: seq<Fetched>) returns (r: map<SessionId, seq<QuestionRow>>)
    ensures forall s :: Get(r, s) == Get(collected, s) + For(rows, s)
  {
    r := collected;
    for k := 0 to |rows|
      invariant r == WithRows(collected, rows[..k])
    {
      assert rows[..k + 1][..k] == rows[..k];
      r := r[rows[k].session := Get(r, rows[k].session) + [rows[k].row]];
    }
    assert rows[..|rows|] == rows;
    forall s ensures Get(r, s) == Get(collected, s) + For(rows, s) {
      RowsAreAppended(collected, rows, s);
    }
  }

  /** Everything expected of these sessions has been collected, and nothing else. */
  ghost predicate HasCollected(m: map<SessionId, seq<QuestionRow>>, ids: seq<SessionId>, expected: SessionId -> seq<QuestionRow>) {
    forall s :: Get(m, s) == if s in ids then expected(s) else []
  }

  lemma BatchCollected(before: map<SessionId, seq<QuestionRow>>, after: map<SessionId, seq<QuestionRow>>, rows: seq<Fetched>,
                       ids: seq<SessionId>, start: nat, end: nat, expected: SessionId -> seq<QuestionRow>)
    requires Distinct(ids) && start <= end <= |ids| && HasCollected(before, ids[..start], expected)
    requires forall s :: For(rows, s) == if s in ids[start..end] then expected(s) else []
    requires forall s :: Get(after, s) == Get(before, s) + For(rows, s)
    ensures HasCollected(after, ids[..end], expected)
  {
    NextBatch(ids, start, end);
    forall s ensures Get(after, s) == if s in ids[..end] then expected(s) else [] {
      assert Get(before, s) == if s in ids[..start] then expected(s) else [];
      assert For(rows, s) == if s in ids[start..end] then expected(s) else [];
    }
  }

  /** The final loop over the ranked rows. */
  method WriteQuestionRows(results: array<ExportRow>, collected: map<SessionId, seq<QuestionRow>>)
    modifies results
    ensures forall i :: 0 <= i < results.Length ==>
                          results[i] == old(results[i]).(questionRows := Get(collected, old(results[i]).session))
  {
    for i := 0 to results.Length
      invariant forall k :: i <= k < results.Length ==> results[k] == old(results[k])
      invariant forall k :: 0 <= k < i ==> results[k] == old(results[k]).(questionRows := Get(collected, old(results[k]).session))
    {
      results[i] := results[i].(questionRows := Get(collected, results[i].session));
    }
  }

  /** At most a hundred sessions a query, and no more queries than that takes. */
  method FetchInBatches(sessionIDs: seq<SessionId>, fetch: seq<SessionId> -> seq<Fetched>, ghost expected: SessionId -> seq<QuestionRow>)
    returns (answersBySession: map<SessionId, seq<QuestionRow>>, ghost queries: nat)
    requires Distinct(sessionIDs) && AnswersBatches(fetch, expected)
    ensures HasCollected(answersBySession, sessionIDs, expected)
    ensures 100 * queries - 100 < |sessionIDs| <= 100 * queries
  {
    answersBySession := map[];
    queries := 0;
    var start := 0;
    while start < |sessionIDs|
      invariant 0 <= start <= |sessionIDs|
      invariant HasCollected(answersBySession, sessionIDs[..start], expected)
      invariant start == |sessionIDs| || start == 100 * queries
      invariant 100 * queries - 100 < |sessionIDs| && start <= 100 * queries
    {
      var end := start + EXPORT_ANSWER_BATCH_SIZE;
      if end > |sessionIDs| {
        end := |sessionIDs|;
      }
      NextBatch(sessionIDs, start, end);
      var before := answersBySession;
      var rows := fetch(sessionIDs[start..end]);
      answersBySession := Collect(before, rows);
      BatchCollected(before, answersBySession, rows, sessionIDs, start, end, expected);
      queries := queries + 1;
      start := end;
    }
    assert sessionIDs[..start] == sessionIDs;
  }

  /** Every row gets exactly its own session's questions, as if they had been fetched all at once. */
  method AttachDetailedExportQuestionRows(results: array<ExportRow>, sessionIDs: seq<SessionId>,
                                          fetch: seq<SessionId> -> seq<Fetched>, ghost expected: SessionId -> seq<QuestionRow>)
    requires |sessionIDs| == results.Length && Distinct(sessionIDs)
    requires forall i :: 0 <= i < results.Length ==> results[i].session == sessionIDs[i]
    requires AnswersBatches(fetch, expected)
    modifies results
    ensures forall i :: 0 <= i < results.Length ==>
                          results[i] == old(results[i]).(questionRows := expected(old(results[i]).session))
  {
    if results.Length == 0 {
      return;
    }
    var answersBySession, _ := FetchInBatches(sessionIDs, fetch, expected);
    forall i | 0 <= i < results.Length ensures Get(answersBySession, results[i].session) == expected(results[i].session) {
      var s := sessionIDs[i];
      assert s in sessionIDs && Get(answersBySession, s) == expected(s);
    }
    WriteQuestionRows(results, answersBySession);
  }
}
