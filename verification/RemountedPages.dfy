/**
 The page mounted again within the app. It does not fetch the session anew but hydrates from the
 response the app still has, which saves do not refresh, and then saves its whole memory. Exactly when
 does that lose nothing?
 */
module RemountedPages {
  import opened Prelude
  import opened ExamTables
  import opened ExamTransactions
  import opened AnswerQueue
  import opened Durability
  import opened LostRequests

  /** The page at rest is left and mounted again; `fetched` are the answers in the response fetched earlier. */
  function Remounted(sys: System, fetched: AnswerTable): System {
    sys.(memory := Hydrated(sys.(db := sys.db.(answers := fetched))))
  }

  /** What a page makes of an answer row: no text is an empty one. */
  function Display(row: AnswerRow): (string, bool) {
    (if row.answer.text.Some? then row.answer.text.value else "", row.answer.flagged)
  }

  /** The response shows a text or a flag for the question. */
  predicate Shows(fetched: AnswerTable, s: SessionId, q: QuestionId) {
    (s, q) in fetched && Display(fetched[(s, q)]) != ("", false)
  }

  /** Of the questions edited here and no longer queued, the response shows nothing or what the server has now. */
  ghost predicate CacheIsCurrent(sys: System, fetched: AnswerTable) {
    forall q :: q in sys.latest && !IsQueued(sys, q) && Shows(fetched, sys.session, q) ==>
                  (sys.session, q) in sys.db.answers
                  && Display(fetched[(sys.session, q)]) == Display(sys.db.answers[(sys.session, q)])
  }

  /** The memory of the mounted page, question by question. */
  lemma RemountedMemory(sys: System, fetched: AnswerTable, q: QuestionId)
    requires QueueOk(sys)
    ensures var memory := Remounted(sys, fetched).memory;
            && (q in memory <==> IsQueued(sys, q) || Shows(fetched, sys.session, q))
            && (q in memory ==> memory[q].question == q)
            && (q in memory && IsQueued(sys, q) ==> IsLatest(sys, memory[q]))
            && (q in memory && !IsQueued(sys, q) ==>
                  && (memory[q].answer, memory[q].flagged) == Display(fetched[(sys.session, q)])
                  && (q in sys.latest && (sys.latest[q].answer, sys.latest[q].flagged) == Display(fetched[(sys.session, q)])
                      ==> memory[q] == sys.latest[q])
                  && (q !in sys.latest ==> memory[q].revision == 0))
  {
    var seen := sys.(db := sys.db.(answers := fetched));
    var queued := EntryFor(Entries(sys), q);
    assert Entries(seen) == Entries(sys);
    assert HasContent(seen, q) <==> Shows(fetched, sys.session, q);
    if queued.Some? {
      assert queued.value in Entries(sys);
    }
    if HasContent(seen, q) {
      assert (sys.session, q) in fetched;
    }
  }
  lemma CurrentCacheKeepsOk(sys: System, fetched: AnswerTable)
    requires SystemOk(sys) && CacheIsCurrent(sys, fetched)
    ensures SystemOk(Remounted(sys, fetched))
  {
    hide Hydrated;
    var mounted := Remounted(sys, fetched);
    OkMeansNoAnswerLost(sys);
    forall q | q in mounted.memory
      ensures mounted.memory[q].question == q
      ensures if q in sys.latest then mounted.memory[q] == sys.latest[q] else mounted.memory[q].revision == 0
    {
      RemountedMemory(sys, fetched, q);
      if IsQueued(sys, q) {
        assert IsLatest(sys, mounted.memory[q]);
      }
    }
    MemoryChangesNoAnswer(sys, mounted);
  }

  /** A full save that settles puts its values into the table; queue and edits are as before. */
  lemma SettledSaveIsThere(sys: System, payload: seq<QueuedAnswer>)
    requires IsLive(sys.db, sys.session) && DistinctEntries(payload)
    ensures var end := HeadEnd(Chained(sys, payload, false), |sys.flights|);
            && end.storage == sys.storage && end.latest == sys.latest && end.session == sys.session
            && forall e :: e in payload ==> OnServer(end, e)
  {
    DeliveredRows(Moved(Chained(sys, payload, false), |sys.flights|, InTransit), |sys.flights|, None, 0);
  }

  /** The mounted page's own full save puts an older answer in the place of a newer one. */
  lemma StaleCacheLoses(sys: System, fetched: AnswerTable, q: QuestionId) returns (labels: seq<Label>)
    requires AtRest(sys) && q in sys.latest && !IsQueued(sys, q) && Shows(fetched, sys.session, q)
    requires Display(fetched[(sys.session, q)]) != (sys.latest[q].answer, sys.latest[q].flagged)
    ensures Run(Remounted(sys, fetched), labels, Calm).Some?
    ensures !NoAnswerLost(Run(Remounted(sys, fetched), labels, Calm).value)
  {
    hide Step, Run, Hydrated, HeadEnd;
    var mounted := Remounted(sys, fetched);
    forall k | k in mounted.memory ensures mounted.memory[k].question == k {
      RemountedMemory(sys, fetched, k);
    }
    RemountedMemory(sys, fetched, q);
    var scope := mounted.memory.Keys;
    var payload := FullPayloadExists(mounted, scope);
    var shown := mounted.memory[q];
    assert !IsBlank(shown) && shown in payload;
    var n := |sys.flights|;
    var end := HeadEnd(Chained(mounted, payload, false), n);
    labels := [SaveSnapshot(scope, payload)] + SettleHead(Waiting, n);
    HeadRuns(Chained(mounted, payload, false), n);
    SnapshotRuns(mounted, scope, payload, SettleHead(Waiting, n), Calm);
    SettledSaveIsThere(mounted, payload);
    assert OnServer(end, shown) && IsLost(end, q);
    LostMeansLost(end, q);
  }

  /**
   A page at rest that is left and mounted again: no calm run from there loses an answer if and only if
   the response it hydrates from is current.
   */
  lemma RemountKeepsAnswersIff(sys: System, fetched: AnswerTable)
    requires AtRest(sys)
    ensures CalmRunsKeepAnswers(Remounted(sys, fetched)) <==> CacheIsCurrent(sys, fetched)
  {
    hide Step, Run, Hydrated;
    OkMeansNoAnswerLost(sys);
    if CacheIsCurrent(sys, fetched) {
      CurrentCacheKeepsOk(sys, fetched);
      forall i ensures !LeftBehind(Remounted(sys, fetched), i) {
        assert !LeftBehind(sys, i);
      }
      CalmRunsKeepAnswersIff(Remounted(sys, fetched));
    } else {
      var q :| q in sys.latest && !IsQueued(sys, q) && Shows(fetched, sys.session, q)
               && !((sys.session, q) in sys.db.answers
                    && Display(fetched[(sys.session, q)]) == Display(sys.db.answers[(sys.session, q)]));
      assert OnServer(sys, sys.latest[q]);
      var labels := StaleCacheLoses(sys, fetched, q);
    }
  }

  lemma SavedEditIsAtRest(sys: System, scope: set<QuestionId>, q: QuestionId, answer: string, flagged: bool)
    requires AtRest(sys) && q in scope
    ensures Run(sys, EditAndSave(|sys.flights|, scope, q, answer, flagged), Calm).Some?
    ensures var saved := Run(sys, EditAndSave(|sys.flights|, scope, q, answer, flagged), Calm).value;
            AtRest(saved) && EditSaved(sys, saved, q, answer)
  {
    hide Step, Run, EditChained;
    var labels := EditAndSave(|sys.flights|, scope, q, answer, flagged);
    EditThenSave(sys, scope, q, answer, flagged);
    EditThenSaveRuns(sys, scope, q, answer, flagged);
    CalmRunsAreGuarded(sys, labels);
    GuardedRunsKeepOk(sys, labels);
    SettledEditIsDry(sys, scope, q, answer, flagged);
  }

  lemma SettledEditIsDry(sys: System, scope: set<QuestionId>, q: QuestionId, answer: string, flagged: bool)
    requires IsLive(sys.db, sys.session) && SettledUpTo(sys.flights, |sys.flights|)
    ensures var end := HeadEnd(EditChained(sys, scope, q, answer, flagged), |sys.flights|);
            SettledUpTo(end.flights, |end.flights|)
  {
    HeadSettles(EditChained(sys, scope, q, answer, flagged), |sys.flights|);
  }

  /**
   So on every page at rest: an answer that was there when the page was loaded is changed, saved and
   acknowledged; then the page is left and mounted again, and nothing else has to go wrong.
   */
  lemma ChangedAnswerCanBeLost(sys: System, scope: set<QuestionId>, q: QuestionId, answer: string, flagged: bool)
    requires AtRest(sys) && q in scope && Shows(sys.db.answers, sys.session, q)
    requires Display(sys.db.answers[(sys.session, q)]).0 != answer
    ensures Run(sys, EditAndSave(|sys.flights|, scope, q, answer, flagged), Calm).Some?
    ensures var saved := Run(sys, EditAndSave(|sys.flights|, scope, q, answer, flagged), Calm).value;
            AtRest(saved) && !CalmRunsKeepAnswers(Remounted(saved, sys.db.answers))
  {
    hide Step, Run, Remounted, EditAndSave, CalmRunsKeepAnswers;
    SavedEditIsAtRest(sys, scope, q, answer, flagged);
    var saved := Run(sys, EditAndSave(|sys.flights|, scope, q, answer, flagged), Calm).value;
    OkMeansNoAnswerLost(saved);
    assert OnServer(saved, saved.latest[q]);
    RemountKeepsAnswersIff(saved, sys.db.answers);
  }
}
