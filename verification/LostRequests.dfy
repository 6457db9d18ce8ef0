/**
 What a request left behind can do: by landing after a newer save has been acknowledged it puts an
 older value back. Leaving nothing behind is exactly what keeps every answer.
 */
module LostRequests {
  import opened Prelude
  import opened ExamTables
  import opened ExamTransactions
  import opened AnswerQueue
  import opened Durability

  // ---------- Runs in parts ----------

  lemma RunStep(sys: System, l: Label, rest: seq<Label>, d: Discipline)
    requires Allowed(sys, l, d) && Step(sys, l).Some?
    ensures Run(sys, [l] + rest, d) == Run(Step(sys, l).value, rest, d)
  {
    assert ([l] + rest)[1..] == rest;
  }

  lemma OneStepRun(sys: System, l: Label, d: Discipline)
    requires Allowed(sys, l, d) && Step(sys, l).Some?
    ensures Run(sys, [l], d) == Step(sys, l)
  {
    assert [l] + [] == [l];
    RunStep(sys, l, [], d);
  }

  lemma {:induction false} RunsCompose(sys: System, labels: seq<Label>, rest: seq<Label>, d: Discipline)
    requires Run(sys, labels, d).Some?
    ensures Run(sys, labels + rest, d) == Run(Run(sys, labels, d).value, rest, d)
    decreases |labels|
  {
    hide Step;
    if labels == [] {
      assert labels + rest == rest;
    } else {
      assert (labels + rest)[1..] == labels[1..] + rest;
      RunsCompose(Step(sys, labels[0]).value, labels[1..], rest, d);
    }
  }

  /** Every calm run and every guarded run is a run. */
  lemma {:induction false} RunsAreRuns(sys: System, labels: seq<Label>, d: Discipline)
    requires Run(sys, labels, d).Some?
    ensures Run(sys, labels, AnyRun) == Run(sys, labels, d)
    decreases |labels|
  {
    hide Step;
    if labels != [] {
      RunsAreRuns(Step(sys, labels[0]).value, labels[1..], d);
    }
  }

  // ---------- Letting the chain run dry ----------

  /** Same page, same history; the requests carry what they carried, and those not pending are where they were. */
  ghost predicate OnlyChainMoved(sys: System, end: System) {
    && end.session == sys.session && end.latest == sys.latest && end.memory == sys.memory
    && IsLive(end.db, end.session)
    && |end.flights| == |sys.flights|
    && (forall i :: 0 <= i < |sys.flights| ==> end.flights[i].payload == sys.flights[i].payload)
    && (forall i :: 0 <= i < |sys.flights| && !sys.flights[i].pending ==> end.flights[i] == sys.flights[i])
  }

  predicate SettledUpTo(flights: seq<Flight>, k: nat) {
    forall i :: 0 <= i < k && i < |flights| ==> !flights[i].pending
  }

  /** What settles the promise at the head of the chain, if nothing goes wrong any more. */
  function SettleHead(status: FlightStatus, k: nat): seq<Label> {
    match status
    case Waiting => [Dispatch(k), Deliver(k, None, 0), Ack(k)]
    case InTransit => [Deliver(k, None, 0), Ack(k)]
    case Landed => [Ack(k)]
    case Gone => [Fail(k)]
  }

  function DeliveredAndAcked(sys: System, k: nat): System
    requires k < |sys.flights|
  {
    Acked(Delivered(sys, k, None, 0), k)
  }

  /** Where that leads. */
  function HeadEnd(sys: System, k: nat): System
    requires k < |sys.flights|
  {
    match sys.flights[k].status
    case Waiting => DeliveredAndAcked(Moved(sys, k, InTransit), k)
    case InTransit => DeliveredAndAcked(sys, k)
    case Landed => Acked(sys, k)
    case Gone => Rejected(sys, k)
  }

  lemma AckRun(sys: System, k: nat)
    requires Is(sys, k, Landed) && IsPending(sys, k)
    ensures Run(sys, [Ack(k)], Calm) == Some(Acked(sys, k))
  {
    OneStepRun(sys, Ack(k), Calm);
  }

  lemma DeliverAndAckRun(sys: System, k: nat)
    requires Is(sys, k, InTransit) && IsPending(sys, k)
    ensures Run(sys, [Deliver(k, None, 0), Ack(k)], Calm) == Some(DeliveredAndAcked(sys, k))
  {
    RunStep(sys, Deliver(k, None, 0), [Ack(k)], Calm);
    AckRun(Delivered(sys, k, None, 0), k);
  }

  lemma HeadRuns(sys: System, k: nat)
    requires IsPending(sys, k) && SettledUpTo(sys.flights, k)
    ensures Run(sys, SettleHead(sys.flights[k].status, k), Calm) == Some(HeadEnd(sys, k))
  {
    match sys.flights[k].status
    case Waiting =>
      var sent := Moved(sys, k, InTransit);
      assert Step(sys, Dispatch(k)) == Some(sent);
      DeliverAndAckRun(sent, k);
      RunStep(sys, Dispatch(k), [Deliver(k, None, 0), Ack(k)], Calm);
    case InTransit => DeliverAndAckRun(sys, k);
    case Landed => AckRun(sys, k);
    case Gone => OneStepRun(sys, Fail(k), Calm);
  }

  /** Neither pending nor on its way. */
  predicate Over(f: Flight) {
    !f.pending && !Ahead(f)
  }

  ghost predicate HeadSettled(sys: System, end: System, k: nat) {
    && OnlyChainMoved(sys, end)
    && k < |sys.flights| && Over(end.flights[k])
    && (Ahead(sys.flights[k]) ==> end.flights[k].status == Landed)
    && (forall i :: 0 <= i < |sys.flights| && i != k ==> end.flights[i] == sys.flights[i])
  }

  lemma AckSettles(sys: System, k: nat)
    requires IsLive(sys.db, sys.session) && Is(sys, k, Landed)
    ensures HeadSettled(sys, Acked(sys, k), k)
  {
  }

  lemma DeliverAndAckSettles(sys: System, k: nat)
    requires IsLive(sys.db, sys.session) && k < |sys.flights| && sys.flights[k].pending
    ensures HeadSettled(sys, DeliveredAndAcked(sys, k), k)
  {
    var delivered := Delivered(sys, k, None, 0);
    DeliveredTable(sys, k, None, 0);
    AckSettles(delivered, k);
  }

  lemma HeadSettles(sys: System, k: nat)
    requires IsLive(sys.db, sys.session) && IsPending(sys, k) && SettledUpTo(sys.flights, k)
    ensures HeadSettled(sys, HeadEnd(sys, k), k)
  {
    match sys.flights[k].status
    case Waiting => DeliverAndAckSettles(Moved(sys, k, InTransit), k);
    case InTransit => DeliverAndAckSettles(sys, k);
    case Landed => AckSettles(sys, k);
    case Gone =>
  }

  /** Every request that was pending is over, and has landed unless it was lost before. */
  ghost predicate RanDry(sys: System, end: System) {
    && OnlyChainMoved(sys, end)
    && forall i :: 0 <= i < |sys.flights| && sys.flights[i].pending ==>
                     Over(end.flights[i]) && (Ahead(sys.flights[i]) ==> end.flights[i].status == Landed)
  }

  lemma HeadThenRest(sys: System, mid: System, end: System, k: nat)
    requires HeadSettled(sys, mid, k) && RanDry(mid, end)
    ensures RanDry(sys, end)
  {
    forall i | 0 <= i < |sys.flights|
      ensures end.flights[i].payload == sys.flights[i].payload
              && (sys.flights[i].pending ==> Over(end.flights[i]) && (Ahead(sys.flights[i]) ==> end.flights[i].status == Landed))
              && (!sys.flights[i].pending ==> end.flights[i] == sys.flights[i])
    {
      assert i != k ==> mid.flights[i] == sys.flights[i];
    }
  }

  /** From anywhere the chain can run dry without leaving anything behind; what was left behind stays in transit. */
  lemma {:induction false} ChainRunsDry(sys: System, k: nat) returns (labels: seq<Label>)
    requires IsLive(sys.db, sys.session) && k <= |sys.flights| && SettledUpTo(sys.flights, k)
    ensures Run(sys, labels, Calm).Some? && RanDry(sys, Run(sys, labels, Calm).value) && Reload !in labels
    decreases |sys.flights| - k
  {
    hide Step;
    if k == |sys.flights| {
      labels := [];
    } else if !sys.flights[k].pending {
      labels := ChainRunsDry(sys, k + 1);
    } else {
      HeadSettles(sys, k);
      HeadRuns(sys, k);
      var first := SettleHead(sys.flights[k].status, k);
      var mid := HeadEnd(sys, k);
      var rest := ChainRunsDry(mid, k + 1);
      RunsCompose(sys, first, rest, Calm);
      labels := first + rest;
      HeadThenRest(sys, mid, Run(mid, rest, Calm).value, k);
    }
  }

  // ---------- How an answer is lost ----------

  /** An edit and the save of the page's section, which carries it. */
  function EditAndSave(n: nat, scope: set<QuestionId>, q: QuestionId, answer: string, flagged: bool): seq<Label> {
    [Edit(q, answer, flagged)] + ([SaveDeltas(scope)] + SettleHead(Waiting, n))
  }

  /** A newer edit is saved and acknowledged, and then the request left behind lands. */
  function Overtaking(n: nat, j: nat, scope: set<QuestionId>, q: QuestionId, answer: string, flagged: bool): seq<Label> {
    EditAndSave(n, scope, q, answer, flagged) + [Deliver(j, None, 0)]
  }

  lemma {:induction false} AckedRevisionOfOnly(acked: seq<QueuedAnswer>, edit: QueuedAnswer)
    requires edit in acked && forall e :: e in acked && e.question == edit.question ==> e == edit
    ensures AckedRevision(acked, edit.question) == Some(edit.revision)
  {
    var init, last := acked[..|acked| - 1], acked[|acked| - 1];
    assert acked == init + [last];
    if last.question != edit.question {
      AckedRevisionOfOnly(init, edit);
    }
  }

  /** The queue holds one entry of an edited question, and the save of its section carries it. */
  lemma EditIsSaved(entries: seq<QueuedAnswer>, scope: set<QuestionId>, edit: QueuedAnswer)
    requires edit.question in scope
    ensures var queued := Without(entries, edit.question) + [edit];
            var saved := InScope(queued, scope);
            && edit in saved && AckedRevision(saved, edit.question) == Some(edit.revision)
            && forall e :: e in queued && e.question == edit.question ==> e == edit
  {
    var queued := Without(entries, edit.question) + [edit];
    assert queued[|queued| - 1] == edit;
    AckedRevisionOfOnly(InScope(queued, scope), edit);
  }

  /** The page has saved its newest edit of `q`, and the requests it had before are where they were. */
  ghost predicate EditSaved(sys: System, end: System, q: QuestionId, answer: string) {
    && IsLive(end.db, end.session) && end.session == sys.session
    && |end.flights| == |sys.flights| + 1 && end.flights[..|sys.flights|] == sys.flights
    && q in end.latest && end.latest[q].question == q && end.latest[q].answer == answer && !IsQueued(end, q)
  }

  /** The page has edited `q`, and the save of that edit is chained. */
  function EditChained(sys: System, scope: set<QuestionId>, q: QuestionId, answer: string, flagged: bool): System {
    var edited := Edited(sys, q, answer, flagged);
    Chained(edited, InScope(Entries(edited), scope), true)
  }

  lemma EditChainedCarriesEdit(sys: System, scope: set<QuestionId>, q: QuestionId, answer: string, flagged: bool)
    returns (edit: QueuedAnswer)
    requires q in scope
    ensures edit == QueuedAnswer(q, answer, flagged, LoadState(sys.storage).next)
    ensures var saving := EditChained(sys, scope, q, answer, flagged);
            var payload := saving.flights[|sys.flights|].payload;
            && edit in payload && AckedRevision(payload, q) == Some(edit.revision)
            && (DistinctEntries(Entries(sys)) ==> DistinctEntries(payload))
            && forall e :: e in Entries(saving) && e.question == q ==> e == edit
  {
    edit := QueuedAnswer(q, answer, flagged, LoadState(sys.storage).next);
    EditedStorage(sys, q, answer, flagged);
    EditIsSaved(Entries(sys), scope, edit);
    if DistinctEntries(Entries(sys)) {
      DeltaEntries(Entries(sys), edit);
      InScopeKeepsDistinct(Entries(Edited(sys, q, answer, flagged)), scope);
    }
  }

  /** When a save that carried the newest edit of `q` is acknowledged, `q` leaves the queue. */
  lemma AckedEditLeavesQueue(sys: System, i: nat, q: QuestionId, edit: QueuedAnswer)
    requires i < |sys.flights| && sys.flights[i].acks && edit.question == q
    requires AckedRevision(sys.flights[i].payload, q) == Some(edit.revision)
    requires forall e :: e in Entries(sys) && e.question == q ==> e == edit
    ensures !IsQueued(Acked(sys, i), q)
  {
    AckedStorage(sys, i);
  }

  /** The save that carries the edit goes out, lands and is acknowledged: the question leaves the queue. */
  lemma SavedEditLeavesQueue(sys: System, scope: set<QuestionId>, q: QuestionId, answer: string, flagged: bool)
    requires IsLive(sys.db, sys.session) && q in scope
    ensures EditSaved(sys, HeadEnd(EditChained(sys, scope, q, answer, flagged), |sys.flights|), q, answer)
  {
    var n := |sys.flights|;
    var edit := EditChainedCarriesEdit(sys, scope, q, answer, flagged);
    var sent := Moved(EditChained(sys, scope, q, answer, flagged), n, InTransit);
    DeliveredTable(sent, n, None, 0);
    AckedEditLeavesQueue(Delivered(sent, n, None, 0), n, q, edit);
    assert DeliveredAndAcked(sent, n).flights[..n] == sys.flights;
  }

  lemma EditRuns(sys: System, q: QuestionId, answer: string, flagged: bool, rest: seq<Label>, d: Discipline)
    ensures Run(sys, [Edit(q, answer, flagged)] + rest, d) == Run(Edited(sys, q, answer, flagged), rest, d)
  {
    RunStep(sys, Edit(q, answer, flagged), rest, d);
  }

  lemma SaveRuns(sys: System, scope: set<QuestionId>, rest: seq<Label>, d: Discipline)
    ensures Run(sys, [SaveDeltas(scope)] + rest, d) == Run(Chained(sys, InScope(Entries(sys), scope), true), rest, d)
  {
    RunStep(sys, SaveDeltas(scope), rest, d);
  }

  lemma EditThenSaveRuns(sys: System, scope: set<QuestionId>, q: QuestionId, answer: string, flagged: bool)
    requires SettledUpTo(sys.flights, |sys.flights|)
    ensures Run(sys, EditAndSave(|sys.flights|, scope, q, answer, flagged), Calm)
         == Some(HeadEnd(EditChained(sys, scope, q, answer, flagged), |sys.flights|))
  {
    hide Run, Step, HeadEnd;
    var n := |sys.flights|;
    HeadRuns(EditChained(sys, scope, q, answer, flagged), n);
    SaveRuns(Edited(sys, q, answer, flagged), scope, SettleHead(Waiting, n), Calm);
    EditRuns(sys, q, answer, flagged, [SaveDeltas(scope)] + SettleHead(Waiting, n), Calm);
  }

  lemma EditThenSave(sys: System, scope: set<QuestionId>, q: QuestionId, answer: string, flagged: bool)
    requires IsLive(sys.db, sys.session) && SettledUpTo(sys.flights, |sys.flights|) && q in scope
    ensures var labels := EditAndSave(|sys.flights|, scope, q, answer, flagged);
            Run(sys, labels, Calm).Some? && EditSaved(sys, Run(sys, labels, Calm).value, q, answer)
  {
    EditThenSaveRuns(sys, scope, q, answer, flagged);
    SavedEditLeavesQueue(sys, scope, q, answer, flagged);
  }

  /** Where a save of the queue ends that goes out, lands and is acknowledged. */
  function QueueSaved(sys: System, scope: set<QuestionId>): System {
    HeadEnd(Chained(sys, InScope(Entries(sys), scope), true), |sys.flights|)
  }

  lemma QueueSaveRuns(sys: System, scope: set<QuestionId>)
    requires SettledUpTo(sys.flights, |sys.flights|)
    ensures Run(sys, [SaveDeltas(scope)] + SettleHead(Waiting, |sys.flights|), Calm) == Some(QueueSaved(sys, scope))
  {
    hide Run, Step, HeadEnd;
    HeadRuns(Chained(sys, InScope(Entries(sys), scope), true), |sys.flights|);
    SaveRuns(sys, scope, SettleHead(Waiting, |sys.flights|), Calm);
  }

  lemma SavedEntriesAreAcked(entries: seq<QueuedAnswer>, scope: set<QuestionId>, e: QueuedAnswer)
    requires DistinctEntries(entries) && e in entries
    ensures AckedRevision(InScope(entries, scope), e.question) == Some(e.revision) <==> e.question in scope
  {
    var saved := InScope(entries, scope);
    if e.question in scope {
      forall f | f in saved && f.question == e.question ensures f == e {
        var i :| 0 <= i < |entries| && entries[i] == e;
        var j :| 0 <= j < |entries| && entries[j] == f;
      }
      AckedRevisionOfOnly(saved, e);
    }
  }

  /** A save of a section's queue that meets no trouble brings all of it to the server and leaves none of it queued. */
  lemma SaveEmptiesQueue(sys: System, scope: set<QuestionId>)
    requires IsLive(sys.db, sys.session) && DistinctEntries(Entries(sys)) && SettledUpTo(sys.flights, |sys.flights|)
    ensures var run := Run(sys, [SaveDeltas(scope)] + SettleHead(Waiting, |sys.flights|), Calm);
            && run.Some?
            && var end := run.value;
               && end.session == sys.session && end.memory == sys.memory && end.latest == sys.latest
               && (forall e :: e in Entries(end) <==> e in Entries(sys) && e.question !in scope)
               && forall e :: e in Entries(sys) && e.question in scope ==>
                                && (sys.session, e.question) in end.db.answers
                                && end.db.answers[(sys.session, e.question)].answer.text == Some(e.answer)
                                && end.db.answers[(sys.session, e.question)].answer.flagged == e.flagged
  {
    QueueSaveRuns(sys, scope);
    hide Run, Step, SettleHead, Delivered, Acked;
    var n := |sys.flights|;
    var saved := InScope(Entries(sys), scope);
    var sent := Moved(Chained(sys, saved, true), n, InTransit);
    var landed := Delivered(sent, n, None, 0);
    InScopeKeepsDistinct(Entries(sys), scope);
    DeliveredRows(sent, n, None, 0);
    DeliveryKeepsPage(sent, n);
    AckedStorage(landed, n);
    AckKeepsPage(landed, n);
    forall e | e in Entries(sys)
      ensures AckedRevision(saved, e.question) == Some(e.revision) <==> e.question in scope
    {
      SavedEntriesAreAcked(Entries(sys), scope, e);
    }
  }

  lemma DeliveryKeepsPage(sys: System, k: nat)
    requires k < |sys.flights|
    ensures var landed := Delivered(sys, k, None, 0);
            && landed.session == sys.session && landed.memory == sys.memory && landed.latest == sys.latest
            && landed.storage == sys.storage && |landed.flights| == |sys.flights|
            && landed.flights[k].payload == sys.flights[k].payload && landed.flights[k].acks == sys.flights[k].acks
  {
  }

  lemma AckKeepsPage(sys: System, k: nat)
    requires k < |sys.flights|
    ensures var acked := Acked(sys, k);
            acked.session == sys.session && acked.memory == sys.memory && acked.latest == sys.latest && acked.db == sys.db
  {
  }

  /** The question is not queued, and the server shows an answer that is not the latest. */
  ghost predicate IsLost(sys: System, q: QuestionId) {
    q in sys.latest && !IsQueued(sys, q) && !OnServer(sys, sys.latest[q])
  }

  lemma LostMeansLost(sys: System, q: QuestionId)
    requires IsLost(sys, q)
    ensures !NoAnswerLost(sys)
  {
  }

  /** When the request left behind lands, the server shows its value, which is no longer the latest. */
  lemma LateLandingLoses(sys: System, j: nat, e: QueuedAnswer)
    requires IsLive(sys.db, sys.session) && LeftBehind(sys, j) && DistinctEntries(sys.flights[j].payload)
    requires var q := e.question; q in sys.latest && sys.latest[q].question == q && sys.latest[q].answer != e.answer
    requires e in sys.flights[j].payload && !IsQueued(sys, e.question)
    ensures var end := Delivered(sys, j, None, 0); IsLost(end, e.question) && OnServer(end, e)
  {
    DeliveredRows(sys, j, None, 0);
    var end := Delivered(sys, j, None, 0);
    assert Entries(end) == Entries(sys) && end.latest == sys.latest;
  }

  /**
   Edit, save, acknowledge, and then the older request lands: once the chain has run dry this can always
   follow, and it contains nothing but an ordinary save. The queue is empty of the question and the
   server shows the older value.
   */
  lemma OvertakingLoses(sys: System, j: nat, scope: set<QuestionId>, e: QueuedAnswer, answer: string)
    requires e.question in scope
    requires IsLive(sys.db, sys.session) && SettledUpTo(sys.flights, |sys.flights|)
    requires LeftBehind(sys, j) && DistinctEntries(sys.flights[j].payload) && e in sys.flights[j].payload && answer != e.answer
    ensures var labels := Overtaking(|sys.flights|, j, scope, e.question, answer, e.flagged);
            && Run(sys, labels, Calm).Some?
            && var end := Run(sys, labels, Calm).value;
               IsLost(end, e.question) && OnServer(end, e) && end.latest[e.question].answer == answer
  {
    var q := e.question;
    var saving := EditAndSave(|sys.flights|, scope, q, answer, e.flagged);
    EditThenSave(sys, scope, q, answer, e.flagged);
    var saved := Run(sys, saving, Calm).value;
    assert saved.flights[j] == saved.flights[..|sys.flights|][j] == sys.flights[j];
    LateLandingLoses(saved, j, e);
    DeliverIsCalm(saved, j);
    RunsCompose(sys, saving, [Deliver(j, None, 0)], Calm);
  }

  lemma DeliverIsCalm(sys: System, j: nat)
    requires j < |sys.flights| && sys.flights[j].status == InTransit
    ensures Run(sys, [Deliver(j, None, 0)], Calm) == Some(Delivered(sys, j, None, 0))
  {
    OneStepRun(sys, Deliver(j, None, 0), Calm);
  }

  /** A request left behind can cost an answer, with nothing further going wrong. */
  lemma LeftBehindCanLose(sys: System, j: nat) returns (labels: seq<Label>)
    requires IsLive(sys.db, sys.session) && LeftBehind(sys, j) && DistinctEntries(sys.flights[j].payload)
    ensures Run(sys, labels, Calm).Some? && !NoAnswerLost(Run(sys, labels, Calm).value)
  {
    var e := sys.flights[j].payload[0];
    var first := ChainRunsDry(sys, 0);
    var dry := Run(sys, first, Calm).value;
    var scope := (set entry | entry in Entries(dry) :: entry.question) + {e.question};
    var rest := Overtaking(|dry.flights|, j, scope, e.question, e.answer + "x", e.flagged);
    OvertakingLoses(dry, j, scope, e, e.answer + "x");
    LostMeansLost(Run(dry, rest, Calm).value, e.question);
    RunsCompose(sys, first, rest, Calm);
    labels := first + rest;
  }

  // ---------- Exactly when no answer is lost ----------

  /** No run that leaves nothing behind from here on loses an answer. */
  ghost predicate CalmRunsKeepAnswers(sys: System) {
    forall labels :: Run(sys, labels, Calm).Some? ==> NoAnswerLost(Run(sys, labels, Calm).value)
  }

  /** The chain protects every answer from here on if and only if no request is left behind. */
  lemma CalmRunsKeepAnswersIff(sys: System)
    requires SystemOk(sys)
    ensures CalmRunsKeepAnswers(sys) <==> NothingLeftBehind(sys)
  {
    hide Step;
    if NothingLeftBehind(sys) {
      forall labels | Run(sys, labels, Calm).Some? ensures NoAnswerLost(Run(sys, labels, Calm).value) {
        CalmRunsAreGuarded(sys, labels);
        GuardedRunsKeepOk(sys, labels);
        OkMeansNoAnswerLost(Run(sys, labels, Guarded).value);
      }
    } else {
      var j :| LeftBehind(sys, j);
      var labels := LeftBehindCanLose(sys, j);
    }
  }

  /** A dispatch puts no answer at risk if and only if it keeps to the guard. */
  lemma DispatchIsSafeIff(sys: System, i: nat)
    requires SystemOk(sys) && MayDispatch(sys, i)
    ensures CalmRunsKeepAnswers(Moved(sys, i, InTransit)) <==> NothingLeftBehind(sys)
  {
    var sent := Moved(sys, i, InTransit);
    if NothingLeftBehind(sys) {
      DispatchKeepsOk(sys, i);
      forall j ensures !LeftBehind(sent, j) {
        assert !LeftBehind(sys, j);
      }
      CalmRunsKeepAnswersIff(sent);
    } else {
      var j :| LeftBehind(sys, j);
      assert sent.flights[j] == sys.flights[j];
      var labels := LeftBehindCanLose(sent, j);
    }
  }

  /** Every dispatch of the run puts no answer at risk. */
  ghost predicate DispatchesAreSafe(sys: System, labels: seq<Label>)
    requires Run(sys, labels, AnyRun).Some?
    decreases |labels|
  {
    labels != [] ==>
      var next := Step(sys, labels[0]).value;
      (labels[0].Dispatch? ==> CalmRunsKeepAnswers(next)) && DispatchesAreSafe(next, labels[1..])
  }

  lemma DispatchMoves(sys: System, i: nat)
    requires Step(sys, Dispatch(i)).Some?
    ensures MayDispatch(sys, i) && Step(sys, Dispatch(i)).value == Moved(sys, i, InTransit)
  {
  }

  /** In any run of a page, whatever fails or is reloaded: its dispatches are safe if and only if each keeps to the guard. */
  lemma {:induction false} GuardIsExact(sys: System, labels: seq<Label>)
    requires SystemOk(sys) && Run(sys, labels, AnyRun).Some?
    ensures DispatchesAreSafe(sys, labels) <==> Run(sys, labels, Guarded).Some?
    decreases |labels|
  {
    hide Step;
    if labels != [] {
      var next := Step(sys, labels[0]).value;
      if labels[0].Dispatch? {
        DispatchMoves(sys, labels[0].flight);
        DispatchIsSafeIff(sys, labels[0].flight);
      }
      if Allowed(sys, labels[0], Guarded) {
        StepKeepsOk(sys, labels[0]);
        GuardIsExact(next, labels[1..]);
      }
    }
  }

  // ---------- Runs that lose an answer ----------

  /** A page in order: every promise has settled and nothing is on its way. */
  ghost predicate AtRest(sys: System) {
    SystemOk(sys) && NothingLeftBehind(sys) && SettledUpTo(sys.flights, |sys.flights|)
  }

  /** An answer of `q` is sent. */
  function FirstSave(n: nat, scope: set<QuestionId>, q: QuestionId, first: string, flagged: bool): seq<Label> {
    [Edit(q, first, flagged)] + ([SaveDeltas(scope)] + [Dispatch(n)])
  }

  function FirstSaveSent(sys: System, scope: set<QuestionId>, q: QuestionId, first: string, flagged: bool): (sent: System)
    ensures |sent.flights| == |sys.flights| + 1 && IsPending(sent, |sys.flights|) && Is(sent, |sys.flights|, InTransit)
  {
    Moved(EditChained(sys, scope, q, first, flagged), |sys.flights|, InTransit)
  }

  lemma DispatchRuns(sys: System, i: nat)
    requires MayDispatch(sys, i)
    ensures Run(sys, [Dispatch(i)], AnyRun) == Some(Moved(sys, i, InTransit))
  {
    OneStepRun(sys, Dispatch(i), AnyRun);
  }

  lemma FirstSaveRuns(sys: System, scope: set<QuestionId>, q: QuestionId, first: string, flagged: bool)
    requires SettledUpTo(sys.flights, |sys.flights|)
    ensures Run(sys, FirstSave(|sys.flights|, scope, q, first, flagged), AnyRun) == Some(FirstSaveSent(sys, scope, q, first, flagged))
  {
    hide Run, Step;
    var n := |sys.flights|;
    DispatchRuns(EditChained(sys, scope, q, first, flagged), n);
    SaveRuns(Edited(sys, q, first, flagged), scope, [Dispatch(n)], AnyRun);
    EditRuns(sys, q, first, flagged, [SaveDeltas(scope)] + [Dispatch(n)], AnyRun);
  }

  /** The whole run: the first save's promise fails, the second save is acknowledged, the first request lands. */
  function LosingRun(n: nat, scope: set<QuestionId>, q: QuestionId, first: string, second: string, flagged: bool): seq<Label> {
    FirstSave(n, scope, q, first, flagged) + ([Fail(n)] + Overtaking(n + 1, n, scope, q, second, flagged))
  }

  /** After the run the latest answer to `q` is `latest`, but it is not queued and the server shows `shown`. */
  ghost predicate LosesTo(sys: System, labels: seq<Label>, q: QuestionId, latest: string, shown: string) {
    && Run(sys, labels, AnyRun).Some?
    && var end := Run(sys, labels, AnyRun).value;
       && IsLost(end, q) && end.latest[q].answer == latest
       && (end.session, q) in end.db.answers && end.db.answers[(end.session, q)].answer.text == Some(shown)
  }

  lemma FailRuns(sys: System, i: nat, rest: seq<Label>)
    requires IsPending(sys, i) && !Is(sys, i, Waiting)
    ensures Run(sys, [Fail(i)] + rest, AnyRun) == Run(Rejected(sys, i), rest, AnyRun)
  {
    RunStep(sys, Fail(i), rest, AnyRun);
  }

  /** What there is when the promise of the save that is on its way fails. */
  function FailedSave(sys: System, scope: set<QuestionId>, q: QuestionId, first: string, flagged: bool): System {
    Rejected(FirstSaveSent(sys, scope, q, first, flagged), |sys.flights|)
  }

  lemma FailedSaveIsLeftBehind(sys: System, scope: set<QuestionId>, q: QuestionId, first: string, flagged: bool)
    returns (edit: QueuedAnswer)
    requires IsLive(sys.db, sys.session) && DistinctEntries(Entries(sys)) && SettledUpTo(sys.flights, |sys.flights|) && q in scope
    ensures edit.question == q && edit.answer == first && edit.flagged == flagged
    ensures var n := |sys.flights|;
            var left := FailedSave(sys, scope, q, first, flagged);
            && IsLive(left.db, left.session) && |left.flights| == n + 1 && SettledUpTo(left.flights, n + 1)
            && LeftBehind(left, n) && DistinctEntries(left.flights[n].payload) && edit in left.flights[n].payload
  {
    hide LoadState, InScope, DistinctEntries;
    edit := EditChainedCarriesEdit(sys, scope, q, first, flagged);
  }

  lemma FailedSaveRuns(sys: System, scope: set<QuestionId>, q: QuestionId, first: string, flagged: bool, rest: seq<Label>)
    requires SettledUpTo(sys.flights, |sys.flights|)
    ensures Run(sys, FirstSave(|sys.flights|, scope, q, first, flagged) + ([Fail(|sys.flights|)] + rest), AnyRun)
         == Run(FailedSave(sys, scope, q, first, flagged), rest, AnyRun)
  {
    hide Step, Run, EditChained;
    var n := |sys.flights|;
    FirstSaveRuns(sys, scope, q, first, flagged);
    FailRuns(FirstSaveSent(sys, scope, q, first, flagged), n, rest);
    RunsCompose(sys, FirstSave(n, scope, q, first, flagged), [Fail(n)] + rest, AnyRun);
  }

  /**
   On every page at rest: a save whose promise fails while its request is on its way, then an ordinary
   save of a newer answer, and then the first request lands. The newer answer was acknowledged and is
   nowhere: not in the queue, and the server shows the older one.
   */
  lemma RequestLeftBehindLosesAnswer(sys: System, scope: set<QuestionId>, q: QuestionId, first: string, second: string,
                                     flagged: bool)
    requires AtRest(sys) && first != second && q in scope
    ensures LosesTo(sys, LosingRun(|sys.flights|, scope, q, first, second, flagged), q, second, first)
  {
    hide Step, Run, EditChained, FailedSave, MemoryOk, FlightsOk, AnswersOk, ChainOk, OneInTransit;
    var n := |sys.flights|;
    var edit := FailedSaveIsLeftBehind(sys, scope, q, first, flagged);
    var left := FailedSave(sys, scope, q, first, flagged);
    OvertakingLoses(left, n, scope, edit, second);
    RunsAreRuns(left, Overtaking(n + 1, n, scope, q, second, flagged), Calm);
    FailedSaveRuns(sys, scope, q, first, flagged, Overtaking(n + 1, n, scope, q, second, flagged));
  }

  lemma SnapshotRuns(sys: System, scope: set<QuestionId>, payload: seq<QueuedAnswer>, rest: seq<Label>, d: Discipline)
    requires IsFullPayload(sys, scope, payload)
    ensures Run(sys, [SaveSnapshot(scope, payload)] + rest, d) == Run(Chained(sys, payload, false), rest, d)
  {
    RunStep(sys, SaveSnapshot(scope, payload), rest, d);
  }

  /** A loaded page first saves its memory. */
  function LoadingSave(scope: set<QuestionId>, payload: seq<QueuedAnswer>): seq<Label> {
    [SaveSnapshot(scope, payload)] + SettleHead(Waiting, 0)
  }

  lemma LoadedPageComesToRest(sys: System, scope: set<QuestionId>, payload: seq<QueuedAnswer>)
    requires JustLoaded(sys) && IsFullPayload(sys, scope, payload)
    ensures var end := HeadEnd(Chained(sys, payload, false), 0);
            Run(sys, LoadingSave(scope, payload), Calm) == Some(end) && AtRest(end) && |end.flights| == 1
  {
    hide Step, Run, IsFullPayload;
    JustLoadedIsOk(sys);
    var saving := Chained(sys, payload, false);
    HeadRuns(saving, 0);
    HeadSettles(saving, 0);
    SnapshotRuns(sys, scope, payload, SettleHead(Waiting, 0), Calm);
    CalmRunsAreGuarded(sys, LoadingSave(scope, payload));
    GuardedRunsKeepOk(sys, LoadingSave(scope, payload));
  }

  /** So on every freshly loaded page, once its first full save has settled. */
  lemma LoadedPageLosesAnswer(sys: System, scope: set<QuestionId>, payload: seq<QueuedAnswer>, q: QuestionId, first: string,
                              second: string, flagged: bool)
    requires JustLoaded(sys) && IsFullPayload(sys, scope, payload) && first != second && q in scope
    ensures LosesTo(sys, LoadingSave(scope, payload) + LosingRun(1, scope, q, first, second, flagged), q, second, first)
  {
    hide Step, Run, IsFullPayload, AtRest;
    LoadedPageComesToRest(sys, scope, payload);
    RunsAreRuns(sys, LoadingSave(scope, payload), Calm);
    RequestLeftBehindLosesAnswer(HeadEnd(Chained(sys, payload, false), 0), scope, q, first, second, flagged);
    RunsCompose(sys, LoadingSave(scope, payload), LosingRun(1, scope, q, first, second, flagged), AnyRun);
  }

  lemma ReloadRuns(sys: System, rest: seq<Label>)
    ensures Run(sys, [Reload] + rest, AnyRun) == Run(Reloaded(sys), rest, AnyRun)
  {
    RunStep(sys, Reload, rest, AnyRun);
  }

  /** A page that reloads: once loaded it saves its memory and replays its queue. */
  function Reloading(scope: set<QuestionId>, payload: seq<QueuedAnswer>): seq<Label> {
    [Reload] + ([SaveSnapshot(scope, payload)] + [SaveDeltas(scope)])
  }

  function AfterReload(sys: System, scope: set<QuestionId>, payload: seq<QueuedAnswer>): System {
    var saving := Chained(Reloaded(sys), payload, false);
    Chained(saving, InScope(Entries(saving), scope), true)
  }

  lemma ReloadingRuns(sys: System, scope: set<QuestionId>, payload: seq<QueuedAnswer>)
    requires IsFullPayload(Reloaded(sys), scope, payload)
    ensures Run(sys, Reloading(scope, payload), AnyRun) == Some(AfterReload(sys, scope, payload))
  {
    hide Step, Run, Reloaded, IsFullPayload, InScope, LoadState;
    ReloadRuns(sys, [SaveSnapshot(scope, payload)] + [SaveDeltas(scope)]);
    SnapshotRuns(Reloaded(sys), scope, payload, [SaveDeltas(scope)], AnyRun);
    OneSaveRuns(Chained(Reloaded(sys), payload, false), scope);
  }

  /** The memory's answers of a section can always be listed. */
  lemma {:induction false} PayloadOf(sys: System, questions: set<QuestionId>) returns (payload: seq<QueuedAnswer>)
    requires questions <= sys.memory.Keys && forall q :: q in questions ==> sys.memory[q].question == q
    ensures DistinctEntries(payload)
    ensures forall e :: e in payload <==> e.question in questions && sys.memory[e.question] == e
    decreases |questions|
  {
    if questions == {} {
      payload := [];
    } else {
      var q := Member(questions);
      var rest := PayloadOf(sys, questions - {q});
      payload := rest + [sys.memory[q]];
      assert forall i :: 0 <= i < |rest| ==> rest[i] in rest;
    }
  }

  lemma FullPayloadExists(sys: System, scope: set<QuestionId>) returns (payload: seq<QueuedAnswer>)
    requires forall q :: q in sys.memory ==> sys.memory[q].question == q
    ensures IsFullPayload(sys, scope, payload)
  {
    payload := PayloadOf(sys, sys.memory.Keys * scope);
  }

  lemma SavingLeavesNothing(sys: System, scope: set<QuestionId>, q: QuestionId, answer: string, flagged: bool)
    requires NothingLeftBehind(sys)
    ensures NothingLeftBehind(EditChained(sys, scope, q, answer, flagged))
  {
    forall i ensures !LeftBehind(EditChained(sys, scope, q, answer, flagged), i) {
      assert !LeftBehind(sys, i);
    }
  }

  /** So can those of a page that is reloaded while a save is on its way. */
  lemma ReloadedPageCanSave(sys: System, scope: set<QuestionId>, q: QuestionId, first: string, flagged: bool)
    returns (payload: seq<QueuedAnswer>)
    requires AtRest(sys)
    ensures IsFullPayload(Reloaded(FirstSaveSent(sys, scope, q, first, flagged)), scope, payload)
  {
    hide Step, Run, IsFullPayload;
    var edited := Edited(sys, q, first, flagged);
    EditKeepsOk(sys, q, first, flagged);
    QueuePayloadIsUpToDate(edited, scope);
    ChainedKeepsOk(edited, InScope(Entries(edited), scope), true);
    SavingLeavesNothing(sys, scope, q, first, flagged);
    DispatchKeepsOk(EditChained(sys, scope, q, first, flagged), |sys.flights|);
    ReloadKeepsOk(FirstSaveSent(sys, scope, q, first, flagged));
    payload := FullPayloadExists(Reloaded(FirstSaveSent(sys, scope, q, first, flagged)), scope);
  }

  /** The saves of a reloaded page do not help: an answer can still be lost, with nothing further going wrong. */
  lemma ReloadedPageCanLose(sys: System, scope: set<QuestionId>, q: QuestionId, first: string, flagged: bool,
                            payload: seq<QueuedAnswer>)
    returns (rest: seq<Label>)
    requires AtRest(sys) && q in scope
    requires IsFullPayload(Reloaded(FirstSaveSent(sys, scope, q, first, flagged)), scope, payload)
    ensures var loading := FirstSave(|sys.flights|, scope, q, first, flagged) + Reloading(scope, payload);
            && Run(sys, loading, AnyRun).Some?
            && Run(Run(sys, loading, AnyRun).value, rest, Calm).Some?
            && !NoAnswerLost(Run(Run(sys, loading, AnyRun).value, rest, Calm).value)
  {
    hide Step, Run;
    var edit := EditChainedCarriesEdit(sys, scope, q, first, flagged);
    var sent := FirstSaveSent(sys, scope, q, first, flagged);
    FirstSaveRuns(sys, scope, q, first, flagged);
    ReloadingRuns(sent, scope, payload);
    RunsCompose(sys, FirstSave(|sys.flights|, scope, q, first, flagged), Reloading(scope, payload), AnyRun);
    rest := LeftBehindCanLose(AfterReload(sent, scope, payload), |sys.flights|);
  }

  lemma OneSaveRuns(sys: System, scope: set<QuestionId>)
    ensures Run(sys, [SaveDeltas(scope)], AnyRun) == Some(Chained(sys, InScope(Entries(sys), scope), true))
  {
    OneStepRun(sys, SaveDeltas(scope), AnyRun);
  }

  /** One such page: session 1 is in progress, nothing is stored and nothing was answered. */
  function FreshPage(): System {
    var registration := Registration(1, 1, None, 1, Sitting, Some(0));
    var session := NewSession(1, 1, 1, 1, 0);
    System(1, Missing, map[], Tables(map[1 := registration], map[1 := session], map[]), [], map[])
  }

  lemma FailedRequestLosesAnswer()
    ensures JustLoaded(FreshPage()) && IsFullPayload(FreshPage(), {7}, [])
    ensures LosesTo(FreshPage(), LoadingSave({7}, []) + LosingRun(1, {7}, 7, "A", "B", false), 7, "B", "A")
  {
    hide Step, Run;
    LoadedPageLosesAnswer(FreshPage(), {7}, [], 7, "A", "B", false);
  }
}
