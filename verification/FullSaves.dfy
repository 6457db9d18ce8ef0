/**
 The page's full save. As long as the page is not reloaded its memory holds every latest edit, whatever
 the server has lost, and a save of that memory puts things right: in every run, once it has landed.
 */
module FullSaves {
  import opened Prelude
  import opened ExamTables
  import opened ExamTransactions
  import opened AnswerQueue
  import opened Durability
  import opened LostRequests

  /** The page still knows every latest edit, whatever the server holds. */
  ghost predicate Remembers(sys: System) {
    && IsLive(sys.db, sys.session) && QueueOk(sys) && MemoryOk(sys) && FlightsOk(sys) && ChainOk(sys.flights)
    && forall q :: q in sys.latest ==> q in sys.memory
  }

  ghost predicate SamePayloads(sys: System, sys': System) {
    && sys'.latest == sys.latest && |sys'.flights| == |sys.flights|
    && forall i :: 0 <= i < |sys.flights| ==> sys'.flights[i].payload == sys.flights[i].payload
  }

  lemma SamePayloadsKeepFlights(sys: System, sys': System)
    requires FlightsOk(sys) && SamePayloads(sys, sys')
    ensures FlightsOk(sys')
  {
    forall i, e ensures Carries(sys', i, e) <==> Carries(sys, i, e) {
    }
    forall e ensures FromHistory(sys', e) <==> FromHistory(sys, e) {
    }
  }

  lemma MovingKeepsMemory(sys: System, sys': System)
    requires Remembers(sys) && SamePayloads(sys, sys') && ChainOk(sys'.flights)
    requires sys'.storage == sys.storage && sys'.memory == sys.memory && IsLive(sys'.db, sys'.session)
    ensures Remembers(sys')
  {
    SamePayloadsKeepFlights(sys, sys');
  }

  lemma DeliverIsRemembered(sys: System, i: nat, position: Option<int>, now: Time)
    requires Remembers(sys) && Is(sys, i, InTransit)
    ensures Remembers(Delivered(sys, i, position, now))
  {
    DeliveredTable(sys, i, position, now);
    MovingKeepsMemory(sys, Delivered(sys, i, position, now));
  }

  /** A request is sent, is lost, fails, or is no longer listened to. */
  lemma MovedIsRemembered(sys: System, l: Label)
    requires Remembers(sys) && Step(sys, l).Some? && (l.Dispatch? || l.LoseRequest? || l.StopListening? || l.Fail?)
    ensures Remembers(Step(sys, l).value)
  {
    MovingKeepsMemory(sys, Step(sys, l).value);
  }

  lemma EditIsRemembered(sys: System, q: QuestionId, answer: string, flagged: bool)
    requires Remembers(sys)
    ensures Remembers(Edited(sys, q, answer, flagged))
  {
    EditKeepsQueue(sys, q, answer, flagged);
    EditKeepsMemory(sys, q, answer, flagged);
    EditKeepsFlights(sys, q, answer, flagged);
  }

  lemma SaveIsRemembered(sys: System, payload: seq<QueuedAnswer>, acks: bool)
    requires Remembers(sys) && UpToDate(sys, payload)
    ensures Remembers(Chained(sys, payload, acks))
  {
    hide FlightsOk, LoadState, UpToDate;
    ChainedKeepsFlights(sys, payload, acks);
  }

  lemma AckKeepsQueue(sys: System, i: nat)
    requires QueueOk(sys) && i < |sys.flights|
    ensures QueueOk(Acked(sys, i))
  {
    AckedStorage(sys, i);
    RemainingKeepsDistinct(Entries(sys), sys.flights[i].payload);
    forall e | e in Entries(Acked(sys, i)) ensures IsLatest(Acked(sys, i), e) {
      assert IsLatest(sys, e);
    }
  }

  lemma AckIsRemembered(sys: System, i: nat)
    requires Remembers(sys) && Is(sys, i, Landed)
    ensures Remembers(Acked(sys, i))
  {
    AckKeepsQueue(sys, i);
    SamePayloadsKeepFlights(sys, Acked(sys, i));
  }

  /** Only a reload can make the page forget an edit. */
  lemma StepIsRemembered(sys: System, l: Label)
    requires Remembers(sys) && Step(sys, l).Some? && l != Reload
    ensures Remembers(Step(sys, l).value)
  {
    match l
    case Edit(q, answer, flagged) => EditIsRemembered(sys, q, answer, flagged);
    case SaveDeltas(scope) =>
      QueuePayloadIsUpToDate(sys, scope);
      SaveIsRemembered(sys, InScope(Entries(sys), scope), true);
    case SaveSnapshot(scope, payload) =>
      FullPayloadIsUpToDate(sys, scope, payload);
      SaveIsRemembered(sys, payload, false);
    case Deliver(i, position, now) => DeliverIsRemembered(sys, i, position, now);
    case Ack(i) => AckIsRemembered(sys, i);
    case Reload =>
    case _ => MovedIsRemembered(sys, l);
  }

  lemma {:induction false} RunIsRemembered(sys: System, labels: seq<Label>, d: Discipline)
    requires Remembers(sys) && Run(sys, labels, d).Some? && Reload !in labels
    ensures Remembers(Run(sys, labels, d).value)
    decreases |labels|
  {
    hide Step;
    if labels != [] {
      StepIsRemembered(sys, labels[0]);
      RunIsRemembered(Step(sys, labels[0]).value, labels[1..], d);
    }
  }

  /** A page that is not reloaded remembers: however many of its requests fail, are lost or overtake each other. */
  lemma PageRemembers(sys: System, labels: seq<Label>)
    requires JustLoaded(sys) && Run(sys, labels, AnyRun).Some? && Reload !in labels
    ensures Remembers(Run(sys, labels, AnyRun).value)
  {
    JustLoadedIsOk(sys);
    forall q | q in sys.latest ensures q in sys.memory {
      var e :| e in Entries(sys) && e.question == q;
      assert EntryFor(Entries(sys), q).Some?;
    }
    RunIsRemembered(sys, labels, AnyRun);
  }

  // ---------- What the full save covers ----------

  /**
   Request `n` carries every latest value that is not queued any more and every latest value an earlier
   request carried; what is behind it waits.
   */
  ghost predicate Covers(sys: System, n: nat) {
    && n < |sys.flights| && Remembers(sys) && NothingLeftBehind(sys)
    && (forall q :: q in sys.latest && !IsQueued(sys, q) ==> sys.latest[q] in sys.flights[n].payload)
    && (forall i, e :: i < n && Carries(sys, i, e) && IsLatest(sys, e) ==> e in sys.flights[n].payload)
    && (forall i :: n < i < |sys.flights| ==> sys.flights[i].status == Waiting)
  }

  /** It waits for its turn, or it is on its way alone. */
  ghost predicate Coming(sys: System, n: nat) {
    && Covers(sys, n)
    && (|| sys.flights[n].status == Waiting
        || (Writing(sys.flights[n]) && SettledUpTo(sys.flights, n)))
  }

  lemma FullSaveCovers(sys: System, payload: seq<QueuedAnswer>)
    requires Remembers(Chained(sys, payload, false)) && NothingLeftBehind(sys)
    requires forall q :: q in sys.latest ==> sys.latest[q] in payload
    ensures Coming(Chained(sys, payload, false), |sys.flights|)
  {
    var saving := Chained(sys, payload, false);
    forall i ensures !LeftBehind(saving, i) {
      assert !LeftBehind(sys, i);
    }
    forall e | IsLatest(saving, e) ensures e in payload {
      assert IsLatest(sys, e);
    }
  }

  lemma EditKeepsCover(sys: System, n: nat, q: QuestionId, answer: string, flagged: bool)
    requires Covers(sys, n) && Remembers(Edited(sys, q, answer, flagged)) && NothingLeftBehind(Edited(sys, q, answer, flagged))
    ensures Covers(Edited(sys, q, answer, flagged), n)
  {
    var sys' := Edited(sys, q, answer, flagged);
    forall k | k in sys'.latest && !IsQueued(sys', k) ensures sys'.latest[k] in sys'.flights[n].payload {
      EditQueues(sys, q, answer, flagged, k);
    }
    EditKeepsFlights(sys, q, answer, flagged);
    forall i, e | i < n && Carries(sys', i, e) && IsLatest(sys', e) ensures e in sys'.flights[n].payload {
      assert Carries(sys, i, e) && IsLatest(sys, e);
    }
  }

  lemma AckKeepsCover(sys: System, n: nat, i: nat)
    requires Covers(sys, n) && i < n && Remembers(Acked(sys, i)) && NothingLeftBehind(Acked(sys, i))
    ensures Covers(Acked(sys, i), n)
  {
    var sys' := Acked(sys, i);
    AckedStorage(sys, i);
    forall q | q in sys'.latest && !IsQueued(sys', q) ensures sys'.latest[q] in sys'.flights[n].payload {
      if IsQueued(sys, q) {
        var e :| e in Entries(sys) && e.question == q;
        assert e !in Entries(sys') && IsLatest(sys, e);
        var f :| f in sys.flights[i].payload && f.question == q && f.revision == e.revision;
        assert Carries(sys, i, f) && FromHistory(sys, f);
      }
    }
    forall j, e | j < n && Carries(sys', j, e) && IsLatest(sys', e) ensures e in sys'.flights[n].payload {
      assert Carries(sys, j, e) && IsLatest(sys, e);
    }
  }

  /** Any other step changes neither the queue nor the edits nor what the requests up to `n` carry. */
  lemma QuietStepKeepsCover(sys: System, sys': System, n: nat)
    requires Covers(sys, n) && Remembers(sys') && NothingLeftBehind(sys')
    requires sys'.storage == sys.storage && sys'.latest == sys.latest && |sys'.flights| >= |sys.flights|
    requires forall i :: 0 <= i <= n ==> sys'.flights[i].payload == sys.flights[i].payload
    requires forall i :: n < i < |sys'.flights| ==> sys'.flights[i].status == Waiting
    ensures Covers(sys', n)
  {
    forall q ensures IsQueued(sys', q) <==> IsQueued(sys, q) {
    }
    forall j, e | j < n && Carries(sys', j, e) && IsLatest(sys', e) ensures e in sys'.flights[n].payload {
      assert Carries(sys, j, e) && IsLatest(sys, e);
    }
  }
  // ---------- The full save repairs ----------

  /** When the covering request lands, every latest value it carries is settled. */
  lemma CoveredIsSettled(sys: System, n: nat, position: Option<int>, now: Time, e: QueuedAnswer)
    requires Coming(sys, n) && Writing(sys.flights[n]) && IsLatest(sys, e) && e in sys.flights[n].payload
    ensures Settled(Delivered(sys, n, position, now), e.question)
  {
    var sys' := Delivered(sys, n, position, now);
    DeliveredRows(sys, n, position, now);
    forall k, f | Carries(sys', k, f) && Ahead(sys'.flights[k]) && f.question == e.question ensures f == sys.latest[e.question] {
      assert Carries(sys, k, f) && Carries(sys, n, e) && FromHistory(sys, f) && !LeftBehind(sys, k);
      assert n < k;
    }
  }

  lemma LandingPutsInOrder(sys: System, n: nat, position: Option<int>, now: Time)
    requires Coming(sys, n) && Writing(sys.flights[n]) && Remembers(Delivered(sys, n, position, now))
    ensures SystemOk(Delivered(sys, n, position, now))
  {
    var sys' := Delivered(sys, n, position, now);
    forall q | q in sys'.latest && !IsQueued(sys', q) ensures Settled(sys', q) {
      assert !IsQueued(sys, q);
      CoveredIsSettled(sys, n, position, now, sys.latest[q]);
    }
    forall i, e | Carries(sys', i, e) && sys'.flights[i].status == Landed && IsLatest(sys', e) ensures Settled(sys', e.question) {
      assert Carries(sys, i, e) && IsLatest(sys, e);
      CoveredIsSettled(sys, n, position, now, e);
    }
    forall i | 0 <= i < |sys'.flights| ensures !Writing(sys'.flights[i]) {
      assert !LeftBehind(sys, i);
    }
  }

  /** A full save without a value can only cover a page that has edited nothing before it. */
  lemma EmptySaveIsInOrder(sys: System, n: nat)
    requires Coming(sys, n) && MayDispatch(sys, n) && sys.flights[n].payload == [] && Remembers(Moved(sys, n, InTransit))
    ensures SystemOk(Moved(sys, n, InTransit))
  {
    var sys' := Moved(sys, n, InTransit);
    forall q | q in sys'.latest ensures IsQueued(sys', q) {
      assert IsQueued(sys, q);
    }
    forall i, e | Carries(sys', i, e) && sys'.flights[i].status == Landed ensures !IsLatest(sys', e) {
      assert Carries(sys, i, e) && i < n;
    }
    forall i | 0 <= i < |sys'.flights| ensures !Writing(sys'.flights[i]) {
      assert !LeftBehind(sys, i);
    }
  }

  /** Where a step can lead while the full save is coming: it still is, or the page is in order, or the save is lost. */
  ghost predicate Onward(sys: System, n: nat) {
    || Coming(sys, n)
    || (SystemOk(sys) && NothingLeftBehind(sys))
    || Is(sys, n, Gone)
  }

  lemma ComingIsPending(sys: System, n: nat)
    requires Coming(sys, n)
    ensures sys.flights[n].pending
  {
    assert !LeftBehind(sys, n);
  }

  lemma ChainedKeepsComing(sys: System, n: nat, payload: seq<QueuedAnswer>, acks: bool)
    requires Coming(sys, n) && Remembers(Chained(sys, payload, acks)) && NothingLeftBehind(Chained(sys, payload, acks))
    ensures Coming(Chained(sys, payload, acks), n)
  {
    QuietStepKeepsCover(sys, Chained(sys, payload, acks), n);
  }

  lemma EditKeepsComing(sys: System, n: nat, q: QuestionId, answer: string, flagged: bool)
    requires Coming(sys, n) && Remembers(Edited(sys, q, answer, flagged)) && NothingLeftBehind(Edited(sys, q, answer, flagged))
    ensures Coming(Edited(sys, q, answer, flagged), n)
  {
    EditKeepsCover(sys, n, q, answer, flagged);
  }

  lemma AckKeepsComing(sys: System, n: nat, i: nat)
    requires Coming(sys, n) && Is(sys, i, Landed) && Remembers(Acked(sys, i)) && NothingLeftBehind(Acked(sys, i))
    ensures Coming(Acked(sys, i), n)
  {
    AckKeepsCover(sys, n, i);
  }

  /** Another request moves, or this one sets out. */
  lemma MoveKeepsComing(sys: System, l: Label, n: nat)
    requires Coming(sys, n) && Allowed(sys, l, Calm) && Step(sys, l).Some?
    requires l.Dispatch? || l.Deliver? || l.LoseRequest? || l.StopListening? || l.Fail?
    requires !(l.Deliver? && l.flight == n) && !(l.LoseRequest? && l.flight == n)
    requires !(l.Dispatch? && l.flight == n && sys.flights[n].payload == [])
    requires Remembers(Step(sys, l).value) && NothingLeftBehind(Step(sys, l).value)
    ensures Coming(Step(sys, l).value, n)
  {
    hide QueueOk, MemoryOk, FlightsOk;
    var sys' := Step(sys, l).value;
    ComingIsPending(sys, n);
    forall i | n < i < |sys'.flights| ensures sys'.flights[i].status == Waiting {
    }
    QuietStepKeepsCover(sys, sys', n);
  }

  lemma ComingStep(sys: System, l: Label, n: nat)
    requires Coming(sys, n) && Allowed(sys, l, Calm) && Step(sys, l).Some?
    ensures Onward(Step(sys, l).value, n)
  {
    hide Coming, Covers, Remembers;
    var next := Step(sys, l).value;
    if l == Reload {
      ReloadLosesComing(sys, n);
    } else {
      ComingIsCalm(sys, l, n);
      match l
      case Edit(q, answer, flagged) => EditKeepsComing(sys, n, q, answer, flagged);
      case SaveDeltas(scope) => ChainedKeepsComing(sys, n, InScope(Entries(sys), scope), true);
      case SaveSnapshot(_, payload) => ChainedKeepsComing(sys, n, payload, false);
      case Ack(i) => AckKeepsComing(sys, n, i);
      case Deliver(i, position, now) =>
        if i == n {
          ComingInTransit(sys, n);
          LandingPutsInOrder(sys, n, position, now);
        } else {
          MoveKeepsComing(sys, l, n);
        }
      case Dispatch(i) =>
        if i == n && sys.flights[n].payload == [] {
          EmptySaveIsInOrder(sys, n);
        } else {
          MoveKeepsComing(sys, l, n);
        }
      case LoseRequest(i) =>
        if i != n {
          MoveKeepsComing(sys, l, n);
        }
      case StopListening(_) => MoveKeepsComing(sys, l, n);
      case Fail(_) => MoveKeepsComing(sys, l, n);
      case Reload =>
    }
  }

  lemma ReloadLosesComing(sys: System, n: nat)
    requires Coming(sys, n) && Allowed(sys, Reload, Calm)
    ensures Is(Reloaded(sys), n, Gone)
  {
    ComingIsPending(sys, n);
  }

  lemma ComingInTransit(sys: System, n: nat)
    requires Coming(sys, n) && Is(sys, n, InTransit)
    ensures Writing(sys.flights[n])
  {
  }

  lemma ComingIsCalm(sys: System, l: Label, n: nat)
    requires Coming(sys, n) && Allowed(sys, l, Calm) && Step(sys, l).Some? && l != Reload
    ensures Remembers(Step(sys, l).value) && NothingLeftBehind(Step(sys, l).value) && n < |sys.flights|
  {
    StepIsRemembered(sys, l);
    CalmStep(sys, l);
  }

  lemma {:induction false} GoneStaysGone(sys: System, labels: seq<Label>, n: nat)
    requires Is(sys, n, Gone) && Run(sys, labels, Calm).Some?
    ensures Is(Run(sys, labels, Calm).value, n, Gone)
    decreases |labels|
  {
    hide Step;
    if labels != [] {
      GoneStep(sys, labels[0], n);
      GoneStaysGone(Step(sys, labels[0]).value, labels[1..], n);
    }
  }

  lemma GoneStep(sys: System, l: Label, n: nat)
    requires Is(sys, n, Gone) && Step(sys, l).Some?
    ensures Is(Step(sys, l).value, n, Gone)
  {
  }

  /** Whatever else happens meanwhile: when the covering request has landed, the page is in order. */
  lemma {:induction false} LandedMeansInOrder(sys: System, labels: seq<Label>, n: nat)
    requires Onward(sys, n) && Run(sys, labels, Calm).Some?
    ensures Is(Run(sys, labels, Calm).value, n, Landed) ==>
              SystemOk(Run(sys, labels, Calm).value) && NothingLeftBehind(Run(sys, labels, Calm).value)
    decreases |labels|
  {
    hide Step, Coming, SystemOk;
    if SystemOk(sys) && NothingLeftBehind(sys) {
      CalmRunsAreGuarded(sys, labels);
      GuardedRunsKeepOk(sys, labels);
    } else if Is(sys, n, Gone) {
      GoneStaysGone(sys, labels, n);
    } else if labels == [] {
      ComingHasNotLanded(sys, n);
    } else {
      ComingStep(sys, labels[0], n);
      LandedMeansInOrder(Step(sys, labels[0]).value, labels[1..], n);
    }
  }

  lemma ComingHasNotLanded(sys: System, n: nat)
    requires Coming(sys, n)
    ensures !Is(sys, n, Landed)
  {
  }

  /**
   Once nothing is left behind, a full save that carries every latest edit puts things right, whatever
   answers the server had lost: in every calm run, once the save has landed, no answer is lost, and none
   will be in any calm run from there.
   */
  lemma FullSaveRepairs(sys: System, scope: set<QuestionId>, payload: seq<QueuedAnswer>, labels: seq<Label>)
    requires Remembers(sys) && NothingLeftBehind(sys)
    requires IsFullPayload(sys, scope, payload) && forall q :: q in sys.latest ==> sys.latest[q] in payload
    requires Run(Chained(sys, payload, false), labels, Calm).Some?
    requires Is(Run(Chained(sys, payload, false), labels, Calm).value, |sys.flights|, Landed)
    ensures var end := Run(Chained(sys, payload, false), labels, Calm).value;
            NoAnswerLost(end) && CalmRunsKeepAnswers(end)
  {
    hide Step, Run, Coming;
    FullPayloadIsUpToDate(sys, scope, payload);
    SaveIsRemembered(sys, payload, false);
    FullSaveCovers(sys, payload);
    LandedMeansInOrder(Chained(sys, payload, false), labels, |sys.flights|);
    var end := Run(Chained(sys, payload, false), labels, Calm).value;
    OkMeansNoAnswerLost(end);
    CalmRunsKeepAnswersIff(end);
  }

  /** And it can land: in the calm run in which the chain runs dry. */
  lemma FullSaveCanLand(sys: System, scope: set<QuestionId>, payload: seq<QueuedAnswer>) returns (labels: seq<Label>)
    requires IsLive(sys.db, sys.session) && IsFullPayload(sys, scope, payload)
    ensures Run(sys, [SaveSnapshot(scope, payload)] + labels, Calm) == Run(Chained(sys, payload, false), labels, Calm)
    ensures Run(Chained(sys, payload, false), labels, Calm).Some?
    ensures Is(Run(Chained(sys, payload, false), labels, Calm).value, |sys.flights|, Landed)
  {
    hide Step, Run, IsFullPayload;
    labels := ChainRunsDry(Chained(sys, payload, false), 0);
    SnapshotRuns(sys, scope, payload, labels, Calm);
  }
}
