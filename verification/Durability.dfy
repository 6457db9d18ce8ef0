/**
 The browser page, its queue and the server save as one system, in any order of events: edits, saves
 of queued answers and full saves of the page's memory, their dispatch, delivery and loss, responses
 and client-side failures, and reloads.

 The page chains its requests: the next one is dispatched only after the promise of the one before
 has settled. A promise can settle by failing, and a reload drops the chain, while a request is
 still on its way; such a request has been left behind.

 `latest` remembers the last edit of every question; it exists only to say that no edit is lost.
 */
module Durability {
  import opened Prelude
  import opened ExamTables
  import opened AnswerCollapse
  import opened ExamTransactions
  import opened AnswerQueue

  datatype FlightStatus = Waiting | InTransit | Landed | Gone

  /**
   A save request: what it carries, whether its success acknowledges the queue, where it is, and
   whether its promise is still pending in the page's chain.
   */
  datatype Flight = Flight(payload: seq<QueuedAnswer>, acks: bool, status: FlightStatus, pending: bool)

  datatype System = System(
    session: SessionId,
    storage: RawStore,
    memory: map<QuestionId, QueuedAnswer>,
    db: Tables,
    flights: seq<Flight>,
    latest: map<QuestionId, QueuedAnswer>)

  datatype Label =
    | Edit(question: QuestionId, answer: string, flagged: bool)
    | SaveDeltas(scope: set<QuestionId>)
    | SaveSnapshot(scope: set<QuestionId>, payload: seq<QueuedAnswer>)
    | Dispatch(flight: nat)
    | Deliver(flight: nat, position: Option<int>, now: Time)
    | LoseRequest(flight: nat)
    | Ack(flight: nat)
    | StopListening(flight: nat)
    | Fail(flight: nat)
    | Reload

  function Entries(sys: System): seq<QueuedAnswer> {
    LoadState(sys.storage).entries
  }

  /** What the service makes of a saved answer. */
  function ToAnswer(e: QueuedAnswer): Answer {
    Answer(e.question, Some(e.answer), None, None, None, None, None, e.flagged)
  }

  function Payload(entries: seq<QueuedAnswer>): (r: seq<Answer>)
    ensures |r| == |entries| && forall i :: 0 <= i < |entries| ==> r[i] == ToAnswer(entries[i])
  {
    if entries == [] then [] else [ToAnswer(entries[0])] + Payload(entries[1..])
  }

  /** The queued answers of the section the page is showing. */
  function InScope(entries: seq<QueuedAnswer>, scope: set<QuestionId>): (r: seq<QueuedAnswer>)
    ensures forall e :: e in r <==> e in entries && e.question in scope
  {
    if entries == [] then []
    else (if entries[0].question in scope then [entries[0]] else []) + InScope(entries[1..], scope)
  }

  ghost predicate DistinctEntries(entries: seq<QueuedAnswer>) {
    forall i, j :: 0 <= i < j < |entries| ==> entries[i].question != entries[j].question
  }

  predicate IsBlank(e: QueuedAnswer) {
    e.answer == "" && !e.flagged
  }

  /**
   The memory's answers of the section, each once, in whatever order the page's objects list them. A
   value without text and flag is among them only if its text was once set.
   */
  ghost predicate IsFullPayload(sys: System, scope: set<QuestionId>, payload: seq<QueuedAnswer>) {
    && DistinctEntries(payload)
    && (forall e :: e in payload ==> e.question in scope && e.question in sys.memory && sys.memory[e.question] == e)
    && (forall q :: q in sys.memory && q in scope && !IsBlank(sys.memory[q]) ==> sys.memory[q] in payload)
  }

  // ---------- Hydration ----------

  function EntryFor(entries: seq<QueuedAnswer>, q: QuestionId): (r: Option<QueuedAnswer>)
    ensures r.Some? ==> r.value in entries && r.value.question == q
    ensures r.None? ==> forall e :: e in entries ==> e.question != q
  {
    if entries == [] then None
    else
      var last := entries[|entries| - 1];
      if last.question == q then Some(last)
      else
        assert entries == entries[..|entries| - 1] + [last];
        EntryFor(entries[..|entries| - 1], q)
  }

  /** The server has something to show for the question: a non-empty text or a flag. */
  predicate HasContent(sys: System, q: QuestionId) {
    var k := (sys.session, q);
    k in sys.db.answers && (sys.db.answers[k].answer.text !in {None, Some("")} || sys.db.answers[k].answer.flagged)
  }

  /** The server's value of a question. If it is the latest edit, it is that edit; otherwise it is older than any. */
  function ServerEntry(sys: System, q: QuestionId): QueuedAnswer
    requires HasContent(sys, q)
  {
    var row := sys.db.answers[(sys.session, q)].answer;
    var text := if row.text.Some? then row.text.value else "";
    if q in sys.latest && sys.latest[q].answer == text && sys.latest[q].flagged == row.flagged then sys.latest[q]
    else QueuedAnswer(q, text, row.flagged, 0)
  }

  /** What a loading page shows: the server's answers, overlaid with the queue. */
  function Hydrated(sys: System): map<QuestionId, QueuedAnswer> {
    var rows := set k | k in sys.db.answers && k.0 == sys.session && HasContent(sys, k.1) :: k.1;
    var queued := set e | e in Entries(sys) :: e.question;
    map q | q in rows + queued && (EntryFor(Entries(sys), q).Some? || HasContent(sys, q)) ::
      if EntryFor(Entries(sys), q).Some? then EntryFor(Entries(sys), q).value else ServerEntry(sys, q)
  }

  // ---------- Steps ----------

  function WithFlight(sys: System, i: nat, f: Flight): System
    requires i < |sys.flights|
  {
    sys.(flights := sys.flights[i := f])
  }

  /** A request is appended to the chain with the payload it has now. */
  function Chained(sys: System, payload: seq<QueuedAnswer>, acks: bool): System {
    sys.(flights := sys.flights + [Flight(payload, acks, Waiting, true)])
  }

  /** The page is gone: nothing pending, nothing waiting is ever dispatched; what is in transit stays there. */
  function Abandoned(flights: seq<Flight>): (r: seq<Flight>)
    ensures |r| == |flights|
    ensures forall i :: 0 <= i < |flights| ==>
                          r[i] == flights[i].(pending := false, status := if flights[i].status == Waiting then Gone else flights[i].status)
  {
    if flights == [] then []
    else [flights[0].(pending := false, status := if flights[0].status == Waiting then Gone else flights[0].status)]
         + Abandoned(flights[1..])
  }

  function Delivered(sys: System, i: nat, position: Option<int>, now: Time): System
    requires i < |sys.flights|
  {
    Moved(sys, i, Landed).(
      db := SaveAnswers(sys.db, sys.session, Payload(sys.flights[i].payload), position, now))
  }

  /** The promise succeeds; the queue forgets what the save carried unless nobody listens any more. */
  function Acked(sys: System, i: nat): System
    requires i < |sys.flights|
  {
    var settled := Rejected(sys, i);
    if sys.flights[i].acks
    then settled.(storage := SaveState(Acknowledge(LoadState(sys.storage), sys.flights[i].payload)))
    else settled
  }

  /** The chain has reached the request: it is waiting and every promise before it has settled. */
  predicate MayDispatch(sys: System, i: nat) {
    i < |sys.flights| && sys.flights[i].status == Waiting && forall j :: 0 <= j < i ==> !sys.flights[j].pending
  }

  /** The edit goes into the page's memory and, with a fresh revision, into the queue. */
  function Edited(sys: System, q: QuestionId, answer: string, flagged: bool): System {
    var st := LoadState(sys.storage);
    var edit := QueuedAnswer(q, answer, flagged, st.next);
    sys.(storage := SaveState(QueueDelta(st, q, answer, flagged)), memory := sys.memory[q := edit], latest := sys.latest[q := edit])
  }

  /** A request moves on; the rest of the system does not notice. */
  function Moved(sys: System, i: nat, status: FlightStatus): System
    requires i < |sys.flights|
  {
    WithFlight(sys, i, sys.flights[i].(status := status))
  }

  /** The promise settles without a result. */
  function Rejected(sys: System, i: nat): System
    requires i < |sys.flights|
  {
    WithFlight(sys, i, sys.flights[i].(pending := false))
  }

  function Reloaded(sys: System): System {
    sys.(flights := Abandoned(sys.flights), memory := Hydrated(sys))
  }

  predicate Is(sys: System, i: nat, status: FlightStatus) {
    i < |sys.flights| && sys.flights[i].status == status
  }

  predicate IsPending(sys: System, i: nat) {
    i < |sys.flights| && sys.flights[i].pending
  }

  ghost function Step(sys: System, l: Label): Option<System> {
    match l
    case Edit(q, answer, flagged) => Some(Edited(sys, q, answer, flagged))
    case SaveDeltas(scope) => Some(Chained(sys, InScope(Entries(sys), scope), true))
    case SaveSnapshot(scope, payload) => if IsFullPayload(sys, scope, payload) then Some(Chained(sys, payload, false)) else None
    case Dispatch(i) => if MayDispatch(sys, i) then Some(Moved(sys, i, InTransit)) else None
    case Deliver(i, position, now) => if Is(sys, i, InTransit) then Some(Delivered(sys, i, position, now)) else None
    case LoseRequest(i) => if Is(sys, i, InTransit) then Some(Moved(sys, i, Gone)) else None
    case Ack(i) => if Is(sys, i, Landed) && IsPending(sys, i) then Some(Acked(sys, i)) else None
    case StopListening(i) =>
      if IsPending(sys, i) then Some(WithFlight(sys, i, sys.flights[i].(acks := false))) else None
    case Fail(i) => if IsPending(sys, i) && !Is(sys, i, Waiting) then Some(Rejected(sys, i)) else None
    case Reload => Some(Reloaded(sys))
  }

  // ---------- Requests left behind ----------

  /** On its way to the server with something to write. */
  predicate Writing(f: Flight) {
    f.status == InTransit && f.payload != []
  }

  /** In transit with something to write, and no promise in the chain stands for it any more. */
  predicate LeftBehind(sys: System, i: int) {
    0 <= i < |sys.flights| && Writing(sys.flights[i]) && !sys.flights[i].pending
  }

  /** No request of an earlier page or of a failed promise is still on its way. */
  ghost predicate NothingLeftBehind(sys: System) {
    forall i :: !LeftBehind(sys, i)
  }

  /** This step leaves a request behind: a promise fails, or the page reloads, while its request is in transit. */
  ghost predicate LeavesBehind(sys: System, l: Label) {
    exists i :: 0 <= i < |sys.flights| && Writing(sys.flights[i]) && sys.flights[i].pending && (l.Reload? || l == Fail(i))
  }

  /** Which runs are considered: all; those that dispatch only when nothing is left behind; those that leave nothing behind. */
  datatype Discipline = AnyRun | Guarded | Calm

  ghost predicate Allowed(sys: System, l: Label, d: Discipline) {
    match d
    case AnyRun => true
    case Guarded => l.Dispatch? ==> NothingLeftBehind(sys)
    case Calm => !LeavesBehind(sys, l)
  }

  ghost function Run(sys: System, labels: seq<Label>, d: Discipline): Option<System>
    decreases |labels|
  {
    if labels == [] then Some(sys)
    else if !Allowed(sys, labels[0], d) then None
    else
      var next := Step(sys, labels[0]);
      if next.None? then None else Run(next.value, labels[1..], d)
  }

  // ---------- No answer is lost ----------

  /** The server holds the content of this edit. */
  predicate OnServer(sys: System, e: QueuedAnswer) {
    var k := (sys.session, e.question);
    k in sys.db.answers && sys.db.answers[k].answer.text == Some(e.answer) && sys.db.answers[k].answer.flagged == e.flagged
  }

  ghost predicate IsQueued(sys: System, q: QuestionId) {
    exists e :: e in Entries(sys) && e.question == q
  }

  /** Every edited question's latest value is its queue entry if it has one, and otherwise the server's row. */
  ghost predicate NoAnswerLost(sys: System) {
    forall q :: q in sys.latest ==>
                  if IsQueued(sys, q) then forall e :: e in Entries(sys) && e.question == q ==> e == sys.latest[q]
                  else OnServer(sys, sys.latest[q])
  }

  // ---------- The invariant ----------

  ghost predicate IsLatest(sys: System, e: QueuedAnswer) {
    e.question in sys.latest && sys.latest[e.question] == e
  }

  /** A saved value is an edit of its question, the latest one if it has the latest revision; or it came from the server. */
  ghost predicate FromHistory(sys: System, e: QueuedAnswer) {
    if e.question in sys.latest then
      && e.revision <= sys.latest[e.question].revision
      && (e.revision == sys.latest[e.question].revision ==> e == sys.latest[e.question])
    else e.revision == 0
  }

  ghost predicate Carries(sys: System, i: int, e: QueuedAnswer) {
    0 <= i < |sys.flights| && e in sys.flights[i].payload
  }

  /** Yet to reach the server. */
  predicate Ahead(f: Flight) {
    f.status == Waiting || f.status == InTransit
  }

  /** The server has the latest value of `q`, and no request ahead can replace it by an older one. */
  ghost predicate Settled(sys: System, q: QuestionId)
    requires q in sys.latest
  {
    && OnServer(sys, sys.latest[q])
    && forall i, e :: Carries(sys, i, e) && Ahead(sys.flights[i]) && e.question == q ==> e == sys.latest[q]
  }

  ghost predicate QueueOk(sys: System) {
    && DistinctEntries(Entries(sys))
    && (forall e :: e in Entries(sys) ==> IsLatest(sys, e))
    && (forall q :: q in sys.latest ==>
                      sys.latest[q].question == q && 0 < sys.latest[q].revision < LoadState(sys.storage).next)
  }

  /** The page's memory is up to date with every edit. */
  ghost predicate MemoryOk(sys: System) {
    forall q :: q in sys.memory ==>
                  sys.memory[q].question == q
                  && if q in sys.latest then sys.memory[q] == sys.latest[q] else sys.memory[q].revision == 0
  }

  ghost predicate FlightsOk(sys: System) {
    && (forall i, e :: Carries(sys, i, e) ==> FromHistory(sys, e))
    && (forall i :: 0 <= i < |sys.flights| ==> DistinctEntries(sys.flights[i].payload))
    && (forall i, j, e, f :: i < j && Carries(sys, i, e) && Carries(sys, j, f) && e.question == f.question ==>
                               e.revision <= f.revision)
  }

  /** The chain dispatches in its order: behind a waiting request all are waiting. */
  ghost predicate ChainOk(flights: seq<Flight>) {
    && (forall i :: 0 <= i < |flights| && flights[i].status == Waiting ==> flights[i].pending)
    && (forall i, j :: 0 <= i < j < |flights| && flights[i].status == Waiting ==> flights[j].status == Waiting)
  }

  /** At most one request that writes something is in transit. */
  ghost predicate OneInTransit(flights: seq<Flight>) {
    forall i, j :: 0 <= i < |flights| && 0 <= j < |flights| && Writing(flights[i]) && Writing(flights[j]) ==> i == j
  }

  /** What is neither queued nor settled does not exist; nor does a landed latest edit that is not settled. */
  ghost predicate AnswersOk(sys: System) {
    && (forall q :: q in sys.latest && !IsQueued(sys, q) ==> Settled(sys, q))
    && (forall i, e :: Carries(sys, i, e) && sys.flights[i].status == Landed && IsLatest(sys, e) ==> Settled(sys, e.question))
  }

  ghost predicate SystemOk(sys: System) {
    && IsLive(sys.db, sys.session) && QueueOk(sys) && MemoryOk(sys) && FlightsOk(sys) && AnswersOk(sys)
    && ChainOk(sys.flights) && OneInTransit(sys.flights)
  }

  /** The page has just loaded a session in progress: its queue is its whole history. */
  ghost predicate JustLoaded(sys: System) {
    && IsLive(sys.db, sys.session) && sys.flights == [] && sys.memory == Hydrated(sys)
    && DistinctEntries(Entries(sys))
    && (forall e :: e in Entries(sys) ==> IsLatest(sys, e))
    && (forall q :: q in sys.latest ==> IsQueued(sys, q))
  }

  lemma HydratedIsUpToDate(sys: System)
    requires NoAnswerLost(sys) && forall q :: q in sys.latest ==> sys.latest[q].question == q
    requires forall e :: e in Entries(sys) ==> IsLatest(sys, e)
    ensures MemoryOk(sys.(memory := Hydrated(sys)))
  {
    var memory := Hydrated(sys);
    forall q | q in memory
      ensures memory[q].question == q && if q in sys.latest then memory[q] == sys.latest[q] else memory[q].revision == 0
    {
      var queued := EntryFor(Entries(sys), q);
      if queued.Some? {
        assert IsLatest(sys, queued.value);
      } else {
        assert !IsQueued(sys, q);
      }
    }
  }

  lemma JustLoadedIsOk(sys: System)
    requires JustLoaded(sys)
    ensures SystemOk(sys) && NothingLeftBehind(sys)
  {
    LoadedStateIsValid(sys.storage);
    forall q | q in sys.latest
      ensures sys.latest[q].question == q && 0 < sys.latest[q].revision < LoadState(sys.storage).next
    {
      var e :| e in Entries(sys) && e.question == q;
      assert IsLatest(sys, e);
    }
    forall q, e | q in sys.latest && e in Entries(sys) && e.question == q ensures e == sys.latest[q] {
      assert IsLatest(sys, e);
    }
    HydratedIsUpToDate(sys);
  }

  lemma OkMeansNoAnswerLost(sys: System)
    requires SystemOk(sys)
    ensures NoAnswerLost(sys)
  {
  }

  // ---------- Each step keeps it ----------

  lemma {:induction false} WithoutKeepsDistinct(entries: seq<QueuedAnswer>, q: QuestionId)
    requires DistinctEntries(entries)
    ensures DistinctEntries(Without(entries, q))
  {
    if entries != [] {
      var rest := Without(entries[1..], q);
      WithoutKeepsDistinct(entries[1..], q);
      assert forall i :: 0 <= i < |rest| ==> rest[i] in rest && rest[i] in entries[1..];
    }
  }

  lemma {:induction false} RemainingKeepsDistinct(entries: seq<QueuedAnswer>, acked: seq<QueuedAnswer>)
    requires DistinctEntries(entries)
    ensures DistinctEntries(Remaining(entries, acked))
  {
    if entries != [] {
      var rest := Remaining(entries[1..], acked);
      RemainingKeepsDistinct(entries[1..], acked);
      assert forall i :: 0 <= i < |rest| ==> rest[i] in rest && rest[i] in entries[1..];
    }
  }

  lemma {:induction false} InScopeKeepsDistinct(entries: seq<QueuedAnswer>, scope: set<QuestionId>)
    requires DistinctEntries(entries)
    ensures DistinctEntries(InScope(entries, scope))
  {
    if entries != [] {
      var rest := InScope(entries[1..], scope);
      InScopeKeepsDistinct(entries[1..], scope);
      assert forall i :: 0 <= i < |rest| ==> rest[i] in rest && rest[i] in entries[1..];
    }
  }

  lemma DeltaEntries(entries: seq<QueuedAnswer>, edit: QueuedAnswer)
    requires DistinctEntries(entries)
    ensures var entries' := Without(entries, edit.question) + [edit];
            && DistinctEntries(entries')
            && forall e :: e in entries' <==> e == edit || (e in entries && e.question != edit.question)
  {
    WithoutKeepsDistinct(entries, edit.question);
    var kept := Without(entries, edit.question);
    assert forall i :: 0 <= i < |kept| ==> kept[i] in kept;
    forall e ensures e in kept + [edit] <==> e in kept || e == edit {
    }
  }

  lemma EditedStorage(sys: System, q: QuestionId, answer: string, flagged: bool)
    ensures var st := LoadState(sys.storage);
            && ValidState(st)
            && LoadState(Edited(sys, q, answer, flagged).storage) == QueueDelta(st, q, answer, flagged)
  {
    var st := LoadState(sys.storage);
    LoadedStateIsValid(sys.storage);
    QueueDeltaIsValid(st, q, answer, flagged);
    SavedStateLoadsBack(QueueDelta(st, q, answer, flagged));
  }

  lemma EditKeepsQueue(sys: System, q: QuestionId, answer: string, flagged: bool)
    requires QueueOk(sys)
    ensures QueueOk(Edited(sys, q, answer, flagged))
  {
    var st := LoadState(sys.storage);
    var sys' := Edited(sys, q, answer, flagged);
    var edit := QueuedAnswer(q, answer, flagged, st.next);
    EditedStorage(sys, q, answer, flagged);
    DeltaEntries(st.entries, edit);
    forall e | e in Entries(sys') ensures IsLatest(sys', e) {
      assert e == edit || IsLatest(sys, e);
    }
  }

  lemma EditKeepsMemory(sys: System, q: QuestionId, answer: string, flagged: bool)
    requires MemoryOk(sys)
    ensures MemoryOk(Edited(sys, q, answer, flagged))
  {
  }

  lemma EditQueues(sys: System, q: QuestionId, answer: string, flagged: bool, k: QuestionId)
    requires DistinctEntries(Entries(sys))
    ensures IsQueued(Edited(sys, q, answer, flagged), k) <==> IsQueued(sys, k) || k == q
  {
    var st := LoadState(sys.storage);
    var sys' := Edited(sys, q, answer, flagged);
    var edit := QueuedAnswer(q, answer, flagged, st.next);
    EditedStorage(sys, q, answer, flagged);
    DeltaEntries(st.entries, edit);
    assert edit in Entries(sys');
    if IsQueued(sys, k) && k != q {
      var e :| e in Entries(sys) && e.question == k;
      assert e in Entries(sys');
    }
  }

  /** After an edit of `q` nothing sent before is its latest value. */
  lemma EditKeepsFlights(sys: System, q: QuestionId, answer: string, flagged: bool)
    requires QueueOk(sys) && FlightsOk(sys)
    ensures var sys' := Edited(sys, q, answer, flagged);
            FlightsOk(sys') && forall i, e :: Carries(sys', i, e) && IsLatest(sys', e) ==> e.question != q && IsLatest(sys, e)
  {
    var sys' := Edited(sys, q, answer, flagged);
    LoadedStateIsValid(sys.storage);
    forall i, e | Carries(sys', i, e) ensures FromHistory(sys', e) && (IsLatest(sys', e) ==> e.question != q && IsLatest(sys, e)) {
      assert Carries(sys, i, e) && FromHistory(sys, e);
    }
    forall i, j, e, f | i < j && Carries(sys', i, e) && Carries(sys', j, f) && e.question == f.question
      ensures e.revision <= f.revision
    {
      assert Carries(sys, i, e) && Carries(sys, j, f);
    }
  }

  lemma EditKeepsOk(sys: System, q: QuestionId, answer: string, flagged: bool)
    requires SystemOk(sys)
    ensures SystemOk(Edited(sys, q, answer, flagged))
  {
    var sys' := Edited(sys, q, answer, flagged);
    EditKeepsQueue(sys, q, answer, flagged);
    EditKeepsMemory(sys, q, answer, flagged);
    EditKeepsFlights(sys, q, answer, flagged);
    forall k ensures IsQueued(sys', k) <==> IsQueued(sys, k) || k == q {
      EditQueues(sys, q, answer, flagged, k);
    }
    forall k | k in sys.latest && k != q && Settled(sys, k) ensures Settled(sys', k) {
      forall i, e | Carries(sys', i, e) && Ahead(sys'.flights[i]) && e.question == k ensures e == sys'.latest[k] {
        assert Carries(sys, i, e);
      }
    }
    forall i, e | Carries(sys', i, e) && sys'.flights[i].status == Landed && IsLatest(sys', e) ensures Settled(sys', e.question) {
      assert Carries(sys, i, e) && IsLatest(sys, e);
    }
  }

  /** The flights of `sys'` carry what those of `sys` carry, and none has come to life: only their ends differ. */
  ghost predicate OnlyFlightsStop(sys: System, sys': System) {
    && sys' == sys.(flights := sys'.flights)
    && |sys'.flights| == |sys.flights|
    && (forall i :: 0 <= i < |sys.flights| ==>
                      && sys'.flights[i].payload == sys.flights[i].payload
                      && (sys'.flights[i].status == sys.flights[i].status || sys'.flights[i].status == Gone))
  }

  lemma StoppingFlightsKeepsOk(sys: System, sys': System)
    requires SystemOk(sys) && OnlyFlightsStop(sys, sys') && ChainOk(sys'.flights)
    ensures SystemOk(sys')
  {
    forall i, e ensures Carries(sys', i, e) <==> Carries(sys, i, e) {
    }
    forall e ensures FromHistory(sys', e) <==> FromHistory(sys, e) {
    }
    forall k | k in sys.latest && Settled(sys, k) ensures Settled(sys', k) {
    }
    forall k ensures IsQueued(sys', k) <==> IsQueued(sys, k) {
    }
  }

  /** What a new request may carry: values that are up to date. */
  ghost predicate UpToDate(sys: System, payload: seq<QueuedAnswer>) {
    && DistinctEntries(payload)
    && forall e :: e in payload ==> if e.question in sys.latest then IsLatest(sys, e) else e.revision == 0
  }

  lemma QueuePayloadIsUpToDate(sys: System, scope: set<QuestionId>)
    requires QueueOk(sys)
    ensures UpToDate(sys, InScope(Entries(sys), scope))
  {
    InScopeKeepsDistinct(Entries(sys), scope);
    forall e | e in InScope(Entries(sys), scope) ensures IsLatest(sys, e) {
    }
  }

  lemma FullPayloadIsUpToDate(sys: System, scope: set<QuestionId>, payload: seq<QueuedAnswer>)
    requires MemoryOk(sys) && IsFullPayload(sys, scope, payload)
    ensures UpToDate(sys, payload)
  {
  }

  lemma ChainedKeepsFlights(sys: System, payload: seq<QueuedAnswer>, acks: bool)
    requires FlightsOk(sys) && UpToDate(sys, payload)
    ensures FlightsOk(Chained(sys, payload, acks))
  {
    var sys' := Chained(sys, payload, acks);
    var n := |sys.flights|;
    forall i, e | Carries(sys', i, e) ensures if i < n then Carries(sys, i, e) else e in payload {
    }
    forall i, e | Carries(sys', i, e) ensures FromHistory(sys', e) {
      assert i < n ==> FromHistory(sys, e);
    }
    forall i, j, e, f | i < j && Carries(sys', i, e) && Carries(sys', j, f) && e.question == f.question
      ensures e.revision <= f.revision
    {
      assert Carries(sys, i, e) && FromHistory(sys, e);
      assert j < n ==> Carries(sys, j, f);
    }
  }

  lemma ChainedKeepsOk(sys: System, payload: seq<QueuedAnswer>, acks: bool)
    requires SystemOk(sys) && UpToDate(sys, payload)
    ensures SystemOk(Chained(sys, payload, acks))
  {
    var sys' := Chained(sys, payload, acks);
    ChainedKeepsFlights(sys, payload, acks);
    forall q | q in sys.latest && Settled(sys, q) ensures Settled(sys', q) {
      forall i, e | Carries(sys', i, e) && Ahead(sys'.flights[i]) && e.question == q ensures e == sys.latest[q] {
        assert i < |sys.flights| ==> Carries(sys, i, e);
      }
    }
    forall k ensures IsQueued(sys', k) <==> IsQueued(sys, k) {
    }
    forall i, e | Carries(sys', i, e) && sys'.flights[i].status == Landed && IsLatest(sys', e) ensures Settled(sys', e.question) {
      assert Carries(sys, i, e) && IsLatest(sys, e);
    }
  }

  /** Before a dispatch every earlier request has settled, so with nothing left behind nothing is in transit. */
  lemma DispatchIsAlone(sys: System, i: nat)
    requires ChainOk(sys.flights) && NothingLeftBehind(sys) && MayDispatch(sys, i)
    ensures forall j :: 0 <= j < |sys.flights| && sys.flights[j].status == InTransit ==> sys.flights[j].payload == []
  {
    forall j | 0 <= j < |sys.flights| && sys.flights[j].status == InTransit ensures sys.flights[j].payload == [] {
      assert j < i;
      assert !LeftBehind(sys, j);
    }
  }

  lemma DispatchKeepsOk(sys: System, i: nat)
    requires SystemOk(sys) && NothingLeftBehind(sys) && MayDispatch(sys, i)
    ensures SystemOk(Moved(sys, i, InTransit))
  {
    var sys' := Moved(sys, i, InTransit);
    DispatchIsAlone(sys, i);
    DispatchChangesNoAnswer(sys, i);
  }

  lemma DispatchChangesNoAnswer(sys: System, i: nat)
    requires SystemOk(sys) && MayDispatch(sys, i)
    ensures var sys' := Moved(sys, i, InTransit);
            QueueOk(sys') && MemoryOk(sys') && FlightsOk(sys') && AnswersOk(sys') && ChainOk(sys'.flights)
  {
    var sys' := Moved(sys, i, InTransit);
    forall k, e ensures Carries(sys', k, e) <==> Carries(sys, k, e) {
    }
    forall e ensures FromHistory(sys', e) <==> FromHistory(sys, e) {
    }
    forall k | k in sys.latest && Settled(sys, k) ensures Settled(sys', k) {
    }
    forall k ensures IsQueued(sys', k) <==> IsQueued(sys, k) {
    }
  }

  lemma AckedStorage(sys: System, i: nat)
    requires i < |sys.flights|
    ensures Entries(Acked(sys, i)) ==
            if sys.flights[i].acks then Remaining(Entries(sys), sys.flights[i].payload) else Entries(sys)
    ensures LoadState(Acked(sys, i).storage).next == LoadState(sys.storage).next
  {
    var st := LoadState(sys.storage);
    LoadedStateIsValid(sys.storage);
    AcknowledgeIsValid(st, sys.flights[i].payload);
    SavedStateLoadsBack(Acknowledge(st, sys.flights[i].payload));
  }

  /** An acknowledgement removes an entry only if the landed save carried exactly that edit. */
  lemma AckKeepsOk(sys: System, i: nat)
    requires SystemOk(sys) && Is(sys, i, Landed) && IsPending(sys, i)
    ensures SystemOk(Acked(sys, i))
  {
    var mid := Rejected(sys, i);
    StoppingFlightsKeepsOk(sys, mid);
    if sys.flights[i].acks {
      AckedStorage(sys, i);
      RemainingKeepsDistinct(Entries(sys), sys.flights[i].payload);
      AckKeepsAnswers(mid, Acked(sys, i), i);
    }
  }

  lemma AckKeepsAnswers(sys: System, sys': System, i: nat)
    requires SystemOk(sys) && i < |sys.flights| && sys.flights[i].status == Landed
    requires sys' == sys.(storage := sys'.storage)
    requires Entries(sys') == Remaining(Entries(sys), sys.flights[i].payload) && DistinctEntries(Entries(sys'))
    requires LoadState(sys'.storage).next == LoadState(sys.storage).next
    ensures SystemOk(sys')
  {
    forall k, e ensures Carries(sys', k, e) <==> Carries(sys, k, e) {
    }
    forall e ensures FromHistory(sys', e) <==> FromHistory(sys, e) {
    }
    forall q | q in sys.latest && Settled(sys, q) ensures Settled(sys', q) {
    }
    forall q | q in sys'.latest && !IsQueued(sys', q) ensures Settled(sys', q) {
      if IsQueued(sys, q) {
        var e :| e in Entries(sys) && e.question == q;
        assert e !in Entries(sys');
        var f :| f in sys.flights[i].payload && f.question == q && f.revision == e.revision;
        assert Carries(sys, i, f) && FromHistory(sys, f) && IsLatest(sys, e);
        assert Settled(sys, q);
      }
    }
  }

  lemma ReloadKeepsOk(sys: System)
    requires SystemOk(sys)
    ensures SystemOk(Reloaded(sys))
  {
    var mid := sys.(flights := Abandoned(sys.flights));
    StoppingFlightsKeepsOk(sys, mid);
    OkMeansNoAnswerLost(sys);
    HydratedIsUpToDate(sys);
    var sys' := Reloaded(sys);
    assert sys' == mid.(memory := Hydrated(sys));
    MemoryChangesNoAnswer(mid, sys');
  }

  lemma MemoryChangesNoAnswer(sys: System, sys': System)
    requires SystemOk(sys) && sys' == sys.(memory := sys'.memory) && MemoryOk(sys')
    ensures SystemOk(sys')
  {
    forall i, e ensures Carries(sys', i, e) <==> Carries(sys, i, e) {
    }
    forall e ensures FromHistory(sys', e) <==> FromHistory(sys, e) {
    }
    forall k | k in sys.latest && Settled(sys, k) ensures Settled(sys', k) {
    }
    forall k ensures IsQueued(sys', k) <==> IsQueued(sys, k) {
    }
  }

  /** The distinct answers of a payload, in order, as the server's collapse sees them. */
  lemma PayloadQuestions(payload: seq<QueuedAnswer>, q: QuestionId)
    requires forall f :: f in payload ==> f.question != q
    ensures q !in Questions(Payload(payload))
  {
    var answers := Payload(payload);
    forall a | a in answers ensures a.question != q {
      var j :| 0 <= j < |answers| && answers[j] == a;
      assert payload[j] in payload;
    }
  }

  lemma DeliveredTable(sys: System, i: nat, position: Option<int>, now: Time)
    requires IsLive(sys.db, sys.session) && i < |sys.flights|
    ensures Delivered(sys, i, position, now).db.answers
         == UpsertEach(sys.db.answers, sys.session, Payload(sys.flights[i].payload), now)
    ensures IsLive(Delivered(sys, i, position, now).db, sys.session)
  {
    LastWinsSameQuestions(Payload(sys.flights[i].payload));
    BatchedSaveRefinesSequentialSave(sys.db.answers, sys.session, Payload(sys.flights[i].payload), now);
  }

  /** What a delivery does to the rows: the carried answers are there, all others are as before. */
  lemma DeliveredRows(sys: System, i: nat, position: Option<int>, now: Time)
    requires IsLive(sys.db, sys.session) && i < |sys.flights| && DistinctEntries(sys.flights[i].payload)
    ensures var sys' := Delivered(sys, i, position, now);
            && IsLive(sys'.db, sys.session)
            && (forall e :: e in sys.flights[i].payload ==> OnServer(sys', e))
            && forall e: QueuedAnswer :: (forall f :: f in sys.flights[i].payload ==> f.question != e.question) ==>
                                           (OnServer(sys', e) <==> OnServer(sys, e))
  {
    var payload := sys.flights[i].payload;
    var answers := Payload(payload);
    var sys' := Delivered(sys, i, position, now);
    DeliveredTable(sys, i, position, now);
    UpsertEachRows(sys.db.answers, sys.session, answers, now);
    forall e | e in payload ensures OnServer(sys', e) {
      var j :| 0 <= j < |payload| && payload[j] == e;
      assert answers[j] == ToAnswer(e);
    }
    forall e: QueuedAnswer | forall f :: f in payload ==> f.question != e.question
      ensures OnServer(sys', e) <==> OnServer(sys, e)
    {
      PayloadQuestions(payload, e.question);
    }
  }

  lemma DeliveryKeepsSettled(sys: System, i: nat, position: Option<int>, now: Time, q: QuestionId)
    requires SystemOk(sys) && i < |sys.flights| && sys.flights[i].status == InTransit
    requires q in sys.latest && Settled(sys, q)
    ensures Settled(Delivered(sys, i, position, now), q)
  {
    var sys' := Delivered(sys, i, position, now);
    DeliveredRows(sys, i, position, now);
    if e :| e in sys.flights[i].payload && e.question == q {
      assert Carries(sys, i, e) && Ahead(sys.flights[i]);
      assert e == sys.latest[q];
    } else {
      assert OnServer(sys', sys.latest[q]) <==> OnServer(sys, sys.latest[q]);
    }
    forall k, e | Carries(sys', k, e) && Ahead(sys'.flights[k]) && e.question == q ensures e == sys.latest[q] {
      assert Carries(sys, k, e) && Ahead(sys.flights[k]);
    }
  }

  /** A delivery settles every latest edit it carries: what is ahead of it is newer in the chain and carries no older value. */
  lemma DeliverySettles(sys: System, i: nat, position: Option<int>, now: Time, e: QueuedAnswer)
    requires SystemOk(sys) && i < |sys.flights| && sys.flights[i].status == InTransit
    requires e in sys.flights[i].payload && IsLatest(sys, e)
    ensures Settled(Delivered(sys, i, position, now), e.question)
  {
    var sys' := Delivered(sys, i, position, now);
    DeliveredRows(sys, i, position, now);
    forall k, f | Carries(sys', k, f) && Ahead(sys'.flights[k]) && f.question == e.question
      ensures f == sys.latest[e.question]
    {
      assert Carries(sys, k, f) && Carries(sys, i, e) && FromHistory(sys, f);
      assert k != i && Ahead(sys.flights[k]);
      assert sys.flights[k].status == InTransit ==> k == i;
      assert i < k;
    }
  }

  lemma DeliverKeepsOk(sys: System, i: nat, position: Option<int>, now: Time)
    requires SystemOk(sys) && Is(sys, i, InTransit)
    ensures SystemOk(Delivered(sys, i, position, now))
  {
    var sys' := Delivered(sys, i, position, now);
    DeliveredRows(sys, i, position, now);
    forall k, e ensures Carries(sys', k, e) <==> Carries(sys, k, e) {
    }
    forall e ensures FromHistory(sys', e) <==> FromHistory(sys, e) {
    }
    forall k ensures IsQueued(sys', k) <==> IsQueued(sys, k) {
    }
    forall q | q in sys.latest && Settled(sys, q) ensures Settled(sys', q) {
      DeliveryKeepsSettled(sys, i, position, now, q);
    }
    forall k, e | Carries(sys', k, e) && sys'.flights[k].status == Landed && IsLatest(sys', e)
      ensures Settled(sys', e.question)
    {
      assert Carries(sys, k, e) && IsLatest(sys, e);
      if k == i {
        DeliverySettles(sys, i, position, now, e);
      } else {
        assert Settled(sys, e.question);
      }
    }
  }

  // ---------- Every run ----------

  lemma StoppingStepKeepsOk(sys: System, l: Label)
    requires SystemOk(sys) && (l.LoseRequest? || l.StopListening? || l.Fail?) && Step(sys, l).Some?
    ensures SystemOk(Step(sys, l).value)
  {
    StoppingFlightsKeepsOk(sys, Step(sys, l).value);
  }

  /** Every step keeps the invariant; only a dispatch needs that nothing is left behind. */
  lemma StepKeepsOk(sys: System, l: Label)
    requires SystemOk(sys) && Allowed(sys, l, Guarded) && Step(sys, l).Some?
    ensures SystemOk(Step(sys, l).value)
  {
    match l
    case Edit(q, answer, flagged) => EditKeepsOk(sys, q, answer, flagged);
    case SaveDeltas(scope) =>
      QueuePayloadIsUpToDate(sys, scope);
      ChainedKeepsOk(sys, InScope(Entries(sys), scope), true);
    case SaveSnapshot(scope, payload) =>
      FullPayloadIsUpToDate(sys, scope, payload);
      ChainedKeepsOk(sys, payload, false);
    case Dispatch(i) => DispatchKeepsOk(sys, i);
    case Deliver(i, position, now) => DeliverKeepsOk(sys, i, position, now);
    case Ack(i) => AckKeepsOk(sys, i);
    case Reload => ReloadKeepsOk(sys);
    case _ => StoppingStepKeepsOk(sys, l);
  }

  lemma {:induction false} GuardedRunsKeepOk(sys: System, labels: seq<Label>)
    requires SystemOk(sys) && Run(sys, labels, Guarded).Some?
    ensures SystemOk(Run(sys, labels, Guarded).value)
    decreases |labels|
  {
    if labels != [] {
      StepKeepsOk(sys, labels[0]);
      GuardedRunsKeepOk(Step(sys, labels[0]).value, labels[1..]);
    }
  }

  /** A step that leaves nothing behind, from a state in which nothing is, leads to such a state. */
  lemma CalmStep(sys: System, l: Label)
    requires NothingLeftBehind(sys) && Allowed(sys, l, Calm) && Step(sys, l).Some? && ChainOk(sys.flights)
    ensures NothingLeftBehind(Step(sys, l).value)
  {
    var sys' := Step(sys, l).value;
    forall i ensures !LeftBehind(sys', i) {
      if 0 <= i < |sys.flights| {
        assert !LeftBehind(sys, i);
      }
    }
  }

  /** So a calm run is a guarded one: the chain alone keeps requests from overtaking each other. */
  lemma {:induction false} CalmRunsAreGuarded(sys: System, labels: seq<Label>)
    requires SystemOk(sys) && NothingLeftBehind(sys) && Run(sys, labels, Calm).Some?
    ensures Run(sys, labels, Guarded) == Run(sys, labels, Calm)
    ensures NothingLeftBehind(Run(sys, labels, Calm).value)
    decreases |labels|
  {
    if labels != [] {
      var next := Step(sys, labels[0]).value;
      CalmStep(sys, labels[0]);
      StepKeepsOk(sys, labels[0]);
      CalmRunsAreGuarded(next, labels[1..]);
    }
  }

  /**
   From a freshly loaded page, in every run that dispatches only while nothing is left behind: no
   answer is lost, whatever fails, is lost or is reloaded, and once the queue is empty the server
   holds the latest value of everything ever edited.
   */
  lemma NoRunLosesAnAnswer(sys: System, labels: seq<Label>)
    requires JustLoaded(sys) && Run(sys, labels, Guarded).Some?
    ensures var end := Run(sys, labels, Guarded).value;
            && NoAnswerLost(end)
            && (Entries(end) == [] ==> forall q :: q in end.latest ==> OnServer(end, end.latest[q]))
  {
    JustLoadedIsOk(sys);
    GuardedRunsKeepOk(sys, labels);
    OkMeansNoAnswerLost(Run(sys, labels, Guarded).value);
  }

  /**
   In every run that leaves nothing behind - no reload and no client-side failure while a request is in
   transit - the chain keeps the requests in order by itself: at most one that writes anything is ever
   in transit, and no answer is lost.
   */
  lemma TheChainIsEnoughInCalmRuns(sys: System, labels: seq<Label>)
    requires JustLoaded(sys) && Run(sys, labels, Calm).Some?
    ensures var end := Run(sys, labels, Calm).value; OneInTransit(end.flights) && NoAnswerLost(end)
  {
    JustLoadedIsOk(sys);
    CalmRunsAreGuarded(sys, labels);
    GuardedRunsKeepOk(sys, labels);
    OkMeansNoAnswerLost(Run(sys, labels, Guarded).value);
  }
}
