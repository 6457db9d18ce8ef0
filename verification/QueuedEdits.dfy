/**
 How long an edit stays in the queue: until its question is edited again or a save that was issued after
 it succeeds, whatever else happens.
 */
module QueuedEdits {
  import opened Prelude
  import opened ExamTables
  import opened AnswerQueue
  import opened Durability
  import opened LostRequests

  lemma FreshRevisionIsNotAcked(sys: System, i: nat, q: QuestionId)
    requires SystemOk(sys) && i < |sys.flights|
    ensures AckedRevision(sys.flights[i].payload, q) != Some(LoadState(sys.storage).next)
  {
    var acked := sys.flights[i].payload;
    LoadedStateIsValid(sys.storage);
    forall e | e in acked && e.question == q ensures e.revision != LoadState(sys.storage).next {
      assert Carries(sys, i, e) && FromHistory(sys, e);
    }
  }

  /** A success that removes this edit from the queue. */
  ghost predicate AcksEdit(sys: System, l: Label, edit: QueuedAnswer) {
    && l.Ack? && l.flight < |sys.flights| && sys.flights[l.flight].acks
    && AckedRevision(sys.flights[l.flight].payload, edit.question) == Some(edit.revision)
  }

  predicate IsEditOf(l: Label, q: QuestionId) {
    l.Edit? && l.question == q
  }

  lemma StepKeepsEdit(sys: System, l: Label, edit: QueuedAnswer)
    requires edit in Entries(sys) && Step(sys, l).Some? && !IsEditOf(l, edit.question) && !AcksEdit(sys, l, edit)
    ensures edit in Entries(Step(sys, l).value)
  {
    match l
    case Edit(q, answer, flagged) => EditedStorage(sys, q, answer, flagged);
    case Ack(i) => AckedStorage(sys, i);
    case _ =>
  }

  /** Requests keep their payload; once settled nobody starts or stops listening to one. */
  lemma StepKeepsFlight(sys: System, l: Label, i: nat)
    requires i < |sys.flights| && Step(sys, l).Some?
    ensures var sys' := Step(sys, l).value;
            && i < |sys'.flights| && sys'.flights[i].payload == sys.flights[i].payload
            && (sys'.flights[i].acks ==> sys.flights[i].acks)
            && (!sys.flights[i].pending ==> !sys'.flights[i].pending && sys'.flights[i].acks == sys.flights[i].acks)
  {
  }

  lemma {:induction false} SettledFlightStays(sys: System, labels: seq<Label>, i: nat)
    requires i < |sys.flights| && !sys.flights[i].pending && Run(sys, labels, AnyRun).Some?
    ensures var end := Run(sys, labels, AnyRun).value; i < |end.flights| && end.flights[i].acks == sys.flights[i].acks
    decreases |labels|
  {
    hide Step;
    if labels != [] {
      StepKeepsFlight(sys, labels[0], i);
      SettledFlightStays(Step(sys, labels[0]).value, labels[1..], i);
    }
  }

  lemma AckSettlesFlight(sys: System, i: nat)
    requires Step(sys, Ack(i)).Some?
    ensures i < |sys.flights| && var next := Step(sys, Ack(i)).value;
            i < |next.flights| && !next.flights[i].pending && next.flights[i].acks == sys.flights[i].acks
  {
  }

  /** None of the first `n` requests carries this edit. */
  ghost predicate EditIsNewer(sys: System, n: nat, edit: QueuedAnswer) {
    && n <= |sys.flights|
    && forall i :: 0 <= i < n ==> AckedRevision(sys.flights[i].payload, edit.question) != Some(edit.revision)
  }

  lemma StepKeepsEditNewer(sys: System, l: Label, n: nat, edit: QueuedAnswer)
    requires EditIsNewer(sys, n, edit) && Step(sys, l).Some?
    ensures EditIsNewer(Step(sys, l).value, n, edit)
  {
    hide Step;
    if n > 0 {
      StepKeepsFlight(sys, l, n - 1);
    }
    forall i | 0 <= i < |sys.flights|
      ensures i < |Step(sys, l).value.flights| && Step(sys, l).value.flights[i].payload == sys.flights[i].payload
    {
      StepKeepsFlight(sys, l, i);
    }
  }

  /** Of the requests from the n-th on, none whose success is in `labels` was listened to. */
  ghost predicate NewSuccessesUnheard(end: System, labels: seq<Label>, n: nat) {
    forall i :: i >= n && Ack(i) in labels ==> i < |end.flights| && !end.flights[i].acks
  }

  lemma {:induction false} EditStaysQueued(sys: System, labels: seq<Label>, n: nat, edit: QueuedAnswer)
    requires edit in Entries(sys) && EditIsNewer(sys, n, edit) && Run(sys, labels, AnyRun).Some?
    requires forall l :: l in labels ==> !IsEditOf(l, edit.question)
    requires NewSuccessesUnheard(Run(sys, labels, AnyRun).value, labels, n)
    ensures edit in Entries(Run(sys, labels, AnyRun).value)
    decreases |labels|
  {
    hide Step;
    if labels != [] {
      var l := labels[0];
      var next := Step(sys, l).value;
      assert l in labels;
      if l.Ack? {
        AckSettlesFlight(sys, l.flight);
        SettledFlightStays(next, labels[1..], l.flight);
      }
      StepKeepsEdit(sys, l, edit);
      StepKeepsEditNewer(sys, l, n, edit);
      assert forall k :: k in labels[1..] ==> k in labels;
      EditStaysQueued(next, labels[1..], n, edit);
    }
  }

  /**
   An edit stays queued, whatever is delivered, lost, failed, acknowledged or reloaded, until the same
   question is edited again or a save of the queue that was issued after the edit succeeds.
   */
  lemma EditStaysUntilItsOwnSave(sys: System, q: QuestionId, answer: string, flagged: bool, labels: seq<Label>)
    requires SystemOk(sys) && Run(Edited(sys, q, answer, flagged), labels, AnyRun).Some?
    requires forall l :: l in labels ==> !IsEditOf(l, q)
    requires NewSuccessesUnheard(Run(Edited(sys, q, answer, flagged), labels, AnyRun).value, labels, |sys.flights|)
    ensures QueuedAnswer(q, answer, flagged, LoadState(sys.storage).next)
         in Entries(Run(Edited(sys, q, answer, flagged), labels, AnyRun).value)
  {
    hide Step, Run;
    var edit := QueuedAnswer(q, answer, flagged, LoadState(sys.storage).next);
    var edited := Edited(sys, q, answer, flagged);
    EditedStorage(sys, q, answer, flagged);
    assert Entries(edited)[|Entries(edited)| - 1] == edit;
    forall i | 0 <= i < |sys.flights| ensures AckedRevision(edited.flights[i].payload, q) != Some(edit.revision) {
      FreshRevisionIsNotAcked(sys, i, q);
    }
    EditStaysQueued(edited, labels, |sys.flights|, edit);
  }

  /** No request from the n-th on acknowledges the queue. */
  predicate NewRequestsAreSnapshots(flights: seq<Flight>, n: nat) {
    forall i :: n <= i < |flights| ==> !flights[i].acks
  }

  lemma StepAddsSnapshots(sys: System, l: Label, n: nat)
    requires NewRequestsAreSnapshots(sys.flights, n) && Step(sys, l).Some? && !l.SaveDeltas?
    ensures NewRequestsAreSnapshots(Step(sys, l).value.flights, n)
  {
  }

  lemma {:induction false} RunAddsSnapshots(sys: System, labels: seq<Label>, n: nat)
    requires NewRequestsAreSnapshots(sys.flights, n) && Run(sys, labels, AnyRun).Some?
    requires forall l :: l in labels ==> !l.SaveDeltas?
    ensures NewRequestsAreSnapshots(Run(sys, labels, AnyRun).value.flights, n)
    ensures forall i: nat :: Ack(i) in labels ==> i < |Run(sys, labels, AnyRun).value.flights|
    decreases |labels|
  {
    hide Step;
    if labels != [] {
      var l := labels[0];
      assert l in labels && forall k :: k in labels[1..] ==> k in labels;
      StepAddsSnapshots(sys, l, n);
      if l.Ack? {
        AckSettlesFlight(sys, l.flight);
        SettledFlightStays(Step(sys, l).value, labels[1..], l.flight);
      }
      RunAddsSnapshots(Step(sys, l).value, labels[1..], n);
      assert labels == [l] + labels[1..];
    }
  }

  /** So an edit made while saves are on their way survives all their acknowledgements, and any full save's. */
  lemma LaterEditSurvivesAck(sys: System, q: QuestionId, answer: string, flagged: bool, labels: seq<Label>)
    requires SystemOk(sys) && Run(Edited(sys, q, answer, flagged), labels, AnyRun).Some?
    requires forall l :: l in labels ==> !l.SaveDeltas? && !IsEditOf(l, q)
    ensures QueuedAnswer(q, answer, flagged, LoadState(sys.storage).next)
         in Entries(Run(Edited(sys, q, answer, flagged), labels, AnyRun).value)
  {
    hide Step, Run;
    RunAddsSnapshots(Edited(sys, q, answer, flagged), labels, |sys.flights|);
    EditStaysUntilItsOwnSave(sys, q, answer, flagged, labels);
  }

  /** The acknowledgement of a save that the page no longer listens to leaves the queue as it is. */
  lemma StoppedSaveLeavesQueue(sys: System, i: nat)
    requires IsPending(sys, i) && Is(sys, i, Landed)
    ensures var run := Run(sys, [StopListening(i)] + ([Ack(i)] + []), AnyRun);
            run.Some? && run.value.storage == sys.storage && i < |run.value.flights| && !run.value.flights[i].pending
  {
    var stopped := Step(sys, StopListening(i)).value;
    RunStep(stopped, Ack(i), [], AnyRun);
    RunStep(sys, StopListening(i), [Ack(i)] + [], AnyRun);
  }
}
