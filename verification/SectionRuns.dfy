/**
 Advances of one sitting's sections under concurrency: the student's own advance, a double-fired
 one and the expiry worker's race for the same rows, statement by statement.
 */
module SectionRuns {
  import opened Prelude
  import opened ExamTables
  import opened SectionTable

  type TxId = int

  /** The expiry worker reads the active section under its row lock before it advances; a student's advance does not. */
  datatype Progress = Begun | Held(seen: Section) | Closing | Promoted(next: Option<TestId>)

  datatype Tx = Tx(test: TestId, now: Time, progress: Progress, writes: Sections)

  /** `advanced` lists the sections closed by committed advances, in commit order. */
  datatype State = State(rows: Sections, locks: map<TestId, TxId>, txs: map<TxId, Tx>, advanced: seq<TestId>)

  datatype Label =
    | Begin(tx: TxId, test: TestId, now: Time)
    | LockActive(tx: TxId)
    | CloseActive(tx: TxId)
    | PromoteNext(tx: TxId, choice: TestId)
    | Commit(tx: TxId)
    | Abort(tx: TxId)
    | ExtendActive(minutes: int, now: Time)

  function End(p: State, i: TxId): State {
    p.(txs := p.txs - {i}, locks := map t | t in p.locks && p.locks[t] != i :: p.locks[t])
  }

  function Locked(p: State, i: TxId, t: TestId, tx: Tx): State {
    p.(txs := p.txs[i := tx], locks := p.locks[t := i])
  }

  predicate LockedByOther(p: State, i: TxId, t: TestId) {
    t in p.locks && p.locks[t] != i
  }

  function LockStep(p: State, i: TxId, me: Tx): Option<State> {
    if me.test !in p.rows || p.rows[me.test].status != Active then Some(End(p, i))
    else if LockedByOther(p, i, me.test) then None
    else Some(Locked(p, i, me.test, me.(progress := Held(p.rows[me.test]))))
  }

  function CloseStep(p: State, i: TxId, me: Tx): Option<State> {
    if me.test !in p.rows || p.rows[me.test].status != Active then Some(End(p, i)) // no row matched: ErrNoActiveSection
    else if LockedByOther(p, i, me.test) then None
    else Some(Locked(p, i, me.test, me.(progress := Closing, writes := map[me.test := CloseRow(p.rows[me.test], me.now)])))
  }

  /** `choice` is the row the ordered subquery returns, if it returns one. */
  function PromoteStep(p: State, i: TxId, me: Tx, choice: TestId): Option<State> {
    var seen := p.rows + me.writes;
    if InStatus(seen, Pending) == {} then Some(p.(txs := p.txs[i := me.(progress := Promoted(None))]))
    else if !IsNext(seen, choice) || choice in p.locks then None
    else Some(Locked(p, i, choice, me.(progress := Promoted(Some(choice)),
                                   writes := me.writes[choice := StartRow(seen[choice], me.now)])))
  }

  function Step(p: State, l: Label): Option<State> {
    match l
    case Begin(i, test, now) => if i in p.txs then None else Some(p.(txs := p.txs[i := Tx(test, now, Begun, map[])]))
    case LockActive(i) => if i in p.txs && p.txs[i].progress.Begun? then LockStep(p, i, p.txs[i]) else None
    case CloseActive(i) =>
      if i in p.txs && (p.txs[i].progress.Begun? || p.txs[i].progress.Held?) then CloseStep(p, i, p.txs[i]) else None
    case PromoteNext(i, choice) =>
      if i in p.txs && p.txs[i].progress.Closing? then PromoteStep(p, i, p.txs[i], choice) else None
    case Commit(i) =>
      if i in p.txs && p.txs[i].progress.Promoted?
      then Some(End(p, i).(rows := p.rows + p.txs[i].writes, advanced := p.advanced + [p.txs[i].test]))
      else None
    case Abort(i) => if i in p.txs then Some(End(p, i)) else None
    case ExtendActive(minutes, now) =>
      if InStatus(p.rows, Active) * p.locks.Keys != {} then None else Some(p.(rows := Extended(p.rows, minutes, now)))
  }

  function Run(p: State, labels: seq<Label>): Option<State>
    decreases |labels|
  {
    if labels == [] then Some(p)
    else
      var q := Step(p, labels[0]);
      if q.None? then None else Run(q.value, labels[1..])
  }

  // ---------- Invariant ----------

  /** A transaction past its first statement holds the one active section, so there is only one such transaction. */
  ghost predicate TxOk(p: State, i: TxId, tx: Tx) {
    match tx.progress
    case Begun => tx.writes == map[]
    case Held(seen) =>
      && tx.test in p.rows && p.rows[tx.test] == seen && seen.status == Active && tx.test in p.locks && p.locks[tx.test] == i
      && tx.writes == map[]
    case Closing =>
      && tx.test in p.rows && p.rows[tx.test].status == Active && tx.test in p.locks && p.locks[tx.test] == i
      && tx.writes == map[tx.test := CloseRow(p.rows[tx.test], tx.now)]
    case Promoted(next) =>
      && tx.test in p.rows && p.rows[tx.test].status == Active && tx.test in p.locks && p.locks[tx.test] == i
      && Advanced(p.rows, tx.test, next, tx.now, p.rows + tx.writes)
  }

  ghost predicate SectionsOk(p: State) {
    && DistinctOrders(p.rows) && InSequence(p.rows)
    && Distinct(p.advanced)
    && (forall i :: i in p.txs ==> TxOk(p, i, p.txs[i]))
  }

  lemma CloseStepOk(p: State, l: Label)
    requires SectionsOk(p) && Step(p, l).Some? && (l.LockActive? || l.CloseActive?)
    ensures SectionsOk(Step(p, l).value)
  {
    var q := Step(p, l).value;
    forall j | j in q.txs ensures TxOk(q, j, q.txs[j]) {
      assert TxOk(p, j, p.txs[j]);
    }
  }

  lemma PromoteStepOk(p: State, i: TxId, choice: TestId)
    requires SectionsOk(p) && Step(p, PromoteNext(i, choice)).Some?
    ensures SectionsOk(Step(p, PromoteNext(i, choice)).value)
  {
    var q := Step(p, PromoteNext(i, choice)).value;
    var me := p.txs[i];
    assert TxOk(p, i, me);
    var closed := p.rows[me.test := CloseRow(p.rows[me.test], me.now)];
    assert p.rows + me.writes == closed;
    if InStatus(closed, Pending) == {} {
      assert Advanced(p.rows, me.test, None, me.now, closed);
    } else {
      assert p.rows + q.txs[i].writes == Promote(closed, Some(choice), me.now);
    }
    forall j | j in q.txs && j != i ensures TxOk(q, j, q.txs[j]) {
      assert TxOk(p, j, p.txs[j]);
    }
  }

  /** Committing applies one whole advance to the rows it finds; nobody else was half-way through one. */
  lemma CommitIsOneAdvance(p: State, i: TxId)
    requires SectionsOk(p) && Step(p, Commit(i)).Some?
    ensures var q := Step(p, Commit(i)).value; var me := p.txs[i];
            && Advanced(p.rows, me.test, me.progress.next, me.now, q.rows)
            && q.advanced == p.advanced + [me.test]
            && DistinctOrders(q.rows) && InSequence(q.rows)
            && forall j :: j in q.txs ==> q.txs[j].progress.Begun? && TxOk(q, j, q.txs[j])
  {
    var q := Step(p, Commit(i)).value;
    var me := p.txs[i];
    assert TxOk(p, i, me);
    AdvanceKeepsSequence(p.rows, me.test, me.progress.next, me.now, q.rows);
    forall j | j in q.txs ensures q.txs[j].progress.Begun? && TxOk(q, j, q.txs[j]) {
      assert TxOk(p, j, p.txs[j]);
    }
  }

  lemma ExtensionKeepsSequence(rows: Sections, minutes: int, now: Time)
    requires DistinctOrders(rows) && InSequence(rows)
    ensures DistinctOrders(Extended(rows, minutes, now)) && InSequence(Extended(rows, minutes, now))
    ensures forall st :: InStatus(Extended(rows, minutes, now), st) == InStatus(rows, st)
  {
    var rows' := Extended(rows, minutes, now);
    forall st ensures InStatus(rows', st) == InStatus(rows, st) {
      forall t ensures t in InStatus(rows', st) <==> t in InStatus(rows, st) {
      }
    }
  }

  lemma ExtendStepOk(p: State, minutes: int, now: Time)
    requires SectionsOk(p) && Step(p, ExtendActive(minutes, now)).Some?
    ensures SectionsOk(Step(p, ExtendActive(minutes, now)).value)
  {
    var q := Step(p, ExtendActive(minutes, now)).value;
    ExtensionKeepsSequence(p.rows, minutes, now);
    forall j | j in q.txs ensures TxOk(q, j, q.txs[j]) {
      assert TxOk(p, j, p.txs[j]);
      assert p.txs[j].test !in InStatus(p.rows, Active) * p.locks.Keys;
    }
  }

  /** The closed sections are those closed at the start and those advanced since, each advanced once. */
  ghost predicate ClosedAreAdvanced(p: State, start: set<TestId>) {
    && InStatus(p.rows, Closed) == start + (set t | t in p.advanced)
    && forall t :: t in p.advanced ==> t !in start
  }

  lemma OpenOrEndOk(p: State, l: Label)
    requires SectionsOk(p) && Step(p, l).Some? && (l.Begin? || l.Abort?)
    ensures SectionsOk(Step(p, l).value)
  {
    var q := Step(p, l).value;
    forall j | j in q.txs ensures TxOk(q, j, q.txs[j]) {
      assert j in p.txs ==> TxOk(p, j, p.txs[j]);
    }
  }

  lemma CommitStepOk(p: State, i: TxId, start: set<TestId>)
    requires SectionsOk(p) && ClosedAreAdvanced(p, start) && Step(p, Commit(i)).Some?
    ensures var q := Step(p, Commit(i)).value;
            SectionsOk(q) && ClosedAreAdvanced(q, start) && q.rows.Keys == p.rows.Keys
  {
    var q := Step(p, Commit(i)).value;
    CommitIsOneAdvance(p, i);
    var me := p.txs[i];
    AdvanceKeepsSequence(p.rows, me.test, me.progress.next, me.now, q.rows);
    assert me.test !in InStatus(p.rows, Closed);
    assert (set t | t in q.advanced) == (set t | t in p.advanced) + {me.test};
  }

  lemma StepOk(p: State, l: Label, start: set<TestId>)
    requires SectionsOk(p) && ClosedAreAdvanced(p, start) && Step(p, l).Some?
    ensures SectionsOk(Step(p, l).value) && ClosedAreAdvanced(Step(p, l).value, start)
    ensures Step(p, l).value.rows.Keys == p.rows.Keys
  {
    match l
    case Begin(_, _, _) => OpenOrEndOk(p, l);
    case LockActive(_) => CloseStepOk(p, l);
    case CloseActive(_) => CloseStepOk(p, l);
    case PromoteNext(i, choice) => PromoteStepOk(p, i, choice);
    case Commit(i) => CommitStepOk(p, i, start);
    case Abort(i) => OpenOrEndOk(p, l);
    case ExtendActive(minutes, now) =>
      ExtendStepOk(p, minutes, now);
      ExtensionKeepsSequence(p.rows, minutes, now);
  }

  lemma {:induction false} EveryRunKeepsSections(p: State, labels: seq<Label>, start: set<TestId>)
    requires SectionsOk(p) && ClosedAreAdvanced(p, start) && Run(p, labels).Some?
    ensures var q := Run(p, labels).value;
            SectionsOk(q) && ClosedAreAdvanced(q, start) && q.rows.Keys == p.rows.Keys
    decreases |labels|
  {
    if labels != [] {
      StepOk(p, labels[0], start);
      EveryRunKeepsSections(Step(p, labels[0]).value, labels[1..], start);
    }
  }

  /**
   From a freshly seeded sitting of n sections, in every interleaving: the sections stay in
   sequence, at most one is active, no section is advanced twice however often its advance is
   fired, and the sitting is through exactly when n advances have committed.
   */
  lemma SittingTakesExactlyItsSections(tests: seq<TestId>, sections: seq<Section>, labels: seq<Label>)
    requires |tests| == |sections| && Distinct(tests) && Seeding(sections)
    requires var p := State(Inserted(map[], tests, sections), map[], map[], []); Run(p, labels).Some?
    ensures var q := Run(State(Inserted(map[], tests, sections), map[], map[], []), labels).value;
            && InSequence(q.rows) && |InStatus(q.rows, Active)| <= 1
            && Distinct(q.advanced) && |q.advanced| <= |tests|
            && (InStatus(q.rows, Active) == {} <==> |q.advanced| == |tests|)
  {
    var p := State(Inserted(map[], tests, sections), map[], map[], []);
    SeedingIsInSequence(tests, sections);
    EveryRunKeepsSections(p, labels, {});
    var q := Run(p, labels).value;
    ActiveJoinIsUnique(q.rows);
    var closed := InStatus(q.rows, Closed);
    DistinctSameSetSameLength(q.advanced, closed);
    SubsetSize(closed, q.rows.Keys);
  }

  lemma {:induction false} SubsetSize<T>(a: set<T>, b: set<T>)
    requires a <= b
    ensures |a| <= |b|
    ensures |a| == |b| ==> a == b
  {
    assert b == a + (b - a);
    assert |b| == |a| + |b - a|;
    if |a| == |b| {
      assert b - a == {};
    }
  }

  /** A second advance of a section that is no longer active ends without touching a row. */
  lemma DoubleFiredAdvanceIsNoOp(p: State, i: TxId)
    requires SectionsOk(p) && i in p.txs && p.txs[i].progress.Begun? && p.txs[i].test in InStatus(p.rows, Closed)
    ensures Step(p, CloseActive(i)).Some?
    ensures Step(p, CloseActive(i)).value.rows == p.rows && i !in Step(p, CloseActive(i)).value.txs
  {
  }

  // ---------- An advance that is not done can move, or waits for one that can ----------

  /** Every lock belongs to a transaction past its first statement, on its own section or on the one it opens. */
  ghost predicate LocksOk(p: State) {
    forall t :: t in p.locks ==>
                  var j := p.locks[t];
                  && j in p.txs && !p.txs[j].progress.Begun?
                  && (t == p.txs[j].test || p.txs[j].progress == Promoted(Some(t)))
  }

  lemma StepKeepsLocks(p: State, l: Label)
    requires LocksOk(p) && Step(p, l).Some?
    ensures LocksOk(Step(p, l).value)
  {
  }

  lemma {:induction false} EveryRunKeepsLocks(p: State, labels: seq<Label>)
    requires LocksOk(p) && Run(p, labels).Some?
    ensures LocksOk(Run(p, labels).value)
    decreases |labels|
  {
    if labels != [] {
      StepKeepsLocks(p, labels[0]);
      EveryRunKeepsLocks(Step(p, labels[0]).value, labels[1..]);
    }
  }

  /** The next statement of a transaction: `holding` says whether it locks first, `choice` what the subquery returns. */
  function NextOf(i: TxId, tx: Tx, holding: bool, choice: TestId): Label {
    match tx.progress
    case Begun => if holding then LockActive(i) else CloseActive(i)
    case Held(_) => CloseActive(i)
    case Closing => PromoteNext(i, choice)
    case Promoted(_) => Commit(i)
  }

  /** Past its first statement a transaction never waits. */
  lemma HolderMoves(p: State, i: TxId, holding: bool) returns (choice: TestId)
    requires SectionsOk(p) && LocksOk(p) && i in p.txs && !p.txs[i].progress.Begun?
    ensures Step(p, NextOf(i, p.txs[i], holding, choice)).Some?
  {
    var me := p.txs[i];
    assert TxOk(p, i, me);
    choice := 0;
    var seen := p.rows + me.writes;
    if me.progress.Closing? && InStatus(seen, Pending) != {} {
      choice := SomePendingIsNext(seen, InStatus(seen, Pending));
      assert forall u :: u in seen && seen[u].status == Pending ==> u in InStatus(seen, Pending);
      forall j | j in p.txs && !p.txs[j].progress.Begun? ensures j == i {
        assert TxOk(p, j, p.txs[j]);
      }
    }
  }

  /** An advance can execute its next statement, or waits for the one transaction that holds its section, which can. */
  lemma MovesOrWaitsForHolder(p: State, i: TxId, holding: bool) returns (j: TxId, choice: TestId)
    requires SectionsOk(p) && LocksOk(p) && i in p.txs
    ensures j in p.txs && Step(p, NextOf(j, p.txs[j], holding, choice)).Some?
    ensures j != i ==> p.txs[i].test in p.locks && p.locks[p.txs[i].test] == j
  {
    j, choice := i, 0;
    if !p.txs[i].progress.Begun? {
      choice := HolderMoves(p, i, holding);
    } else if Step(p, NextOf(i, p.txs[i], holding, choice)).None? {
      j := p.locks[p.txs[i].test];
      choice := HolderMoves(p, j, holding);
    }
  }

  predicate IsStatementOf(l: Label, i: TxId) {
    match l
    case LockActive(j) => i == j
    case CloseActive(j) => i == j
    case PromoteNext(j, _) => i == j
    case Commit(j) => i == j
    case _ => false
  }

  /** No statement is executed out of its turn. */
  lemma StatementsInOrder(p: State, l: Label, i: TxId) returns (holding: bool, choice: TestId)
    requires IsStatementOf(l, i) && Step(p, l).Some?
    ensures i in p.txs && l == NextOf(i, p.txs[i], holding, choice)
  {
    holding, choice := l.LockActive?, if l.PromoteNext? then l.choice else 0;
  }

  lemma RunFirst(p: State, l: Label, rest: seq<Label>)
    requires Step(p, l).Some?
    ensures Run(p, [l] + rest) == Run(Step(p, l).value, rest)
  {
    assert ([l] + rest)[1..] == rest;
  }

  lemma BeginsAndCloses(p: State, i: TxId, test: TestId, now: Time) returns (p1: State, p2: State)
    requires SectionsOk(p) && p.locks == map[] && i !in p.txs && test in p.rows && p.rows[test].status == Active
    ensures Step(p, Begin(i, test, now)) == Some(p1) && Step(p1, CloseActive(i)) == Some(p2)
    ensures SectionsOk(p2) && LocksOk(p2) && p2.rows == p.rows && p2.advanced == p.advanced
    ensures i in p2.txs && p2.txs - {i} == p.txs && p2.locks == map[test := i]
    ensures p2.txs[i].test == test && p2.txs[i].now == now && p2.txs[i].progress == Closing
  {
    p1 := Step(p, Begin(i, test, now)).value;
    p2 := Step(p1, CloseActive(i)).value;
    OpenOrEndOk(p, Begin(i, test, now));
    CloseStepOk(p1, CloseActive(i));
  }

  lemma PromotesAndCommits(p: State, p2: State, i: TxId, test: TestId, now: Time)
    returns (choice: TestId, next: Option<TestId>, p3: State, p4: State)
    requires SectionsOk(p2) && LocksOk(p2) && p2.rows == p.rows && p2.advanced == p.advanced
    requires i in p2.txs && p2.txs - {i} == p.txs && p2.locks == map[test := i]
    requires p2.txs[i].test == test && p2.txs[i].now == now && p2.txs[i].progress == Closing
    ensures Step(p2, PromoteNext(i, choice)) == Some(p3) && Step(p3, Commit(i)) == Some(p4)
    ensures Advanced(p.rows, test, next, now, p4.rows) && p4.advanced == p.advanced + [test] && p4.txs == p.txs && p4.locks == map[]
  {
    hide Advanced, TxOk, DistinctOrders, InSequence, Distinct;
    choice := HolderMoves(p2, i, false);
    p3 := Step(p2, PromoteNext(i, choice)).value;
    PromoteStepOk(p2, i, choice);
    p4 := Step(p3, Commit(i)).value;
    CommitIsOneAdvance(p3, i);
    next := p3.txs[i].progress.next;
  }

  /** With no advance under way, one of the active section goes through and leaves its rows and nothing else. */
  lemma AdvanceGoesThrough(p: State, i: TxId, test: TestId, now: Time) returns (choice: TestId, next: Option<TestId>)
    requires SectionsOk(p) && p.locks == map[] && i !in p.txs && test in p.rows && p.rows[test].status == Active
    ensures var run := Run(p, [Begin(i, test, now)] + ([CloseActive(i)] + ([PromoteNext(i, choice)] + ([Commit(i)] + []))));
            && run.Some? && Advanced(p.rows, test, next, now, run.value.rows)
            && run.value.advanced == p.advanced + [test] && run.value.txs == p.txs && run.value.locks == map[]
  {
    hide Step, Advanced, SectionsOk, LocksOk;
    var p1, p2 := BeginsAndCloses(p, i, test, now);
    var p3, p4;
    choice, next, p3, p4 := PromotesAndCommits(p, p2, i, test, now);
    RunFirst(p3, Commit(i), []);
    RunFirst(p2, PromoteNext(i, choice), [Commit(i)] + []);
    RunFirst(p1, CloseActive(i), [PromoteNext(i, choice)] + ([Commit(i)] + []));
    RunFirst(p, Begin(i, test, now), [CloseActive(i)] + ([PromoteNext(i, choice)] + ([Commit(i)] + [])));
  }

  /** A rollback leaves the rows as they are and no lock behind. */
  lemma AbortLeavesNothing(p: State, i: TxId)
    requires i in p.txs
    ensures Step(p, Abort(i)).Some?
    ensures var q := Step(p, Abort(i)).value;
            q.rows == p.rows && q.advanced == p.advanced && q.txs == p.txs - {i} && forall t :: t in q.locks ==> q.locks[t] != i
  {
  }

  /** And it ends without a commit only if its section is not active. */
  lemma RefusedForAReason(p: State, i: TxId, holding: bool, choice: TestId)
    requires i in p.txs && !p.txs[i].progress.Promoted? && Step(p, NextOf(i, p.txs[i], holding, choice)).Some?
    requires i !in Step(p, NextOf(i, p.txs[i], holding, choice)).value.txs
    ensures p.txs[i].test in p.rows ==> p.rows[p.txs[i].test].status != Active
  {
  }

  /** An extension goes through unless an advance has locked the active section, and sets its deadline. */
  lemma ExtensionGoesThroughIff(p: State, minutes: int, now: Time)
    ensures Step(p, ExtendActive(minutes, now)).Some? <==>
            forall t :: t in p.rows && p.rows[t].status == Active ==> t !in p.locks
    ensures Step(p, ExtendActive(minutes, now)).Some? ==>
              Step(p, ExtendActive(minutes, now)).value == p.(rows := Extended(p.rows, minutes, now))
  {
    if InStatus(p.rows, Active) * p.locks.Keys != {} {
      var t := Member(InStatus(p.rows, Active) * p.locks.Keys);
    } else {
      forall t | t in p.rows && p.rows[t].status == Active ensures t !in p.locks {
        assert t in InStatus(p.rows, Active) && t !in InStatus(p.rows, Active) * p.locks.Keys;
      }
    }
  }

  /**
   What the worker read under the lock stays so until it advances: the section is still active and has
   the deadline it was judged by, an extension has to wait, and what the worker closes is that very row.
   */
  lemma HeldSectionStays(p: State, labels: seq<Label>, start: set<TestId>, i: TxId)
    requires SectionsOk(p) && ClosedAreAdvanced(p, start) && Run(p, labels).Some?
    requires var q := Run(p, labels).value; i in q.txs && q.txs[i].progress.Held?
    ensures var q := Run(p, labels).value; var me := q.txs[i];
            && me.test in q.rows && q.rows[me.test] == me.progress.seen && me.progress.seen.status == Active
            && (forall minutes, now :: Step(q, ExtendActive(minutes, now)).None?)
            && Step(q, CloseActive(i)).Some?
            && var closing := Step(q, CloseActive(i)).value;
               i in closing.txs && closing.txs[i].writes == map[me.test := CloseRow(me.progress.seen, me.now)]
  {
    EveryRunKeepsSections(p, labels, start);
    var q := Run(p, labels).value;
    var me := q.txs[i];
    assert TxOk(q, i, me);
    assert me.test in InStatus(q.rows, Active) * q.locks.Keys;
  }
}
