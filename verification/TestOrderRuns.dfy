/**
 Attaches, detaches and reorders of one test's questions, one call after the other: how large the sort
 orders get, so that every reorder goes through. The service compares the list of a reorder with the
 attached questions before the transaction; an attach in between makes it an out-of-date list.
 */
module TestOrderRuns {
  import opened Prelude
  import opened ExamTables
  import opened TestQuestions

  /** `max` is what the maximum query returns, `visits` the order in which the shifting update visits the rows. */
  datatype Label =
    | Attach(ids: seq<QuestionId>, max: int)
    | Detach(question: QuestionId)
    | Reorder(ids: seq<QuestionId>, visits: seq<QuestionId>)

  function OrElse<T>(r: Option<T>, otherwise: T): T {
    if r.Some? then r.value else otherwise
  }

  /** A call that is refused leaves the rows alone. */
  ghost function Step(o: Orders, l: Label): Option<Orders> {
    match l
    case Attach(ids, max) => if IsMax(o, max) then Some(OrElse(AttachAll(o, o.Keys, ids, max + 1), o)) else None
    case Detach(q) => Some(o - {q})
    case Reorder(ids, visits) =>
      if ids == [] || !Distinct(ids) || !IsPermutation(o, visits) then None
      else Some(if ReorderIsSafe(o, ids, visits) then Reordered(o, ids) else o)
  }

  /** The list of a reorder is still what is attached. */
  ghost predicate IsCurrent(o: Orders, l: Label) {
    l.Reorder? ==> IsPermutation(o, l.ids)
  }

  /** `current` says that every reorder's list is still current when it runs. */
  ghost function Run(o: Orders, labels: seq<Label>, current: bool): Option<Orders>
    decreases |labels|
  {
    if labels == [] then Some(o)
    else if current && !IsCurrent(o, labels[0]) then None
    else
      var next := Step(o, labels[0]);
      if next.None? then None else Run(next.value, labels[1..], current)
  }

  /** How many questions the attaches of a run name. */
  function Named(labels: seq<Label>): nat {
    if labels == [] then 0 else (if labels[0].Attach? then |labels[0].ids| else 0) + Named(labels[1..])
  }

  // ---------- Sequential runs ----------

  /** Unique orders from 0 to m. */
  ghost predicate Within(o: Orders, m: int) {
    UniqueOrders(o) && |o| <= m + 1 && forall q :: q in o ==> 0 <= o[q] <= m
  }

  lemma {:induction false} NewLength(existing: set<QuestionId>, ids: seq<QuestionId>)
    ensures |New(existing, ids)| <= |ids|
  {
    if ids != [] {
      NewLength(existing, ids[1..]);
    }
  }

  lemma {:induction false} SetOfList(xs: seq<QuestionId>)
    ensures |set q | q in xs| <= |xs|
  {
    if xs == [] {
      assert (set q | q in xs) == {};
    } else {
      SetOfList(xs[1..]);
      assert (set q | q in xs) == {xs[0]} + set q | q in xs[1..];
    }
  }

  lemma AttachedAt(o: Orders, next: int, added: seq<QuestionId>, o': Orders, q: QuestionId)
    requires Appended(o, next, added, o') && q in o' && q !in o
    ensures next <= o'[q] < next + |added|
  {
    assert q in added;
    var i :| 0 <= i < |added| && added[i] == q;
  }

  lemma AttachStaysWithin(o: Orders, ids: seq<QuestionId>, max: int, m: nat)
    requires Within(o, m) && IsMax(o, max)
    ensures Within(OrElse(AttachAll(o, o.Keys, ids, max + 1), o), m + |ids|)
  {
    var added := New(o.Keys, ids);
    AttachAllAppends(o, o.Keys, ids, max + 1);
    NewLength(o.Keys, ids);
    if AttachAll(o, o.Keys, ids, max + 1).Some? {
      var o' := AttachAll(o, o.Keys, ids, max + 1).value;
      AppendKeepsUnique(o, max + 1, added, o');
      SetOfList(added);
      forall q | q in o' ensures 0 <= o'[q] <= m + |ids| {
        if q !in o {
          AttachedAt(o, max + 1, added, o', q);
        }
      }
    }
  }

  lemma ListLength(o: Orders, ids: seq<QuestionId>)
    requires IsPermutation(o, ids)
    ensures |ids| == |o|
  {
    forall q ensures q in ids <==> q in o.Keys {
    }
    DistinctSameSetSameLength(ids, o.Keys);
    assert |o| == |o.Keys|;
  }

  lemma ReorderedAt(o: Orders, ids: seq<QuestionId>, q: QuestionId)
    requires Distinct(ids) && q in o
    ensures Reordered(o, ids).Keys == o.Keys
    ensures if q in ids then 0 <= Reordered(o, ids)[q] < |ids| else Reordered(o, ids)[q] == o[q] + |ids| + SHIFT
  {
    PlacedAt(Shifted(o, o.Keys, |ids| + SHIFT), ids, |ids|);
    assert ids[..|ids|] == ids;
    if q in ids {
      var i := ListedAt(ids, |ids|, q);
    }
  }

  lemma ReorderedIsUnique(o: Orders, ids: seq<QuestionId>)
    requires UniqueOrders(o) && Distinct(ids) && forall q :: q in o ==> 0 <= o[q]
    ensures UniqueOrders(Reordered(o, ids)) && Reordered(o, ids).Keys == o.Keys
  {
    PlacedAt(Shifted(o, o.Keys, |ids| + SHIFT), ids, |ids|);
    PlacingIsSafe(Shifted(o, o.Keys, |ids| + SHIFT), ids, |ids|);
  }

  lemma ReorderStaysWithin(o: Orders, ids: seq<QuestionId>, m: nat)
    requires Within(o, m) && IsPermutation(o, ids)
    ensures Within(Reordered(o, ids), m)
  {
    hide Reordered;
    ListLength(o, ids);
    ReorderedIsUnique(o, ids);
    forall q | q in o ensures 0 <= Reordered(o, ids)[q] <= m {
      ReorderedAt(o, ids, q);
    }
    assert |Reordered(o, ids)| == |Reordered(o, ids).Keys| == |o|;
  }

  lemma DetachStaysWithin(o: Orders, q: QuestionId, m: int)
    requires Within(o, m)
    ensures Within(o - {q}, m)
  {
    assert (o - {q}).Keys == o.Keys - {q};
  }

  lemma StepStaysWithin(o: Orders, l: Label, m: nat)
    requires Within(o, m) && IsCurrent(o, l) && Step(o, l).Some?
    ensures Within(Step(o, l).value, m + if l.Attach? then |l.ids| else 0)
  {
    hide Within, AttachAll, Reordered, ReorderIsSafe;
    match l
    case Attach(ids, max) => AttachStaysWithin(o, ids, max, m);
    case Detach(q) => DetachStaysWithin(o, q, m);
    case Reorder(ids, visits) => ReorderStaysWithin(o, ids, m);
  }

  lemma CurrentReorderIsSafe(o: Orders, l: Label, m: nat)
    requires Within(o, m) && m <= SHIFT && l.Reorder? && Step(o, l).Some?
    ensures ReorderIsSafe(o, l.ids, l.visits)
  {
    EveryReorderStateIsUnique(o, l.ids, l.visits);
  }

  /** Question i of the list has order i. */
  ghost predicate IsInOrder(o: Orders, ids: seq<QuestionId>) {
    o.Keys == (set q | q in ids) && forall i :: 0 <= i < |ids| ==> ids[i] in o && o[ids[i]] == i
  }

  /** Every reorder in such a run is carried out. */
  ghost predicate ReordersGoThrough(o: Orders, labels: seq<Label>)
    requires Run(o, labels, true).Some?
    decreases |labels|
  {
    labels != [] ==>
      && (labels[0].Reorder? ==> IsInOrder(Step(o, labels[0]).value, labels[0].ids))
      && ReordersGoThrough(Step(o, labels[0]).value, labels[1..])
  }

  lemma CurrentReorderIsCarriedOut(o: Orders, l: Label, m: nat)
    requires Within(o, m) && m <= SHIFT && l.Reorder? && IsCurrent(o, l) && Step(o, l).Some?
    ensures IsInOrder(Step(o, l).value, l.ids)
  {
    CurrentReorderIsSafe(o, l, m);
    hide Within, ReorderIsSafe;
    PlacedAt(Shifted(o, o.Keys, |l.ids| + SHIFT), l.ids, |l.ids|);
    assert l.ids[..|l.ids|] == l.ids;
    forall q ensures q in o.Keys <==> q in l.ids {
    }
    forall i | 0 <= i < |l.ids| ensures l.ids[i] in o {
      assert l.ids[i] in l.ids;
    }
  }

  /** Every call is taken while its list is current, and does what it says: an attach appends what is new, */
  lemma AttachIsTaken(o: Orders, ids: seq<QuestionId>, max: int)
    requires IsMax(o, max)
    ensures Run(o, [Attach(ids, max)], true).Some?
    ensures var o' := Run(o, [Attach(ids, max)], true).value;
            if OnlyOldRepeated(o, ids) then NewAreAppended(o, ids, max, o') else o' == o
  {
    hide AttachAll, NewAreAppended, OnlyOldRepeated, IsMax;
    AttachAllAppendsNew(o, ids, max);
  }

  /** a detach takes one question away, */
  lemma DetachIsTaken(o: Orders, q: QuestionId)
    ensures Run(o, [Detach(q)], true).Some?
    ensures var o' := Run(o, [Detach(q)], true).value; o'.Keys == o.Keys - {q} && forall u :: u in o' ==> o'[u] == o[u]
  {
  }

  /** and a reorder takes none; CurrentReordersGoThrough says what else it does. */
  lemma ReorderIsTaken(o: Orders, ids: seq<QuestionId>, visits: seq<QuestionId>)
    requires ids != [] && IsPermutation(o, ids) && IsPermutation(o, visits)
    ensures Run(o, [Reorder(ids, visits)], true).Some? && Run(o, [Reorder(ids, visits)], true).value.Keys == o.Keys
  {
    PlacedAt(Shifted(o, o.Keys, |ids| + SHIFT), ids, |ids|);
  }

  /** A run that is not confined to current lists takes the same steps. */
  lemma CurrentOrNot(o: Orders, l: Label)
    ensures Run(o, [l], false) == Step(o, l) && (IsCurrent(o, l) ==> Run(o, [l], true) == Step(o, l))
  {
  }

  lemma {:induction false} CurrentRunsStayWithin(o: Orders, labels: seq<Label>, m: nat)
    requires Within(o, m) && Run(o, labels, true).Some?
    ensures Within(Run(o, labels, true).value, m + Named(labels))
    decreases |labels|
  {
    hide Step, IsCurrent, Within;
    if labels != [] {
      var l := labels[0];
      StepStaysWithin(o, l, m);
      CurrentRunsStayWithin(Step(o, l).value, labels[1..], m + if l.Attach? then |l.ids| else 0);
    }
  }

  /**
   As long as reorders come with current lists, the orders grow by no more than what is attached: from an
   empty test on they are in range until a million questions have been attached.
   */
  lemma CurrentRunsStayInRange(o: Orders, labels: seq<Label>, m: nat)
    requires Within(o, m) && m + Named(labels) <= SHIFT && Run(o, labels, true).Some?
    ensures UniqueOrders(Run(o, labels, true).value) && InRange(Run(o, labels, true).value)
  {
    hide Step, Run;
    CurrentRunsStayWithin(o, labels, m);
  }

  /** So from an empty test on the orders are unique and in 0..1000000 until a million questions have been attached. */
  lemma EmptyTestStaysInRange(labels: seq<Label>)
    requires Named(labels) <= 1_000_000 && Run(map[], labels, true).Some?
    ensures var o := Run(map[], labels, true).value;
            && (forall q :: q in o ==> 0 <= o[q] <= 1_000_000)
            && (forall q, u :: q in o && u in o && q != u ==> o[q] != o[u])
    ensures ReordersGoThrough(map[], labels)
  {
    CurrentRunsStayInRange(map[], labels, 0);
    CurrentReordersGoThrough(map[], labels, 0);
  }

  /** And every reorder in such a run goes through. */
  lemma {:induction false} CurrentReordersGoThrough(o: Orders, labels: seq<Label>, m: nat)
    requires Within(o, m) && m + Named(labels) <= SHIFT && Run(o, labels, true).Some?
    ensures ReordersGoThrough(o, labels)
    decreases |labels|
  {
    if labels != [] {
      hide Step, Within, ReorderIsSafe, IsInOrder;
      var l := labels[0];
      StepStaysWithin(o, l, m);
      if l.Reorder? {
        CurrentReorderIsCarriedOut(o, l, m);
      }
      CurrentReordersGoThrough(Step(o, l).value, labels[1..], m + if l.Attach? then |l.ids| else 0);
    }
  }

  // ---------- An out-of-date list ----------

  /** A reorder leaves the orders in range exactly if its list names every attached question. */
  lemma ReorderStaysInRangeIff(o: Orders, ids: seq<QuestionId>)
    requires InRange(o) && Distinct(ids) && 1 <= |ids| <= SHIFT
    ensures InRange(Reordered(o, ids)) <==> forall q :: q in o ==> q in ids
  {
    hide Reordered;
    forall q | q in o
      ensures Reordered(o, ids).Keys == o.Keys
      ensures if q in ids then 0 <= Reordered(o, ids)[q] < |ids| else Reordered(o, ids)[q] == o[q] + |ids| + SHIFT
    {
      ReorderedAt(o, ids, q);
    }
    if o == map[] {
      PlacedAt(Shifted(o, o.Keys, |ids| + SHIFT), ids, |ids|);
      EmptyStaysEmpty(ids);
    }
  }

  lemma EmptyStaysEmpty(ids: seq<QuestionId>)
    requires Distinct(ids)
    ensures Reordered(map[], ids) == map[]
  {
    PlacedAt(Shifted(map[], {}, |ids| + SHIFT), ids, |ids|);
  }

  /** In whatever order the shifting update visits the rows. */
  ghost predicate GoesThrough(o: Orders, ids: seq<QuestionId>) {
    forall visits :: IsPermutation(o, visits) ==> ReorderIsSafe(o, ids, visits)
  }

  /**
   On every test whose questions have the orders 0..n-1: a reorder of them is asked for, then another
   question is attached, then the reorder runs. It goes through, but for the next reorder, of all n + 1,
   two orders are the offset apart, so some order of visiting the rows makes it fail.
   */
  lemma StaleReorderBlocksNext(o: Orders, ids: seq<QuestionId>, wanted: seq<QuestionId>, q: QuestionId, next: seq<QuestionId>)
    returns (visits: seq<QuestionId>)
    requires ids != [] && IsPermutation(o, ids) && IsPermutation(o, wanted) && |wanted| == |ids| < SHIFT && q !in o
    requires forall i :: 0 <= i < |ids| ==> ids[i] in o && o[ids[i]] == i
    requires |next| == |ids| + 1
    ensures IsMax(o, |ids| - 1) && AttachAll(o, o.Keys, [q], |ids|) == Some(o[q := |ids|])
    ensures var stale := Reordered(o[q := |ids|], wanted);
            && GoesThrough(o[q := |ids|], wanted)
            && IsPermutation(stale, visits) && !ReorderIsSafe(stale, next, visits)
  {
    hide Reordered, ReorderIsSafe;
    var attached := o[q := |ids|];
    OrdersArePositions(o, ids, q);
    forall v | IsPermutation(attached, v) ensures ReorderIsSafe(attached, wanted, v) {
      EveryReorderStateIsUnique(attached, wanted, v);
    }
    ReorderedIsUnique(attached, wanted);
    var last := wanted[|wanted| - 1];
    assert last in wanted && last in o;
    visits := StaleOrdersAreApart(attached, wanted, q, last, next);
  }

  lemma OrdersArePositions(o: Orders, ids: seq<QuestionId>, q: QuestionId)
    requires ids != [] && IsPermutation(o, ids) && |ids| < SHIFT && q !in o
    requires forall i :: 0 <= i < |ids| ==> ids[i] in o && o[ids[i]] == i
    ensures IsMax(o, |ids| - 1) && AttachAll(o, o.Keys, [q], |ids|) == Some(o[q := |ids|])
    ensures UniqueOrders(o[q := |ids|]) && InRange(o[q := |ids|])
  {
    forall u | u in o ensures 0 <= o[u] < |ids| && ids[o[u]] == u {
      assert u in ids;
      var i :| 0 <= i < |ids| && ids[i] == u;
    }
    assert ids[|ids| - 1] in o;
    assert [q][1..] == [];
  }

  lemma StaleOrdersAreApart(o: Orders, wanted: seq<QuestionId>, q: QuestionId, last: QuestionId, next: seq<QuestionId>)
    returns (visits: seq<QuestionId>)
    requires UniqueOrders(o) && InRange(o) && Distinct(wanted) && wanted != [] && |next| == |wanted| + 1
    requires q in o && q !in wanted && o[q] == |wanted| && last in o && last == wanted[|wanted| - 1]
    ensures IsPermutation(Reordered(o, wanted), visits) && !ReorderIsSafe(Reordered(o, wanted), next, visits)
  {
    var stale := Reordered(o, wanted);
    ReorderedIsUnique(o, wanted);
    ReorderedAt(o, wanted, q);
    PlacedAt(Shifted(o, o.Keys, |wanted| + SHIFT), wanted, |wanted|);
    assert stale[q] == stale[last] + |next| + SHIFT;
    ShiftIsSafeIff(stale, |next| + SHIFT);
    visits :| IsPermutation(stale, visits) && !ShiftIsSafe(stale, visits, |next| + SHIFT);
  }
}
