/**
 Questions attached to tests: the sort order within a test, whose unique index is checked on every
 single row as it is written, and the rule that no two tests of one exam share a question.
 */
module TestQuestions {
  import opened Prelude
  import opened ExamTables

  type TestId = int

  /** test_question rows of one test, keyed by question (the rest of the primary key). */
  type Orders = map<QuestionId, int>

  const SHIFT: int := 1_000_000

  /** UNIQUE (test_id, sort_order) */
  ghost predicate UniqueOrders(o: Orders) {
    forall q, u :: q in o && u in o && q != u ==> o[q] != o[u]
  }

  predicate OrderTaken(o: Orders, q: QuestionId, n: int) {
    exists u :: u in o && u != q && o[u] == n
  }

  lemma SetKeepsUniqueIff(o: Orders, q: QuestionId, n: int)
    requires UniqueOrders(o) && q in o
    ensures UniqueOrders(o[q := n]) <==> !OrderTaken(o, q, n)
  {
    if u :| u in o && u != q && o[u] == n {
      assert o[q := n][u] == o[q := n][q];
    }
  }

  /** `ids` lists every attached question once: what the service checks before it reorders. */
  ghost predicate IsPermutation(o: Orders, ids: seq<QuestionId>) {
    Distinct(ids) && forall q :: q in ids <==> q in o
  }

  // ---------- The shift, row by row ----------

  /** The rows of `done` have been shifted, the others not yet. */
  function Shifted(o: Orders, done: set<QuestionId>, offset: int): Orders {
    map q | q in o :: if q in done then o[q] + offset else o[q]
  }

  function First(ids: seq<QuestionId>, k: nat): set<QuestionId>
    requires k <= |ids|
  {
    set q | q in ids[..k]
  }

  ghost predicate SomeOffsetApart(o: Orders, offset: int) {
    exists q, u :: q in o && u in o && o[u] == o[q] + offset
  }

  /** Every state of a shift that visits the rows in this order keeps the index. */
  ghost predicate ShiftIsSafe(o: Orders, visits: seq<QuestionId>, offset: int) {
    forall k :: 0 <= k <= |visits| ==> UniqueOrders(Shifted(o, First(visits, k), offset))
  }

  lemma PickOne(s: set<QuestionId>)
    requires s != {}
    ensures exists q :: q in s
  {
    var q := Member(s);
  }

  lemma PairFirst(o: Orders, q: QuestionId, rest: set<QuestionId>) returns (visits: seq<QuestionId>)
    requires q !in rest && o.Keys == rest + {q}
    ensures IsPermutation(o, [q] + visits)
  {
    visits := Listed(rest);
    assert forall x :: x in [q] + visits <==> x == q || x in visits;
  }

  lemma {:induction false} Listed(s: set<QuestionId>) returns (xs: seq<QuestionId>)
    ensures Distinct(xs) && forall q :: q in xs <==> q in s
    decreases |s|
  {
    if s == {} {
      xs := [];
    } else {
      var q := Member(s);
      var rest := Listed(s - {q});
      xs := [q] + rest;
    }
  }

  /** The shift is safe in whatever order the rows are visited exactly if no two orders are the offset apart. */
  lemma ShiftIsSafeIff(o: Orders, offset: int)
    requires UniqueOrders(o) && offset > 0
    ensures (forall visits :: IsPermutation(o, visits) ==> ShiftIsSafe(o, visits, offset)) <==> !SomeOffsetApart(o, offset)
  {
    if SomeOffsetApart(o, offset) {
      var q, u :| q in o && u in o && o[u] == o[q] + offset;
      var rest := PairFirst(o, q, o.Keys - {q});
      var visits := [q] + rest;
      assert visits[..1] == [q];
      var mid := Shifted(o, First(visits, 1), offset);
      assert mid[q] == mid[u];
      assert !ShiftIsSafe(o, visits, offset);
    }
  }

  /** Orders within 0..1000000 are never the offset apart, so every reorder's shift is safe. */
  lemma StoredOrdersShiftSafely(o: Orders, n: nat, visits: seq<QuestionId>)
    requires UniqueOrders(o) && n >= 1 && InRange(o) && IsPermutation(o, visits)
    ensures ShiftIsSafe(o, visits, n + SHIFT)
  {
    ShiftIsSafeIff(o, n + SHIFT);
  }

  // ---------- Placing the questions ----------

  /** The first k questions have their positions, the others are still shifted; one that is not attached has no row. */
  function Placed(o: Orders, ids: seq<QuestionId>, k: nat): Orders
    requires k <= |ids|
    decreases k
  {
    if k == 0 then o
    else
      var before := Placed(o, ids, k - 1);
      if ids[k - 1] in o then before[ids[k - 1] := k - 1] else before
  }

  /** A reorder after its shift and the first k positions. */
  function Reordering(o: Orders, ids: seq<QuestionId>, k: nat): Orders
    requires k <= |ids|
  {
    Placed(Shifted(o, o.Keys, |ids| + SHIFT), ids, k)
  }

  /** What a reorder that goes through leaves. */
  function Reordered(o: Orders, ids: seq<QuestionId>): Orders {
    Reordering(o, ids, |ids|)
  }

  lemma {:induction false} PlacedAt(o: Orders, ids: seq<QuestionId>, k: nat)
    requires k <= |ids| && Distinct(ids)
    ensures Placed(o, ids, k).Keys == o.Keys
    ensures forall i :: 0 <= i < k && ids[i] in o ==> Placed(o, ids, k)[ids[i]] == i
    ensures forall q :: q in o && q !in ids[..k] ==> Placed(o, ids, k)[q] == o[q]
    decreases k
  {
    if k > 0 {
      PlacedAt(o, ids, k - 1);
      assert ids[..k] == ids[..k - 1] + [ids[k - 1]];
    }
  }

  lemma ListedAt(ids: seq<QuestionId>, k: nat, q: QuestionId) returns (i: nat)
    requires k <= |ids| && q in ids[..k]
    ensures i < k && ids[i] == q
  {
    i :| 0 <= i < k && ids[..k][i] == q;
  }

  /** Every state while the positions are written keeps the index, if the shifted orders are out of their range. */
  lemma PlacingIsSafe(o: Orders, ids: seq<QuestionId>, k: nat)
    requires k <= |ids| && Distinct(ids) && UniqueOrders(o) && forall q :: q in o ==> o[q] >= |ids|
    ensures UniqueOrders(Placed(o, ids, k))
  {
    PlacedAt(o, ids, k);
    forall q, u | q in o && u in o && q != u ensures Placed(o, ids, k)[q] != Placed(o, ids, k)[u] {
      if q in ids[..k] {
        var i := ListedAt(ids, k, q);
      }
      if u in ids[..k] {
        var j := ListedAt(ids, k, u);
      }
    }
  }

  lemma WholeShiftKeepsUnique(o: Orders, offset: int)
    requires UniqueOrders(o)
    ensures UniqueOrders(Shifted(o, o.Keys, offset))
  {
  }

  /** Every single-row state of a reorder keeps the index: those of the shift and those of the placing. */
  ghost predicate ReorderIsSafe(o: Orders, ids: seq<QuestionId>, visits: seq<QuestionId>) {
    && ShiftIsSafe(o, visits, |ids| + SHIFT)
    && forall k :: 0 <= k <= |ids| ==> UniqueOrders(Reordering(o, ids, k))
  }

  /** A reorder of stored orders within 0..1000000 is safe, in whatever order the rows are visited. */
  lemma EveryReorderStateIsUnique(o: Orders, ids: seq<QuestionId>, visits: seq<QuestionId>)
    requires UniqueOrders(o) && InRange(o) && Distinct(ids) && IsPermutation(o, visits) && ids != []
    ensures ReorderIsSafe(o, ids, visits)
  {
    StoredOrdersShiftSafely(o, |ids|, visits);
    forall k | 0 <= k <= |ids| ensures UniqueOrders(Reordering(o, ids, k)) {
      PlacingIsSafe(Shifted(o, o.Keys, |ids| + SHIFT), ids, k);
    }
  }

  /** The shift is by a million and the number of questions: orders exactly that far apart can clash. */
  lemma FarApartOrdersCanClash()
    ensures var o: Orders := map[1 := 0, 2 := 1_000_002];
            UniqueOrders(o) && IsPermutation(o, [1, 2]) && !ReorderIsSafe(o, [1, 2], [1, 2])
  {
    var o: Orders := map[1 := 0, 2 := 1_000_002];
    var visits: seq<QuestionId> := [1, 2];
    assert visits[..1] == [1];
    var mid := Shifted(o, First(visits, 1), |visits| + SHIFT);
    assert mid[1] == mid[2];
    assert !UniqueOrders(mid);
  }

  // ---------- Attaching ----------

  /** The given questions that are not attached yet, in the order given. */
  function New(existing: set<QuestionId>, ids: seq<QuestionId>): seq<QuestionId> {
    if ids == [] then []
    else (if ids[0] in existing then [] else [ids[0]]) + New(existing, ids[1..])
  }

  ghost predicate IsMax(o: Orders, max: int) {
    if o == map[] then max == 0 else (exists q :: q in o && o[q] == max) && forall q :: q in o ==> o[q] <= max
  }

  /** The inserts one after the other, from order `next`; None if one of them is refused. */
  function AttachAll(o: Orders, existing: set<QuestionId>, ids: seq<QuestionId>, next: int): Option<Orders>
    decreases |ids|
  {
    if ids == [] then Some(o)
    else if ids[0] in existing then AttachAll(o, existing, ids[1..], next)
    else if ids[0] in o || OrderTaken(o, ids[0], next) then None
    else AttachAll(o[ids[0] := next], existing, ids[1..], next + 1)
  }

  /** `o'` is `o` with the questions of `added` appended from order `next`. */
  ghost predicate Appended(o: Orders, next: int, added: seq<QuestionId>, o': Orders) {
    && o'.Keys == o.Keys + (set q | q in added)
    && (forall q :: q in o ==> o'[q] == o[q])
    && (forall i :: 0 <= i < |added| ==> added[i] in o' && o'[added[i]] == next + i)
  }

  lemma {:induction false} NewAreNew(existing: set<QuestionId>, ids: seq<QuestionId>)
    ensures forall q :: q in New(existing, ids) <==> q in ids && q !in existing
  {
    if ids != [] {
      NewAreNew(existing, ids[1..]);
      assert ids == [ids[0]] + ids[1..];
    }
  }

  /** Exactly the questions that are not attached yet, in the order given. */
  ghost predicate SelectsNew(o: Orders, ids: seq<QuestionId>, positions: seq<nat>, added: seq<QuestionId>) {
    Selects(ids, positions, added) && forall i: nat :: i < |ids| ==> (i in positions <==> ids[i] !in o)
  }

  lemma {:induction false} NewSelects(o: Orders, ids: seq<QuestionId>) returns (positions: seq<nat>)
    ensures SelectsNew(o, ids, positions, New(o.Keys, ids))
  {
    positions := [];
    if ids != [] {
      var rest := NewSelects(o, ids[1..]);
      positions := SelectsCons(ids, rest, New(o.Keys, ids[1..]), ids[0] !in o);
      if ids[0] in o {
        assert New(o.Keys, ids) == New(o.Keys, ids[1..]);
      }
    }
  }

  /** The new questions follow the largest order there was, in the order given. */
  ghost predicate AppendsNew(o: Orders, ids: seq<QuestionId>, max: int, positions: seq<nat>, added: seq<QuestionId>, o': Orders) {
    IsMax(o, max) && SelectsNew(o, ids, positions, added) && Appended(o, max + 1, added, o')
  }

  ghost predicate NewAreAppended(o: Orders, ids: seq<QuestionId>, max: int, o': Orders) {
    exists positions, added :: AppendsNew(o, ids, max, positions, added, o')
  }

  /** A question that is given twice is one that was attached before. */
  ghost predicate OnlyOldRepeated(o: Orders, ids: seq<QuestionId>) {
    forall i, j :: 0 <= i < j < |ids| && ids[i] == ids[j] ==> ids[i] in o
  }

  lemma DistinctNothing()
    ensures Distinct<QuestionId>([])
  {
  }

  lemma NewDistinct(o: Orders, ids: seq<QuestionId>)
    ensures Distinct(New(o.Keys, ids)) <==> OnlyOldRepeated(o, ids)
  {
    NewDistinctIff(o.Keys, ids);
  }

  lemma {:induction false} NewDistinctIff(existing: set<QuestionId>, ids: seq<QuestionId>)
    ensures Distinct(New(existing, ids)) <==> forall i, j :: 0 <= i < j < |ids| && ids[i] == ids[j] ==> ids[i] in existing
  {
    hide Distinct;
    if ids == [] {
      DistinctNothing();
    } else {
      var q, rest := ids[0], ids[1..];
      NewDistinctIff(existing, rest);
      NewAreNew(existing, rest);
      ConsDistinct(q, New(existing, rest));
      assert forall i :: 0 <= i < |rest| ==> rest[i] == ids[i + 1];
      assert forall i :: 1 <= i < |ids| ==> ids[i] == rest[i - 1];
      if q in existing {
        assert New(existing, ids) == New(existing, rest);
      }
    }
  }

  lemma ConsAppended(o: Orders, next: int, q: QuestionId, rest: seq<QuestionId>, o': Orders)
    requires q !in o && Appended(o[q := next], next + 1, rest, o')
    ensures Appended(o, next, [q] + rest, o')
  {
    assert forall u :: u in [q] + rest <==> u == q || u in rest;
  }

  lemma ConsDistinct(q: QuestionId, rest: seq<QuestionId>)
    ensures Distinct([q] + rest) <==> Distinct(rest) && q !in rest
  {
    var xs := [q] + rest;
    assert forall i :: 0 <= i < |rest| ==> xs[i + 1] == rest[i];
    if Distinct(xs) {
      forall i, j | 0 <= i < j < |rest| ensures rest[i] != rest[j] {
        assert xs[i + 1] != xs[j + 1];
      }
      forall i | 0 <= i < |rest| ensures rest[i] != q {
        assert xs[0] != xs[i + 1];
      }
    }
  }

  /** The inserts all go through exactly if no new question is repeated; then they append after the maximum. */
  lemma {:induction false} AttachAllAppends(o: Orders, existing: set<QuestionId>, ids: seq<QuestionId>, next: int)
    requires existing <= o.Keys && forall q :: q in o ==> o[q] < next
    ensures var added := New(existing, ids);
            && (AttachAll(o, existing, ids, next).Some? <==> Distinct(added) && forall q :: q in added ==> q !in o)
            && (AttachAll(o, existing, ids, next).Some? ==> Appended(o, next, added, AttachAll(o, existing, ids, next).value))
    decreases |ids|
  {
    if ids != [] {
      var q := ids[0];
      var rest := New(existing, ids[1..]);
      if q in existing {
        AttachAllAppends(o, existing, ids[1..], next);
        assert New(existing, ids) == rest;
      } else {
        ConsDistinct(q, rest);
        assert New(existing, ids) == [q] + rest;
        if q !in o {
          AttachAllAppends(o[q := next], existing, ids[1..], next + 1);
          if AttachAll(o[q := next], existing, ids[1..], next + 1).Some? {
            ConsAppended(o, next, q, rest, AttachAll(o[q := next], existing, ids[1..], next + 1).value);
          }
        }
      }
    }
  }

  lemma AttachAllAppendsNew(o: Orders, ids: seq<QuestionId>, max: int)
    requires IsMax(o, max)
    ensures AttachAll(o, o.Keys, ids, max + 1).Some? <==> OnlyOldRepeated(o, ids)
    ensures AttachAll(o, o.Keys, ids, max + 1).Some? ==> NewAreAppended(o, ids, max, AttachAll(o, o.Keys, ids, max + 1).value)
  {
    hide AttachAll, New, OnlyOldRepeated, Distinct, Appended, SelectsNew;
    AttachAllAppends(o, o.Keys, ids, max + 1);
    NewAreNew(o.Keys, ids);
    NewDistinct(o, ids);
    var positions := NewSelects(o, ids);
    if AttachAll(o, o.Keys, ids, max + 1).Some? {
      assert AppendsNew(o, ids, max, positions, New(o.Keys, ids), AttachAll(o, o.Keys, ids, max + 1).value);
    }
  }

  lemma AppendKeepsUnique(o: Orders, next: int, added: seq<QuestionId>, o': Orders)
    requires UniqueOrders(o) && (forall q :: q in o ==> o[q] < next) && Appended(o, next, added, o')
    requires Distinct(added)
    ensures UniqueOrders(o')
  {
    forall q, u | q in o' && u in o' && q != u ensures o'[q] != o'[u] {
      if q in added {
        var i :| 0 <= i < |added| && added[i] == q;
        if u in added {
          var j :| 0 <= j < |added| && added[j] == u;
        }
      } else if u in added {
        var j :| 0 <= j < |added| && added[j] == u;
      }
    }
  }

  class Table {
    var rows: map<TestId, Orders>

    ghost function Of(test: TestId): Orders
      reads this
    {
      if test in rows then rows[test] else map[]
    }

    method Read(test: TestId) returns (o: Orders)
      ensures o == Of(test)
    {
      o := if test in rows then rows[test] else map[];
    }

    method GetMaxSortOrderForTestTx(test: TestId) returns (max: int)
      ensures IsMax(Of(test), max)
    {
      var o := Read(test);
      var left := o.Keys;
      max := 0;
      if left == {} {
        return;
      }
      PickOne(left);
      var first :| first in left;
      max, left := o[first], left - {first};
      while left != {}
        invariant left <= o.Keys && exists q :: q in o && o[q] == max
        invariant forall q :: q in o && q !in left ==> o[q] <= max
        decreases |left|
      {
        PickOne(left);
        var q :| q in left;
        left := left - {q};
        if o[q] > max {
          max := o[q];
        }
      }
    }

    /** INSERT of one row: refused if the key or the order is taken. */
    method Insert(test: TestId, q: QuestionId, order: int) returns (ok: bool)
      modifies this
      ensures ok <==> q !in old(Of(test)) && !OrderTaken(old(Of(test)), q, order)
      ensures Of(test) == if ok then old(Of(test))[q := order] else old(Of(test))
      ensures forall t :: t != test ==> Of(t) == old(Of(t))
    {
      var o := Read(test);
      ok := q !in o && forall u :: u in o ==> o[u] != order;
      if ok {
        rows := rows[test := o[q := order]];
      }
    }

    /**
     Appends the questions that are not attached yet. An insert that fails aborts the transaction,
     which is why nothing is left of it.
     */
    method AttachQuestionsToTestTx(test: TestId, ids: seq<QuestionId>) returns (r: Result<(), StoreError>)
      requires UniqueOrders(Of(test))
      modifies this
      ensures r.Success? <==> OnlyOldRepeated(old(Of(test)), ids)
      ensures r.Success? ==> UniqueOrders(Of(test))
                             && exists max :: NewAreAppended(old(Of(test)), ids, max, Of(test))
      ensures r.Failure? ==> r.error == UniqueViolation && rows == old(rows)
      ensures forall t :: t != test ==> Of(t) == old(Of(t))
    {
      hide UniqueOrders, OrderTaken, OnlyOldRepeated;
      var before := rows;
      ghost var o := Of(test);
      var existing := Read(test);
      var max := GetMaxSortOrderForTestTx(test);
      var next := max + 1;
      NewAreNew(o.Keys, ids);
      AttachAllAppends(o, o.Keys, ids, next);
      AttachAllAppendsNew(o, ids, max);
      for i := 0 to |ids|
        invariant AttachAll(o, o.Keys, ids, max + 1) == AttachAll(Of(test), o.Keys, ids[i..], next)
        invariant forall t :: t != test ==> Of(t) == old(Of(t))
      {
        assert ids[i..][1..] == ids[i + 1..];
        if ids[i] !in existing {
          var ok := Insert(test, ids[i], next);
          if !ok {
            rows := before;
            return Failure(UniqueViolation);
          }
          next := next + 1;
        }
      }
      AppendKeepsUnique(o, max + 1, New(o.Keys, ids), Of(test));
      r := Success(());
    }

    /** UPDATE of one row; the index is checked at once. */
    method SetOrder(test: TestId, q: QuestionId, order: int) returns (ok: bool)
      modifies this
      ensures ok <==> q in old(Of(test)) ==> !OrderTaken(old(Of(test)), q, order)
      ensures Of(test) == if ok && q in old(Of(test)) then old(Of(test))[q := order] else old(Of(test))
      ensures forall t :: t != test ==> Of(t) == old(Of(t))
    {
      var o := Read(test);
      ok := q in o ==> forall u :: u in o && u != q ==> o[u] != order;
      if ok && q in o {
        rows := rows[test := o[q := order]];
      }
    }

    /** The shifting UPDATE visits the rows in an order of the database's choosing. */
    method ShiftOrders(test: TestId, visits: seq<QuestionId>, offset: int) returns (ok: bool)
      requires IsPermutation(Of(test), visits)
      modifies this
      requires UniqueOrders(Of(test))
      ensures ok <==> ShiftIsSafe(old(Of(test)), visits, offset)
      ensures ok ==> Of(test) == Shifted(old(Of(test)), old(Of(test)).Keys, offset)
      ensures ok ==> forall q :: q in old(Of(test)) ==> Of(test)[q] == old(Of(test))[q] + offset
      ensures forall t :: t != test ==> Of(t) == old(Of(t))
    {
      hide UniqueOrders, OrderTaken;
      ghost var o := Of(test);
      assert Shifted(o, First(visits, 0), offset) == o;
      for i := 0 to |visits|
        invariant Of(test) == Shifted(o, First(visits, i), offset)
        invariant forall k :: 0 <= k <= i ==> UniqueOrders(Shifted(o, First(visits, k), offset))
        invariant forall t :: t != test ==> Of(t) == old(Of(t))
      {
        var now := Read(test);
        ShiftOne(o, visits, i, offset);
        SetKeepsUniqueIff(now, visits[i], now[visits[i]] + offset);
        ok := SetOrder(test, visits[i], now[visits[i]] + offset);
        if !ok {
          return;
        }
      }
      AllVisited(o, visits);
      ok := true;
    }

    /**
     Puts the questions in the given order; a failed statement aborts the transaction. The list is what
     the service found attached before the transaction began.
     */
    method ReorderTestQuestionsTx(test: TestId, ids: seq<QuestionId>, visits: seq<QuestionId>) returns (r: Result<(), StoreError>)
      requires ids != [] && Distinct(ids) && IsPermutation(Of(test), visits) && UniqueOrders(Of(test))
      modifies this
      ensures r.Success? <==> ReorderIsSafe(old(Of(test)), ids, visits)
      ensures (forall q :: q in old(Of(test)) ==> 0 <= old(Of(test))[q] <= 1_000_000) ==> r.Success?
      ensures r.Success? ==> Of(test).Keys == old(Of(test)).Keys && UniqueOrders(Of(test)) && Of(test) == Reordered(old(Of(test)), ids)
      ensures r.Success? ==> forall i :: 0 <= i < |ids| && ids[i] in Of(test) ==> Of(test)[ids[i]] == i
      ensures r.Success? ==> forall q :: q in Of(test) && q !in ids ==> Of(test)[q] == old(Of(test))[q] + |ids| + 1_000_000
      ensures r.Failure? ==> r.error == UniqueViolation && rows == old(rows)
      ensures forall t :: t != test ==> Of(t) == old(Of(t))
    {
      hide UniqueOrders, OrderTaken;
      var before := rows;
      ghost var stored := Of(test);
      if InRange(stored) {
        EveryReorderStateIsUnique(stored, ids, visits);
      }
      var ok := ShiftOrders(test, visits, |ids| + SHIFT);
      if !ok {
        rows := before;
        return Failure(UniqueViolation);
      }
      ghost var shifted := Of(test);
      WholeShiftKeepsUnique(stored, |ids| + SHIFT);
      for i := 0 to |ids|
        invariant Of(test) == Reordering(stored, ids, i)
        invariant forall k :: 0 <= k <= i ==> UniqueOrders(Reordering(stored, ids, k))
        invariant forall t :: t != test ==> Of(t) == old(Of(t))
      {
        PlacedAt(shifted, ids, i);
        if ids[i] in Of(test) {
          SetKeepsUniqueIff(Of(test), ids[i], i);
        }
        ok := SetOrder(test, ids[i], i);
        if !ok {
          assert !UniqueOrders(Reordering(stored, ids, i + 1));
          rows := before;
          return Failure(UniqueViolation);
        }
      }
      PlacedAt(shifted, ids, |ids|);
      r := Success(());
    }
  }

  ghost predicate InRange(o: Orders) {
    forall q :: q in o ==> 0 <= o[q] <= SHIFT
  }

  lemma AllVisited(o: Orders, visits: seq<QuestionId>)
    requires IsPermutation(o, visits)
    ensures First(visits, |visits|) == o.Keys
  {
    assert visits[..|visits|] == visits;
    forall q ensures q in First(visits, |visits|) <==> q in o.Keys {
    }
  }

  lemma ShiftOne(o: Orders, visits: seq<QuestionId>, i: nat, offset: int)
    requires IsPermutation(o, visits) && i < |visits|
    ensures visits[i] in o && visits[i] !in First(visits, i)
    ensures Shifted(o, First(visits, i + 1), offset) == Shifted(o, First(visits, i), offset)[visits[i] := o[visits[i]] + offset]
  {
    assert visits[..i + 1] == visits[..i] + [visits[i]];
    var q := visits[i];
    assert q in visits && q in o;
    assert First(visits, i + 1) == First(visits, i) + {visits[i]};
  }
}
