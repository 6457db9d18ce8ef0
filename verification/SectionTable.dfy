/**
 The sections of a sectioned sitting: their rows, the guarded advance from one to the next, and
 the order that every caller may rely on.
 */
module SectionTable {
  import opened Prelude
  import opened ExamTables

  type TestId = int

  datatype SectionStatus = Pending | Active | Closed

  datatype Section = Section(
    sortOrder: int,
    minutes: int,
    status: SectionStatus,
    startedAt: Option<Time>,
    submittedAt: Option<Time>,
    extendedUntil: Option<Time>)

  /** The rows of one session, keyed by test (the rest of the primary key). */
  type Sections = map<TestId, Section>

  function InStatus(rows: Sections, status: SectionStatus): set<TestId> {
    set t | t in rows && rows[t].status == status
  }

  ghost predicate DistinctOrders(rows: Sections) {
    forall t, u :: t in rows && u in rows && t != u ==> rows[t].sortOrder != rows[u].sortOrder
  }

  /** In sort order the statuses read closed*, then at most one active, then pending*; pending only after an active one. */
  ghost predicate InSequence(rows: Sections) {
    && (forall t, u :: t in rows && u in rows && rows[t].sortOrder < rows[u].sortOrder ==>
                         rows[t].status == Closed || rows[u].status == Pending)
    && (forall t, u :: t in rows && u in rows && rows[t].status == Active && rows[u].status == Active ==> t == u)
    && (InStatus(rows, Active) == {} ==> InStatus(rows, Pending) == {})
  }

  function CloseRow(row: Section, now: Time): Section {
    row.(status := Closed, submittedAt := Some(now))
  }

  function StartRow(row: Section, now: Time): Section {
    row.(status := Active, startedAt := Some(now))
  }

  /** The row that ORDER BY sort_order LIMIT 1 over the pending ones may return. */
  predicate IsNext(rows: Sections, t: TestId) {
    t in rows && rows[t].status == Pending
    && forall u :: u in rows && rows[u].status == Pending ==> rows[t].sortOrder <= rows[u].sortOrder
  }

  function Promote(rows: Sections, next: Option<TestId>, now: Time): Sections {
    if next.Some? && next.value in rows then rows[next.value := StartRow(rows[next.value], now)] else rows
  }

  /** What an advance that closes `test` and opens `next` leaves, and when it may. */
  ghost predicate Advanced(rows: Sections, test: TestId, next: Option<TestId>, now: Time, rows': Sections) {
    && test in rows && rows[test].status == Active
    && var closed := rows[test := CloseRow(rows[test], now)];
       && (next.Some? ==> IsNext(closed, next.value))
       && (next.None? ==> InStatus(closed, Pending) == {})
       && rows' == Promote(closed, next, now)
  }

  lemma {:induction false} SomePendingIsNext(rows: Sections, among: set<TestId>) returns (t: TestId)
    requires among != {} && among <= InStatus(rows, Pending)
    ensures t in among && forall u :: u in among ==> rows[t].sortOrder <= rows[u].sortOrder
    decreases |among|
  {
    var u := Member(among);
    if among == {u} {
      t := u;
    } else {
      t := SomePendingIsNext(rows, among - {u});
      if rows[u].sortOrder < rows[t].sortOrder {
        t := u;
      }
    }
  }

  /** An advance keeps the sequence and closes exactly one more section. */
  lemma AdvanceKeepsSequence(rows: Sections, test: TestId, next: Option<TestId>, now: Time, rows': Sections)
    requires DistinctOrders(rows) && InSequence(rows) && Advanced(rows, test, next, now, rows')
    ensures DistinctOrders(rows') && InSequence(rows')
    ensures InStatus(rows', Closed) == InStatus(rows, Closed) + {test}
    ensures InStatus(rows', Active) == if next.Some? then {next.value} else {}
    ensures rows'.Keys == rows.Keys
  {
    var closed := rows[test := CloseRow(rows[test], now)];
    assert InStatus(closed, Pending) == InStatus(rows, Pending);
    forall t | t in rows && t != test ensures rows[t].status != Active {
    }
    if next.Some? {
      assert next.value in InStatus(rows', Active);
    } else {
      assert forall t :: t in rows' ==> t !in InStatus(closed, Pending);
    }
  }

  /** The active-section join returns at most one row per session. */
  lemma ActiveJoinIsUnique(rows: Sections)
    requires InSequence(rows)
    ensures |InStatus(rows, Active)| <= 1
    ensures InStatus(rows, Active) == {} <==> InStatus(rows, Closed) == rows.Keys
  {
    if InStatus(rows, Active) != {} {
      var t := Member(InStatus(rows, Active));
      forall u ensures u in InStatus(rows, Active) <==> u in {t} {
      }
      assert InStatus(rows, Active) == {t};
      assert t !in InStatus(rows, Closed);
    } else {
      forall t | t in rows ensures t in InStatus(rows, Closed) {
        assert rows[t].status == Active ==> t in InStatus(rows, Active);
        assert rows[t].status == Pending ==> t in InStatus(rows, Pending);
      }
    }
  }

  class Table {
    var rows: map<SessionId, Sections>

    ghost function Of(s: SessionId): Sections
      reads this
    {
      if s in rows then rows[s] else map[]
    }

    /** Seeds a session's sections one INSERT at a time; a repeated test violates the primary key. */
    method CreateSessionSectionsTx(s: SessionId, tests: seq<TestId>, sections: seq<Section>)
      returns (r: Result<(), StoreError>)
      requires |tests| == |sections|
      modifies this
      ensures r.Success? <==> Distinct(tests) && forall i :: 0 <= i < |tests| ==> tests[i] !in old(Of(s))
      ensures r.Success? ==> Of(s) == Inserted(old(Of(s)), tests, sections)
      ensures r.Success? ==>
                && Of(s).Keys == old(Of(s)).Keys + (set t | t in tests)
                && (forall i :: 0 <= i < |tests| ==> Of(s)[tests[i]] == sections[i])
                && (forall t :: t in old(Of(s)) ==> Of(s)[t] == old(Of(s))[t])
      ensures r.Failure? ==> r.error == UniqueViolation
      ensures forall u :: u != s ==> Of(u) == old(Of(u))
    {
      ghost var before := Of(s);
      InsertableIff(before.Keys, tests);
      var mine := if s in rows then rows[s] else map[];
      for i := 0 to |tests|
        invariant Of(s) == mine
        invariant Inserted(before, tests, sections) == Inserted(mine, tests[i..], sections[i..])
        invariant Insertable(before.Keys, tests) == Insertable(mine.Keys, tests[i..])
        invariant forall u :: u != s ==> Of(u) == old(Of(u))
      {
        assert tests[i..][1..] == tests[i + 1..] && sections[i..][1..] == sections[i + 1..];
        if tests[i] in mine {
          return Failure(UniqueViolation);
        }
        assert mine[tests[i] := sections[i]].Keys == mine.Keys + {tests[i]};
        mine := mine[tests[i] := sections[i]];
        rows := rows[s := mine];
      }
      assert tests[|tests|..] == [];
      InsertedRows(before, tests, sections);
      r := Success(());
    }

    /** Closes `test` only if it is the active section, then opens the next pending one. */
    method AdvanceSessionSectionTx(s: SessionId, test: TestId, now: Time) returns (r: Result<Option<TestId>, StoreError>)
      modifies this
      ensures r.Success? <==> test in old(Of(s)) && old(Of(s))[test].status == Active
      ensures r.Success? ==> Advanced(old(Of(s)), test, r.value, now, Of(s))
      ensures r.Success? ==>
                && Of(s).Keys == old(Of(s)).Keys
                && Of(s)[test] == old(Of(s))[test].(status := Closed, submittedAt := Some(now))
                && (forall t :: t in old(Of(s)) && t != test && r.value != Some(t) ==> Of(s)[t] == old(Of(s))[t])
      ensures r.Success? && r.value.Some? ==>
                var n := r.value.value;
                && n in old(Of(s)) && n != test && old(Of(s))[n].status == Pending
                && (forall t :: t in old(Of(s)) && old(Of(s))[t].status == Pending ==> old(Of(s))[n].sortOrder <= old(Of(s))[t].sortOrder)
                && Of(s)[n] == old(Of(s))[n].(status := Active, startedAt := Some(now))
      ensures r == Success(None) ==> forall t :: t in old(Of(s)) ==> old(Of(s))[t].status != Pending
      ensures r.Failure? ==> r.error == NoActiveSection && rows == old(rows)
      ensures forall u :: u != s ==> Of(u) == old(Of(u))
    {
      if s !in rows || test !in rows[s] || rows[s][test].status != Active {
        return Failure(NoActiveSection);
      }
      var closed := rows[s][test := CloseRow(rows[s][test], now)];
      var pending := set t | t in closed && closed[t].status == Pending;
      if pending == {} {
        assert forall t :: t in closed && closed[t].status == Pending ==> t in pending;
        rows := rows[s := closed];
        return Success(None);
      }
      assert exists t :: IsNext(closed, t) by {
        var t := SomePendingIsNext(closed, pending);
        assert forall u :: u in closed && closed[u].status == Pending ==> u in pending;
        assert IsNext(closed, t);
      }
      var next :| next in closed && IsNext(closed, next);
      rows := rows[s := closed[next := StartRow(closed[next], now)]];
      r := Success(Some(next));
    }

    /** Pushes the deadline of the active section to `minutes` from now. */
    method ExtendActiveSectionTx(s: SessionId, minutes: int, now: Time) returns (r: Result<(), StoreError>)
      modifies this
      ensures r.Success? <==> exists t :: t in old(Of(s)) && old(Of(s))[t].status == Active
      ensures r.Failure? ==> r.error == NoActiveSection && rows == old(rows)
      ensures Of(s) == Extended(old(Of(s)), minutes, now)
      ensures Of(s).Keys == old(Of(s)).Keys
      ensures forall t :: t in old(Of(s)) ==>
                            Of(s)[t] == if old(Of(s))[t].status == Active
                                        then old(Of(s))[t].(extendedUntil := Some(now + minutes * 60_000_000)) else old(Of(s))[t]
      ensures forall u :: u != s ==> Of(u) == old(Of(u))
    {
      if s !in rows {
        assert Extended(map[], minutes, now) == map[];
        return Failure(NoActiveSection);
      }
      var mine := rows[s];
      if InStatus(mine, Active) == {} {
        ExtendNothing(mine, minutes, now);
        assert forall t :: t in mine && mine[t].status == Active ==> t in InStatus(mine, Active);
        return Failure(NoActiveSection);
      }
      ghost var running := Member(InStatus(mine, Active));
      assert running in old(Of(s)) && old(Of(s))[running].status == Active;
      rows := rows[s := Extended(mine, minutes, now)];
      r := Success(());
    }
  }

  function ExtendRow(row: Section, minutes: int, now: Time): Section {
    if row.status == Active then row.(extendedUntil := Some(now + minutes * MINUTE)) else row
  }

  function Extended(rows: Sections, minutes: int, now: Time): Sections {
    map t | t in rows :: ExtendRow(rows[t], minutes, now)
  }

  lemma ExtendNothing(rows: Sections, minutes: int, now: Time)
    requires InStatus(rows, Active) == {}
    ensures Extended(rows, minutes, now) == rows
  {
    forall t | t in rows ensures Extended(rows, minutes, now)[t] == rows[t] {
      assert t !in InStatus(rows, Active);
    }
  }

  predicate Insertable(keys: set<TestId>, tests: seq<TestId>)
    decreases |tests|
  {
    tests == [] || (tests[0] !in keys && Insertable(keys + {tests[0]}, tests[1..]))
  }

  function Inserted(rows: Sections, tests: seq<TestId>, sections: seq<Section>): Sections
    requires |tests| == |sections|
    decreases |tests|
  {
    if tests == [] then rows else Inserted(rows[tests[0] := sections[0]], tests[1..], sections[1..])
  }

  /** The inserts succeed exactly if no test is repeated and none was there before. */
  lemma {:induction false} InsertableIff(keys: set<TestId>, tests: seq<TestId>)
    ensures Insertable(keys, tests) <==> Distinct(tests) && forall i :: 0 <= i < |tests| ==> tests[i] !in keys
    decreases |tests|
  {
    if tests != [] {
      InsertableIff(keys + {tests[0]}, tests[1..]);
      assert forall i :: 0 <= i < |tests| - 1 ==> tests[1..][i] == tests[i + 1];
      if Insertable(keys, tests) {
        forall i, j | 0 <= i < j < |tests| ensures tests[i] != tests[j] {
          assert tests[1..][j - 1] == tests[j];
          assert i > 0 ==> tests[1..][i - 1] == tests[i];
        }
        forall i | 0 <= i < |tests| ensures tests[i] !in keys {
          assert i > 0 ==> tests[1..][i - 1] == tests[i];
        }
      }
    }
  }

  /** Then the rows are those given, beside the ones already there. */
  lemma {:induction false} InsertedRows(rows: Sections, tests: seq<TestId>, sections: seq<Section>)
    requires |tests| == |sections| && Distinct(tests)
    ensures Inserted(rows, tests, sections).Keys == rows.Keys + (set t | t in tests)
    ensures forall t :: t in rows && t !in tests ==> Inserted(rows, tests, sections)[t] == rows[t]
    ensures forall i :: 0 <= i < |tests| ==> Inserted(rows, tests, sections)[tests[i]] == sections[i]
    decreases |tests|
  {
    if tests != [] {
      var rows' := rows[tests[0] := sections[0]];
      var rest, tail := tests[1..], sections[1..];
      assert forall i :: 0 <= i < |rest| ==> rest[i] == tests[i + 1] && tail[i] == sections[i + 1];
      InsertedRows(rows', rest, tail);
      assert tests == [tests[0]] + rest;
      var all := Inserted(rows', rest, tail);
      assert all[tests[0]] == sections[0];
      forall i | 1 <= i < |tests| ensures all[tests[i]] == sections[i] {
        assert all[rest[i - 1]] == tail[i - 1];
      }
    }
  }

  /** What the service seeds: sort orders 0, 1, ..., the first section active and the rest pending. */
  ghost predicate Seeding(sections: seq<Section>) {
    forall i :: 0 <= i < |sections| ==>
                  sections[i].sortOrder == i && sections[i].status == if i == 0 then Active else Pending
  }

  lemma SeededRows(tests: seq<TestId>, sections: seq<Section>)
    requires |tests| == |sections| && Distinct(tests) && Seeding(sections)
    ensures var rows := Inserted(map[], tests, sections);
            && rows.Keys == (set t | t in tests)
            && forall t :: t in rows ==>
                             && 0 <= rows[t].sortOrder < |tests| && tests[rows[t].sortOrder] == t
                             && rows[t].status == if rows[t].sortOrder == 0 then Active else Pending
  {
    InsertedRows(map[], tests, sections);
    var rows := Inserted(map[], tests, sections);
    forall t | t in rows
      ensures 0 <= rows[t].sortOrder < |tests| && tests[rows[t].sortOrder] == t
      ensures rows[t].status == if rows[t].sortOrder == 0 then Active else Pending
    {
      var i :| 0 <= i < |tests| && tests[i] == t;
      assert rows[tests[i]] == sections[i];
    }
  }

  /** The machine starts in sequence, with nothing closed and as many sections as tests. */
  lemma SeedingIsInSequence(tests: seq<TestId>, sections: seq<Section>)
    requires |tests| == |sections| && Distinct(tests) && Seeding(sections)
    ensures var rows := Inserted(map[], tests, sections);
            DistinctOrders(rows) && InSequence(rows) && InStatus(rows, Closed) == {} && |rows| == |tests|
  {
    SeededRows(tests, sections);
    var rows := Inserted(map[], tests, sections);
    if tests != [] {
      var first := tests[0];
      assert first in rows && rows[first].sortOrder == 0;
      assert first in InStatus(rows, Active);
    }
    DistinctSameSetSameLength(tests, rows.Keys);
  }
}
