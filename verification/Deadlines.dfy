/**
 Two predicates over the same clocks: the expiry worker's due list and the dashboard's count of
 active sessions, and what an extension does to them.
 */
module Deadlines {
  import opened Prelude
  import opened ExamTables
  import opened SectionTable

  datatype Mode = Standard | Utbk | Ielts

  datatype Timing = Timing(mode: Mode, durationMinutes: Option<int>, graceMinutes: Option<int>)

  function Grace(e: Timing): int {
    if e.graceMinutes.Some? then e.graceMinutes.value * MINUTE else 0
  }

  /** GREATEST ignores NULL operands. */
  function Greatest(a: Option<Time>, b: Option<Time>): Option<Time> {
    if a.None? then b else if b.None? then a else Some(Max(a.value, b.value))
  }

  // ---------- The due list ----------

  /** GREATEST(started + duration, extension) + grace */
  function DueAt(startedAt: Time, minutes: int, extendedUntil: Option<Time>, grace: int): Time {
    var end := startedAt + minutes * MINUTE;
    (if extendedUntil.Some? then Max(end, extendedUntil.value) else end) + grace
  }

  function SessionDueAt(e: Timing, s: Session): Option<Time> {
    if s.status == InProgress && e.mode == Standard && e.durationMinutes.Some? && e.durationMinutes.value > 0
    then Some(DueAt(s.startedAt, e.durationMinutes.value, s.extendedUntil, Grace(e)))
    else None
  }

  function SectionDueAt(e: Timing, s: Session, row: Section): Option<Time> {
    if s.status == InProgress && e.mode != Standard && row.status == Active && row.startedAt.Some? && row.minutes > 0
    then Some(DueAt(row.startedAt.value, row.minutes, row.extendedUntil, Grace(e)))
    else None
  }

  /** ListDueExamExpiryCandidates has a row for the session itself or for one of its sections. */
  predicate IsDue(e: Timing, s: Session, rows: Sections, now: Time) {
    || (SessionDueAt(e, s).Some? && SessionDueAt(e, s).value <= now)
    || (exists t :: t in rows && SectionDueAt(e, s, rows[t]).Some? && SectionDueAt(e, s, rows[t]).value <= now)
  }

  // ---------- The active count ----------

  predicate Before(now: Time, deadline: Option<Time>) {
    deadline.None? || now < deadline.value
  }

  predicate ExamClockRuns(e: Timing, s: Session, now: Time) {
    var end := if e.durationMinutes.Some? && e.durationMinutes.value > 0
               then Some(s.startedAt + e.durationMinutes.value * MINUTE + Grace(e)) else None;
    Before(now, Greatest(end, s.extendedUntil))
  }

  predicate SectionClockRuns(row: Section, now: Time)
    requires row.startedAt.Some?
  {
    var end := if row.minutes > 0 then Some(row.startedAt.value + row.minutes * MINUTE) else None;
    Before(now, Greatest(end, row.extendedUntil))
  }

  /** The CASE for one joined row: a started active section has its own clock. */
  predicate JoinedRowCounts(e: Timing, s: Session, row: Section, now: Time) {
    if row.startedAt.Some? then SectionClockRuns(row, now) else ExamClockRuns(e, s, now)
  }

  /** What a session adds to CountActiveExamSessions: the LEFT JOIN has a row for every active section, or one without. */
  function Counted(e: Timing, s: Session, rows: Sections, now: Time): nat {
    if s.status != InProgress then 0
    else if InStatus(rows, Active) == {} then (if ExamClockRuns(e, s, now) then 1 else 0)
    else |set t | t in InStatus(rows, Active) && JoinedRowCounts(e, s, rows[t], now)|
  }

  // ---------- When exactly ----------

  /** A standard session is due from its regular end or its extension on, whichever is later, each with the grace. */
  lemma StandardDueIff(e: Timing, s: Session, rows: Sections, now: Time)
    requires e.mode == Standard
    ensures var grace := if e.graceMinutes.Some? then e.graceMinutes.value * 60_000_000 else 0;
            IsDue(e, s, rows, now) <==>
            && s.status == InProgress && e.durationMinutes.Some? && e.durationMinutes.value > 0
            && s.startedAt + e.durationMinutes.value * 60_000_000 + grace <= now
            && (s.extendedUntil.Some? ==> s.extendedUntil.value + grace <= now)
  {
  }

  /** A sectioned one by its active section, once that has started and has minutes; the exam's own duration plays no part. */
  lemma SectionedDueIff(e: Timing, s: Session, rows: Sections, now: Time)
    requires e.mode != Standard
    ensures var grace := if e.graceMinutes.Some? then e.graceMinutes.value * 60_000_000 else 0;
            IsDue(e, s, rows, now) <==>
            && s.status == InProgress
            && exists t ::
                 && t in rows && rows[t].status == Active && rows[t].minutes > 0 && rows[t].startedAt.Some?
                 && rows[t].startedAt.value + rows[t].minutes * 60_000_000 + grace <= now
                 && (rows[t].extendedUntil.Some? ==> rows[t].extendedUntil.value + grace <= now)
  {
    var grace := if e.graceMinutes.Some? then e.graceMinutes.value * 60_000_000 else 0;
    forall t | t in rows
      ensures SectionDueAt(e, s, rows[t]).Some? && SectionDueAt(e, s, rows[t]).value <= now <==>
              && s.status == InProgress && rows[t].status == Active && rows[t].minutes > 0 && rows[t].startedAt.Some?
              && rows[t].startedAt.value + rows[t].minutes * 60_000_000 + grace <= now
              && (rows[t].extendedUntil.Some? ==> rows[t].extendedUntil.value + grace <= now)
    {
    }
  }

  /** The section an advance opens is due its minutes and the grace after that, unless it was extended for longer. */
  lemma OpenedSectionIsDue(e: Timing, s: Session, rows: Sections, test: TestId, next: TestId, at: Time, rows': Sections,
                           now: Time)
    requires e.mode != Standard && s.status == InProgress && DistinctOrders(rows) && InSequence(rows)
    requires Advanced(rows, test, Some(next), at, rows') && next in rows && rows[next].minutes > 0
    ensures var grace := if e.graceMinutes.Some? then e.graceMinutes.value * 60_000_000 else 0;
            var extension := rows[next].extendedUntil;
            IsDue(e, s, rows', now) <==>
            at + rows[next].minutes * 60_000_000 + grace <= now && (extension.Some? ==> extension.value + grace <= now)
  {
    SectionedDueIff(e, s, rows', now);
    AdvanceKeepsSequence(rows, test, Some(next), at, rows');
    assert next in InStatus(rows', Active);
    forall t | t in rows' && rows'[t].status == Active ensures t == next {
      assert t in InStatus(rows', Active);
    }
  }

  /** The count follows the exam's clock unless a section runs: no limit, time left until its end, or an extension. */
  lemma CountedByExamClockIff(e: Timing, s: Session, rows: Sections, now: Time)
    requires InSequence(rows) && forall t :: t in rows && rows[t].status == Active ==> rows[t].startedAt.None?
    ensures var grace := if e.graceMinutes.Some? then e.graceMinutes.value * 60_000_000 else 0;
            var timed := e.durationMinutes.Some? && e.durationMinutes.value > 0;
            Counted(e, s, rows, now) == if s.status == InProgress
                                           && (|| (!timed && s.extendedUntil.None?)
                                               || (timed && now < s.startedAt + e.durationMinutes.value * 60_000_000 + grace)
                                               || (s.extendedUntil.Some? && now < s.extendedUntil.value)) then 1 else 0
  {
    if InStatus(rows, Active) != {} {
      var t := Member(InStatus(rows, Active));
      forall u ensures u in InStatus(rows, Active) <==> u in {t} {
      }
      assert (set u | u in InStatus(rows, Active) && JoinedRowCounts(e, s, rows[u], now))
          == if ExamClockRuns(e, s, now) then {t} else {};
    }
  }

  /** A section that runs is counted by its own clock, and without the grace. */
  lemma CountedBySectionClockIff(e: Timing, s: Session, rows: Sections, t: TestId, now: Time)
    requires InSequence(rows) && t in rows && rows[t].status == Active && rows[t].startedAt.Some?
    ensures Counted(e, s, rows, now) == if s.status == InProgress
                                           && (|| (rows[t].minutes <= 0 && rows[t].extendedUntil.None?)
                                               || (rows[t].minutes > 0 && now < rows[t].startedAt.value + rows[t].minutes * 60_000_000)
                                               || (rows[t].extendedUntil.Some? && now < rows[t].extendedUntil.value)) then 1 else 0
  {
    assert t in InStatus(rows, Active);
    forall u ensures u in InStatus(rows, Active) <==> u in {t} {
    }
    assert (set u | u in InStatus(rows, Active) && JoinedRowCounts(e, s, rows[u], now))
        == if SectionClockRuns(rows[t], now) then {t} else {};
  }

  // ---------- They agree ----------

  /** A session counts at most once, because at most one of its sections is active. */
  lemma CountedAtMostOnce(e: Timing, s: Session, rows: Sections, now: Time)
    requires InSequence(rows)
    ensures Counted(e, s, rows, now) <= 1
  {
    ActiveJoinIsUnique(rows);
    var counting := set t | t in InStatus(rows, Active) && JoinedRowCounts(e, s, rows[t], now);
    assert InStatus(rows, Active) == counting + (InStatus(rows, Active) - counting);
  }

  /** With non-negative grace, and sections only in sectioned modes, nothing due is still counted as active. */
  lemma DueIsNotCounted(e: Timing, s: Session, rows: Sections, now: Time)
    requires Grace(e) >= 0 && InSequence(rows) && (e.mode == Standard ==> rows == map[])
    requires IsDue(e, s, rows, now)
    ensures Counted(e, s, rows, now) == 0
  {
    if InStatus(rows, Active) != {} {
      var t :| t in rows && SectionDueAt(e, s, rows[t]).Some? && SectionDueAt(e, s, rows[t]).value <= now;
      forall u | u in InStatus(rows, Active) ensures !JoinedRowCounts(e, s, rows[u], now) {
        assert u == t;
      }
      assert (set u | u in InStatus(rows, Active) && JoinedRowCounts(e, s, rows[u], now)) == {};
    } else {
      forall t | t in rows ensures SectionDueAt(e, s, rows[t]).None? {
        assert t !in InStatus(rows, Active);
      }
    }
  }

  /** For a standard session the two never overlap, at any time, exactly under this condition on its clock. */
  lemma NeverDueAndCountedIff(e: Timing, s: Session)
    requires SessionDueAt(e, s).Some?
    ensures (forall now :: IsDue(e, s, map[], now) ==> Counted(e, s, map[], now) == 0) <==>
            Grace(e) >= 0 || s.extendedUntil.None?
            || s.extendedUntil.value <= s.startedAt + e.durationMinutes.value * MINUTE + Grace(e)
  {
    var due := SessionDueAt(e, s).value;
    assert IsDue(e, s, map[], due);
    assert InStatus(map[], Active) == {};
    assert Counted(e, s, map[], due) == if ExamClockRuns(e, s, due) then 1 else 0;
  }

  /** And no time is left between them, exactly under this one: an extension past the end is not counted through its grace. */
  lemma NoGapIff(e: Timing, s: Session)
    requires SessionDueAt(e, s).Some?
    ensures (forall now :: IsDue(e, s, map[], now) || Counted(e, s, map[], now) == 1) <==>
            Grace(e) <= 0 || s.extendedUntil.None?
            || s.extendedUntil.value <= s.startedAt + e.durationMinutes.value * MINUTE
  {
    assert InStatus(map[], Active) == {};
    var end := s.startedAt + e.durationMinutes.value * MINUTE;
    if s.extendedUntil.Some? {
      var x := Max(end + Grace(e), s.extendedUntil.value);
      assert Counted(e, s, map[], x) == if ExamClockRuns(e, s, x) then 1 else 0;
      assert IsDue(e, s, map[], x) <==> SessionDueAt(e, s).value <= x;
    }
  }

  /** When an active section's own clock runs out: the regular end or the extension, without any grace. */
  function SectionEnd(row: Section): Time
    requires row.startedAt.Some?
  {
    DueAt(row.startedAt.value, row.minutes, row.extendedUntil, 0)
  }

  /** A sitting with a running section is due by that section with its grace, and counted by it without. */
  lemma RunningSectionDecides(e: Timing, s: Session, rows: Sections, t: TestId, now: Time)
    requires InSequence(rows) && t in rows && SectionDueAt(e, s, rows[t]).Some?
    ensures IsDue(e, s, rows, now) <==> SectionEnd(rows[t]) + Grace(e) <= now
    ensures Counted(e, s, rows, now) == if now < SectionEnd(rows[t]) then 1 else 0
  {
    forall u ensures u in InStatus(rows, Active) <==> u in {t} {
    }
    assert InStatus(rows, Active) == {t};
    forall u | u in rows && SectionDueAt(e, s, rows[u]).Some? ensures u == t {
    }
    var counting := set u | u in InStatus(rows, Active) && JoinedRowCounts(e, s, rows[u], now);
    assert counting == if now < SectionEnd(rows[t]) then {t} else {};
  }

  /** While a section runs the two never overlap exactly if the grace is not negative; extensions do not matter. */
  lemma SectionNeverDueAndCountedIff(e: Timing, s: Session, rows: Sections, t: TestId)
    requires InSequence(rows) && t in rows && SectionDueAt(e, s, rows[t]).Some?
    ensures (forall now :: IsDue(e, s, rows, now) ==> Counted(e, s, rows, now) == 0) <==> Grace(e) >= 0
  {
    forall now
      ensures IsDue(e, s, rows, now) <==> SectionEnd(rows[t]) + Grace(e) <= now
      ensures Counted(e, s, rows, now) == if now < SectionEnd(rows[t]) then 1 else 0
    {
      RunningSectionDecides(e, s, rows, t, now);
    }
    assert IsDue(e, s, rows, SectionEnd(rows[t]) + Grace(e));
  }

  /** And there is no time between them exactly if there is no grace: the count gives a section none. */
  lemma SectionNoGapIff(e: Timing, s: Session, rows: Sections, t: TestId)
    requires InSequence(rows) && t in rows && SectionDueAt(e, s, rows[t]).Some?
    ensures (forall now :: IsDue(e, s, rows, now) || Counted(e, s, rows, now) == 1) <==> Grace(e) <= 0
  {
    forall now
      ensures IsDue(e, s, rows, now) <==> SectionEnd(rows[t]) + Grace(e) <= now
      ensures Counted(e, s, rows, now) == if now < SectionEnd(rows[t]) then 1 else 0
    {
      RunningSectionDecides(e, s, rows, t, now);
    }
    assert Counted(e, s, rows, SectionEnd(rows[t])) == 0;
  }

  /**
   An exam of an hour with ten minutes of grace, extended by half an hour: five minutes past the
   extension the sitting is neither due nor counted. Nor is one whose section ended five minutes ago.
   */
  lemma GraceLeavesGap()
    ensures var s := NewSession(1, 1, 1, 1, 0).(extendedUntil := Some(90 * MINUTE));
            var e := Timing(Standard, Some(60), Some(10));
            !IsDue(e, s, map[], 95 * MINUTE) && Counted(e, s, map[], 95 * MINUTE) == 0
    ensures var s := NewSession(1, 1, 1, 1, 0);
            var e := Timing(Utbk, None, Some(10));
            var rows := map[3 := Section(1, 30, Active, Some(0), None, None)];
            InSequence(rows) && !IsDue(e, s, rows, 35 * MINUTE) && Counted(e, s, rows, 35 * MINUTE) == 0
  {
    assert InStatus(map[], Active) == {};
    var rows: Sections := map[3 := Section(1, 30, Active, Some(0), None, None)];
    assert 3 in InStatus(rows, Active);
    RunningSectionDecides(Timing(Utbk, None, Some(10)), NewSession(1, 1, 1, 1, 0), rows, 3, 35 * MINUTE);
  }

  // ---------- Extensions ----------

  /** Granted m minutes at t, a session is not due at any time before t + m. */
  lemma ExtensionKeepsSessionOffList(e: Timing, s: Session, minutes: int, t: Time, now: Time)
    requires Grace(e) >= 0 && now < t + minutes * MINUTE
    ensures !IsDue(e, ReopenedRow(s, minutes, t), map[], now)
  {
  }

  /** Nor is an active section that was. */
  lemma ExtensionKeepsSectionOffList(e: Timing, s: Session, rows: Sections, minutes: int, t: Time, now: Time)
    requires Grace(e) >= 0 && now < t + minutes * MINUTE && e.mode != Standard
    ensures !IsDue(e, s, Extended(rows, minutes, t), now)
  {
    var rows' := Extended(rows, minutes, t);
    forall u | u in rows' && SectionDueAt(e, s, rows'[u]).Some? ensures SectionDueAt(e, s, rows'[u]).value > now {
      assert rows'[u] == ExtendRow(rows[u], minutes, t);
    }
  }

  /**
   An extension is not always one: it replaces the previous deadline. It moves the due time forward
   or leaves it exactly if the previous extension does not reach past both the regular end and the
   new deadline.
   */
  lemma ExtensionNeverShortensIff(e: Timing, s: Session, minutes: int, t: Time)
    requires SessionDueAt(e, s).Some?
    ensures SessionDueAt(e, ReopenedRow(s, minutes, t)).Some?
    ensures SessionDueAt(e, ReopenedRow(s, minutes, t)).value >= SessionDueAt(e, s).value <==>
            || s.extendedUntil.None?
            || s.extendedUntil.value <= t + minutes * MINUTE
            || s.extendedUntil.value <= s.startedAt + e.durationMinutes.value * MINUTE
  {
  }

  /** Ten minutes into an extension of an hour, five minutes are granted: the deadline moves 45 minutes back. */
  lemma ExtensionShortens()
    ensures var s := NewSession(1, 1, 1, 1, 0).(extendedUntil := Some(120 * MINUTE));
            var e := Timing(Standard, Some(60), None);
            && SessionDueAt(e, s) == Some(120 * MINUTE)
            && SessionDueAt(e, ReopenedRow(s, 5, 70 * MINUTE)) == Some(75 * MINUTE)
  {
  }
}
