/**
 The browser's durable answer queue: one localStorage value per session, parsed afresh on every
 call, and rewritten by edits and acknowledgements.
 */
module AnswerQueue {
  import opened Prelude
  import opened ExamTables

  datatype QueuedAnswer = QueuedAnswer(question: QuestionId, answer: string, flagged: bool, revision: int)

  /** A stored element: not an answer at all, or one whose revision may be missing or unusable. */
  datatype RawEntry = Junk | Fields(question: QuestionId, answer: string, flagged: bool, revision: Option<int>)

  /** What localStorage holds: nothing, text that does not parse, the old array form, or the wrapped form. */
  datatype RawStore =
    | Missing
    | Unparsable
    | Legacy(items: seq<RawEntry>)
    | Wrapped(entries: Option<seq<RawEntry>>, nextRevision: Option<int>)

  datatype QueueState = QueueState(entries: seq<QueuedAnswer>, next: int)

  predicate IsQueuedAnswer(e: RawEntry) {
    e.Fields? && e.revision.Some? && e.revision.value > 0
  }

  function Normalize(items: seq<RawEntry>): (r: seq<QueuedAnswer>)
    ensures forall i :: 0 <= i < |r| ==> r[i].revision > 0
  {
    if items == [] then []
    else
      var e := items[0];
      (if IsQueuedAnswer(e) then [QueuedAnswer(e.question, e.answer, e.flagged, e.revision.value)] else [])
      + Normalize(items[1..])
  }

  /** The old form had no revisions: an element without a usable one gets its position, from 1. */
  function Numbered(items: seq<RawEntry>): seq<RawEntry> {
    seq(|items|, i requires 0 <= i < |items| =>
      if IsQueuedAnswer(items[i]) || items[i].Junk? then items[i] else items[i].(revision := Some(i + 1)))
  }

  function MaxRevision(entries: seq<QueuedAnswer>): (m: int)
    ensures m >= 0 && forall i :: 0 <= i < |entries| ==> entries[i].revision <= m
    ensures m == 0 || exists i :: 0 <= i < |entries| && entries[i].revision == m
  {
    if entries == [] then 0 else Max(entries[0].revision, MaxRevision(entries[1..]))
  }

  function LoadState(raw: RawStore): QueueState {
    match raw
    case Missing => QueueState([], 1)
    case Unparsable => QueueState([], 1)
    case Legacy(items) =>
      var entries := Normalize(Numbered(items));
      QueueState(entries, Max(1, MaxRevision(entries) + 1))
    case Wrapped(stored, next) =>
      var entries := if stored.Some? then Normalize(stored.value) else [];
      var max := MaxRevision(entries);
      QueueState(entries, Max(1, if next.Some? && next.value > max then next.value else max + 1))
  }

  function Stored(e: QueuedAnswer): RawEntry {
    Fields(e.question, e.answer, e.flagged, Some(e.revision))
  }

  function StoredAll(entries: seq<QueuedAnswer>): seq<RawEntry> {
    if entries == [] then [] else [Stored(entries[0])] + StoredAll(entries[1..])
  }

  function SaveState(st: QueueState): RawStore {
    Wrapped(Some(StoredAll(st.entries)), Some(st.next))
  }

  /** Revisions are positive, and the next one is larger than all of them. */
  ghost predicate ValidState(st: QueueState) {
    st.next >= 1 && forall i :: 0 <= i < |st.entries| ==> 0 < st.entries[i].revision < st.next
  }

  /** Whatever the storage holds, loading it gives a queue whose next revision is fresh. */
  lemma LoadedStateIsValid(raw: RawStore)
    ensures ValidState(LoadState(raw))
  {
  }

  lemma {:induction false} NormalizeStored(entries: seq<QueuedAnswer>)
    requires forall i :: 0 <= i < |entries| ==> entries[i].revision > 0
    ensures Normalize(StoredAll(entries)) == entries
  {
    if entries != [] {
      NormalizeStored(entries[1..]);
      assert StoredAll(entries)[1..] == StoredAll(entries[1..]);
    }
  }

  lemma {:induction false} NormalizeKeepsAll(items: seq<RawEntry>)
    requires forall i :: 0 <= i < |items| ==> IsQueuedAnswer(items[i])
    ensures |Normalize(items)| == |items| && forall i :: 0 <= i < |items| ==> Stored(Normalize(items)[i]) == items[i]
  {
    if items != [] {
      NormalizeKeepsAll(items[1..]);
      assert Normalize(items)[1..] == Normalize(items[1..]);
    }
  }

  predicate AllUnnumbered(items: seq<RawEntry>) {
    forall i :: 0 <= i < |items| ==> items[i].Fields? && items[i].revision.None?
  }

  ghost predicate NumberedFromOne(entries: seq<QueuedAnswer>, items: seq<RawEntry>)
    requires AllUnnumbered(items)
  {
    && |entries| == |items|
    && forall i :: 0 <= i < |items| ==> Stored(entries[i]) == items[i].(revision := Some(i + 1))
  }

  /** An array from before revisions existed loads whole, numbered from 1 in its order. */
  lemma OldQueueIsNumbered(items: seq<RawEntry>)
    requires AllUnnumbered(items)
    ensures var st := LoadState(Legacy(items)); NumberedFromOne(st.entries, items) && st.next == |items| + 1
  {
    NormalizeKeepsAll(Numbered(items));
    var entries := Normalize(Numbered(items));
    forall i | 0 <= i < |items| ensures Stored(entries[i]) == items[i].(revision := Some(i + 1)) {
    }
    LastIsLargest(entries);
  }

  lemma LastIsLargest(entries: seq<QueuedAnswer>)
    requires forall i :: 0 <= i < |entries| ==> Stored(entries[i]).revision == Some(i + 1)
    ensures MaxRevision(entries) == |entries|
  {
    assert forall i :: 0 <= i < |entries| ==> entries[i].revision == i + 1;
    if entries != [] {
      assert entries[|entries| - 1].revision <= MaxRevision(entries);
    }
  }

  // ---------- What is loaded, entry by entry ----------

  /** Without a usable revision an element of the old form counts by its position, and one of the new form not at all. */
  ghost predicate Loads(items: seq<RawEntry>, positions: seq<nat>, entries: seq<QueuedAnswer>, legacy: bool) {
    && |positions| == |entries|
    && (forall k, m :: 0 <= k < m < |entries| ==> positions[k] < positions[m])
    && (forall i: nat :: i < |items| ==>
          (i in positions <==> items[i].Fields? && (legacy || (items[i].revision.Some? && items[i].revision.value > 0))))
    && forall k :: 0 <= k < |entries| ==>
         && positions[k] < |items| && items[positions[k]].Fields?
         && var e := items[positions[k]];
            entries[k] == QueuedAnswer(e.question, e.answer, e.flagged,
                                       if e.revision.Some? && e.revision.value > 0 then e.revision.value else positions[k] + 1)
  }

  lemma {:induction false} NormalizeSelects(items: seq<RawEntry>) returns (positions: seq<nat>)
    ensures Selects(items, positions, StoredAll(Normalize(items)))
    ensures forall i: nat :: i < |items| ==> (i in positions <==> IsQueuedAnswer(items[i]))
  {
    positions := [];
    if items != [] {
      var rest := NormalizeSelects(items[1..]);
      var kept := StoredAll(Normalize(items[1..]));
      positions := SelectsCons(items, rest, kept, IsQueuedAnswer(items[0]));
      StoredFirst(items);
    }
  }

  lemma StoredFirst(items: seq<RawEntry>)
    requires items != []
    ensures StoredAll(Normalize(items)) == (if IsQueuedAnswer(items[0]) then [items[0]] else []) + StoredAll(Normalize(items[1..]))
  {
    if IsQueuedAnswer(items[0]) {
      assert Normalize(items)[1..] == Normalize(items[1..]);
    } else {
      assert Normalize(items) == Normalize(items[1..]);
    }
  }

  lemma {:induction false} StoredEach(entries: seq<QueuedAnswer>)
    ensures |StoredAll(entries)| == |entries| && forall i :: 0 <= i < |entries| ==> StoredAll(entries)[i] == Stored(entries[i])
  {
    if entries != [] {
      StoredEach(entries[1..]);
    }
  }

  lemma LoadsWrapped(items: seq<RawEntry>, next: Option<int>) returns (positions: seq<nat>)
    ensures Loads(items, positions, LoadState(Wrapped(Some(items), next)).entries, false)
  {
    positions := NormalizeSelects(items);
    StoredEach(Normalize(items));
    var entries := Normalize(items);
    forall k | 0 <= k < |entries| ensures Stored(entries[k]) == items[positions[k]] {
      assert StoredAll(entries)[k] == items[positions[k]];
    }
  }

  lemma LoadsNumbered(items: seq<RawEntry>, positions: seq<nat>, entries: seq<QueuedAnswer>)
    requires Selects(Numbered(items), positions, StoredAll(entries))
    requires forall i: nat :: i < |items| ==> (i in positions <==> IsQueuedAnswer(Numbered(items)[i]))
    ensures Loads(items, positions, entries, true)
  {
    StoredEach(entries);
    forall k | 0 <= k < |entries| ensures Stored(entries[k]) == Numbered(items)[positions[k]] {
      assert StoredAll(entries)[k] == Numbered(items)[positions[k]];
    }
    forall k | 0 <= k < |entries| ensures items[positions[k]].Fields? {
      assert Numbered(items)[positions[k]].Fields?;
    }
    forall i: nat | i < |items| ensures IsQueuedAnswer(Numbered(items)[i]) <==> items[i].Fields? {
    }
  }

  lemma LoadsLegacy(items: seq<RawEntry>) returns (positions: seq<nat>)
    ensures Loads(items, positions, LoadState(Legacy(items)).entries, true)
  {
    hide Loads, Selects;
    positions := NormalizeSelects(Numbered(items));
    LoadsNumbered(items, positions, Normalize(Numbered(items)));
  }

  /** The next revision: the stored one if it is past all that were read, and otherwise the one after the largest of those. */
  lemma LoadedNext(raw: RawStore)
    ensures var st := LoadState(raw);
            if raw.Wrapped? && raw.nextRevision.Some? && raw.nextRevision.value > 0
               && forall i :: 0 <= i < |st.entries| ==> st.entries[i].revision < raw.nextRevision.value
            then st.next == raw.nextRevision.value
            else if st.entries == [] then st.next == 1
            else exists i :: 0 <= i < |st.entries| && st.next == st.entries[i].revision + 1
  {
    var entries := LoadState(raw).entries;
    var max := MaxRevision(entries);
    if max > 0 {
      var i :| 0 <= i < |entries| && entries[i].revision == max;
      assert entries[i].revision + 1 == max + 1;
    }
  }

  /** A reload reads back exactly the queue that was written. */
  lemma SavedStateLoadsBack(st: QueueState)
    requires ValidState(st)
    ensures LoadState(SaveState(st)) == st
  {
    NormalizeStored(st.entries);
  }

  // ---------- Edits and acknowledgements ----------

  function Without(entries: seq<QueuedAnswer>, q: QuestionId): (r: seq<QueuedAnswer>)
    ensures forall e :: e in r <==> e in entries && e.question != q
  {
    if entries == [] then []
    else (if entries[0].question != q then [entries[0]] else []) + Without(entries[1..], q)
  }

  /** The entry for `q` is replaced by one with a fresh revision. */
  function QueueDelta(st: QueueState, q: QuestionId, answer: string, flagged: bool): QueueState {
    QueueState(Without(st.entries, q) + [QueuedAnswer(q, answer, flagged, st.next)], st.next + 1)
  }

  /** The Map built from the acknowledged entries: for a repeated question the last one counts. */
  function AckedRevision(acked: seq<QueuedAnswer>, q: QuestionId): (r: Option<int>)
    ensures r.Some? ==> exists e :: e in acked && e.question == q && e.revision == r.value
  {
    if acked == [] then None
    else
      var last := acked[|acked| - 1];
      if last.question == q then Some(last.revision) else AckedRevision(acked[..|acked| - 1], q)
  }

  /** Only entries still at their acknowledged revision leave the queue. */
  function Remaining(entries: seq<QueuedAnswer>, acked: seq<QueuedAnswer>): (r: seq<QueuedAnswer>)
    ensures forall e :: e in r <==> e in entries && AckedRevision(acked, e.question) != Some(e.revision)
  {
    if entries == [] then []
    else
      (if AckedRevision(acked, entries[0].question) != Some(entries[0].revision) then [entries[0]] else [])
      + Remaining(entries[1..], acked)
  }

  function Acknowledge(st: QueueState, acked: seq<QueuedAnswer>): QueueState {
    QueueState(Remaining(st.entries, acked), st.next)
  }

  // ---------- What they leave, entry by entry ----------

  /** The entries of all other questions, in the order they were in. */
  ghost predicate LeavesOthers(before: seq<QueuedAnswer>, positions: seq<nat>, after: seq<QueuedAnswer>, q: QuestionId) {
    Selects(before, positions, after) && forall i: nat :: i < |before| ==> (i in positions <==> before[i].question != q)
  }

  /** The entries that were not acknowledged as they are, in the order they were in. */
  ghost predicate LeavesUnacknowledged(before: seq<QueuedAnswer>, positions: seq<nat>, after: seq<QueuedAnswer>,
                                       acked: seq<QueuedAnswer>)
  {
    Selects(before, positions, after) && forall i: nat :: i < |before| ==> (i in positions <==> !Acknowledges(acked, before[i]))
  }

  predicate IsLastTo(acked: seq<QueuedAnswer>, j: nat, q: QuestionId) {
    j < |acked| && acked[j].question == q && forall k :: j < k < |acked| ==> acked[k].question != q
  }

  /** The last acknowledgement of the entry's question carries its revision. */
  predicate Acknowledges(acked: seq<QueuedAnswer>, e: QueuedAnswer) {
    exists j: nat :: j < |acked| && IsLastTo(acked, j, e.question) && acked[j].revision == e.revision
  }

  lemma {:induction false} AckedIsLast(acked: seq<QueuedAnswer>, q: QuestionId)
    ensures AckedRevision(acked, q).None? ==> forall j :: 0 <= j < |acked| ==> acked[j].question != q
    ensures AckedRevision(acked, q).Some? ==>
              exists j: nat :: j < |acked| && IsLastTo(acked, j, q) && AckedRevision(acked, q) == Some(acked[j].revision)
  {
    if acked != [] {
      var last := |acked| - 1;
      if acked[last].question == q {
        assert IsLastTo(acked, last, q);
      } else {
        AckedIsLast(acked[..last], q);
        if AckedRevision(acked, q).Some? {
          var j: nat :| j < last && IsLastTo(acked[..last], j, q) && AckedRevision(acked, q) == Some(acked[..last][j].revision);
          assert IsLastTo(acked, j, q);
        }
      }
    }
  }

  lemma AcknowledgesIff(acked: seq<QueuedAnswer>, e: QueuedAnswer)
    ensures Acknowledges(acked, e) <==> AckedRevision(acked, e.question) == Some(e.revision)
  {
    AckedIsLast(acked, e.question);
  }

  lemma {:induction false} WithoutLeaves(entries: seq<QueuedAnswer>, q: QuestionId) returns (positions: seq<nat>)
    ensures LeavesOthers(entries, positions, Without(entries, q), q)
  {
    positions := [];
    if entries != [] {
      var rest := WithoutLeaves(entries[1..], q);
      positions := SelectsCons(entries, rest, Without(entries[1..], q), entries[0].question != q);
    }
  }

  lemma {:induction false} RemainingLeaves(entries: seq<QueuedAnswer>, acked: seq<QueuedAnswer>) returns (positions: seq<nat>)
    ensures LeavesUnacknowledged(entries, positions, Remaining(entries, acked), acked)
  {
    hide Acknowledges;
    positions := [];
    if entries != [] {
      var rest := RemainingLeaves(entries[1..], acked);
      AcknowledgesIff(acked, entries[0]);
      positions := SelectsCons(entries, rest, Remaining(entries[1..], acked), !Acknowledges(acked, entries[0]));
    }
  }

  /** The queued answers of one session's localStorage key. */
  class Queue {
    var storage: RawStore

    constructor ()
      ensures storage == Missing
    {
      storage := Missing;
    }

    /** Whatever the storage holds, entries with usable revisions; what was written is what is read. */
    method LoadQueue() returns (entries: seq<QueuedAnswer>)
      ensures forall i :: 0 <= i < |entries| ==> 0 < entries[i].revision < LoadState(storage).next
      ensures match storage
              case Missing => entries == []
              case Unparsable => entries == []
              case Legacy(items) => exists positions :: Loads(items, positions, entries, true)
              case Wrapped(stored, _) => if stored.None? then entries == []
                                         else exists positions :: Loads(stored.value, positions, entries, false)
      ensures forall st :: ValidState(st) && storage == SaveState(st) ==> entries == st.entries
      ensures storage.Legacy? && AllUnnumbered(storage.items) ==> NumberedFromOne(entries, storage.items)
      ensures entries == LoadState(storage).entries
    {
      LoadedStateIsValid(storage);
      forall st | ValidState(st) && storage == SaveState(st) ensures LoadState(storage).entries == st.entries {
        SavedStateLoadsBack(st);
      }
      if storage.Legacy? && AllUnnumbered(storage.items) {
        OldQueueIsNumbered(storage.items);
      }
      entries := LoadState(storage).entries;
      if storage.Legacy? {
        ghost var positions := LoadsLegacy(storage.items);
      } else if storage.Wrapped? && storage.entries.Some? {
        ghost var positions := LoadsWrapped(storage.entries.value, storage.nextRevision);
      }
    }

    /** Replaces the entries; revisions never run backwards. */
    method SaveQueue(entries: seq<QueuedAnswer>)
      modifies this
      ensures (forall i :: 0 <= i < |entries| ==> entries[i].revision > 0) ==>
                && LoadState(storage).entries == entries && LoadState(storage).next >= old(LoadState(storage).next)
                && (LoadState(storage).next == old(LoadState(storage).next)
                    || exists i :: 0 <= i < |entries| && LoadState(storage).next == entries[i].revision + 1)
    {
      var current := LoadState(storage);
      var next := Max(current.next, MaxRevision(entries) + 1);
      if forall i :: 0 <= i < |entries| ==> entries[i].revision > 0 {
        SavedStateLoadsBack(QueueState(entries, next));
        if next != current.next {
          ghost var i :| 0 <= i < |entries| && entries[i].revision == MaxRevision(entries);
          assert next == entries[i].revision + 1;
        }
      }
      storage := SaveState(QueueState(entries, next));
    }

    method ClearQueue()
      modifies this
      ensures LoadState(storage) == QueueState([], 1)
    {
      storage := Missing;
    }

    method QueueAnswerDelta(q: QuestionId, answer: string, flagged: bool) returns (queued: QueuedAnswer)
      modifies this
      ensures queued == QueuedAnswer(q, answer, flagged, old(LoadState(storage).next))
      ensures LoadState(storage) == QueueDelta(old(LoadState(storage)), q, answer, flagged)
      ensures LoadState(storage).next == queued.revision + 1
      ensures var before, after := old(LoadState(storage)).entries, LoadState(storage).entries;
              && (forall i :: 0 <= i < |before| ==> before[i].revision < queued.revision)
              && exists others, positions :: after == others + [queued] && LeavesOthers(before, positions, others, q)
    {
      var st := LoadState(storage);
      LoadedStateIsValid(storage);
      queued := QueuedAnswer(q, answer, flagged, st.next);
      var entries := Without(st.entries, q);
      QueueDeltaIsValid(st, q, answer, flagged);
      entries := entries + [queued];
      SavedStateLoadsBack(QueueState(entries, st.next + 1));
      ghost var positions := WithoutLeaves(st.entries, q);
      storage := SaveState(QueueState(entries, st.next + 1));
    }

    method AcknowledgeQueueRevisions(acked: seq<QueuedAnswer>) returns (remaining: seq<QueuedAnswer>)
      modifies this
      ensures LoadState(storage) == Acknowledge(old(LoadState(storage)), acked)
      ensures remaining == LoadState(storage).entries && LoadState(storage).next == old(LoadState(storage).next)
      ensures exists positions :: LeavesUnacknowledged(old(LoadState(storage)).entries, positions, remaining, acked)
    {
      var st := LoadState(storage);
      LoadedStateIsValid(storage);
      AcknowledgeIsValid(st, acked);
      remaining := Remaining(st.entries, acked);
      SavedStateLoadsBack(QueueState(remaining, st.next));
      ghost var positions := RemainingLeaves(st.entries, acked);
      storage := SaveState(QueueState(remaining, st.next));
    }
  }

  lemma QueueDeltaIsValid(st: QueueState, q: QuestionId, answer: string, flagged: bool)
    requires ValidState(st)
    ensures ValidState(QueueDelta(st, q, answer, flagged))
  {
    var kept := Without(st.entries, q);
    assert forall i :: 0 <= i < |kept| ==> kept[i] in st.entries;
  }

  lemma AcknowledgeIsValid(st: QueueState, acked: seq<QueuedAnswer>)
    requires ValidState(st)
    ensures ValidState(Acknowledge(st, acked))
  {
    var kept := Remaining(st.entries, acked);
    assert forall i :: 0 <= i < |kept| ==> kept[i] in st.entries;
  }
}
