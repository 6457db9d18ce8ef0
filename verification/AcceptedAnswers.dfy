/**
 The accepted answers of a question and of its blanks: stored as rows keyed by blank and answer
 index, mirrored into the older scalar column, and read back with that column as a fallback.
 */
module AcceptedAnswers {
  import opened Prelude
  import opened ExamTables
  import opened Keyset

  datatype Blank = Blank(index: int, correctAnswer: string, accepted: seq<string>)

  datatype Question = Question(correctAnswer: Option<string>, accepted: seq<string>, blanks: seq<Blank>)

  /** The rest of question_accepted_answer's primary key; blank 0 is the question itself. */
  datatype Key = Key(blank: int, answer: int)

  type Rows = map<Key, string>

  /** What the database keeps of one question: question, question_blank and question_accepted_answer. */
  datatype Stored = Stored(scalar: Option<string>, blanks: map<int, string>, rows: Rows)

  function Deref(s: Option<string>): string {
    if s.Some? then s.value else ""
  }

  function AcceptedAnswersOrFallback(accepted: seq<string>, scalar: string): seq<string> {
    if |accepted| > 0 then accepted
    else if scalar != "" then [scalar]
    else []
  }

  // ---------- Stamping ----------

  function StampedScalar(q: Question): Option<string> {
    if |q.accepted| > 0 then Some(q.accepted[0]) else q.correctAnswer
  }

  function StampedBlank(b: Blank): Blank {
    if |b.accepted| > 0 then b.(correctAnswer := b.accepted[0]) else b
  }

  function StampedBlanks(blanks: seq<Blank>): (r: seq<Blank>)
    ensures |r| == |blanks| && forall i :: 0 <= i < |blanks| ==> r[i] == StampedBlank(blanks[i])
  {
    if blanks == [] then [] else [StampedBlank(blanks[0])] + StampedBlanks(blanks[1..])
  }

  /** The loop over the blanks, which writes into the slice. */
  method StampScalarCorrectAnswers(blanks: array<Blank>)
    modifies blanks
    ensures blanks[..] == StampedBlanks(old(blanks[..]))
    ensures forall i :: 0 <= i < blanks.Length ==>
                          blanks[i] == if old(blanks[i].accepted) != [] then old(blanks[i]).(correctAnswer := old(blanks[i].accepted[0]))
                                       else old(blanks[i])
  {
    for i := 0 to blanks.Length
      invariant forall k :: 0 <= k < blanks.Length ==> blanks[k] == if k < i then StampedBlank(old(blanks[k])) else old(blanks[k])
    {
      if |blanks[i].accepted| > 0 {
        blanks[i] := blanks[i].(correctAnswer := blanks[i].accepted[0]);
      }
    }
    assert blanks[..] == StampedBlanks(old(blanks[..]));
  }

  // ---------- Writing ----------

  /** One INSERT for each answer from the `n`-th on, numbered from 1; None on a key that is taken. */
  function InsertSet(rows: Rows, blank: int, answers: seq<string>, n: nat): Option<Rows>
    requires n <= |answers|
    decreases |answers| - n
  {
    if n == |answers| then Some(rows)
    else if Key(blank, n + 1) in rows then None
    else InsertSet(rows[Key(blank, n + 1) := answers[n]], blank, answers, n + 1)
  }

  function InsertBlankSets(rows: Rows, blanks: seq<Blank>): Option<Rows>
    decreases |blanks|
  {
    if blanks == [] then Some(rows)
    else
      var r := InsertSet(rows, blanks[0].index, blanks[0].accepted, 0);
      if r.None? then None else InsertBlankSets(r.value, blanks[1..])
  }

  /** The rows after DELETE and all INSERTs. */
  function Replaced(accepted: seq<string>, blanks: seq<Blank>): Option<Rows> {
    var r := InsertSet(map[], 0, accepted, 0);
    if r.None? then None else InsertBlankSets(r.value, blanks)
  }

  function InsertScalars(scalars: map<int, string>, blanks: seq<Blank>): Option<map<int, string>>
    decreases |blanks|
  {
    if blanks == [] then Some(scalars)
    else if blanks[0].index in scalars then None
    else InsertScalars(scalars[blanks[0].index := blanks[0].correctAnswer], blanks[1..])
  }

  class Bank {
    var stored: map<QuestionId, Stored>

    /** Deletes and reinserts a question's accepted answers. */
    method ReplaceAcceptedAnswersTx(id: QuestionId, accepted: seq<string>, blanks: seq<Blank>) returns (ok: bool)
      requires id in stored
      modifies this
      ensures ok <==> Replaced(accepted, blanks).Some?
      ensures !ok ==> stored == old(stored)
      ensures ok ==> stored == old(stored)[id := old(stored)[id].(rows := Replaced(accepted, blanks).value)]
    {
      var rows: Rows := map[];
      for i := 0 to |accepted|
        invariant InsertSet(map[], 0, accepted, 0) == InsertSet(rows, 0, accepted, i)
      {
        if Key(0, i + 1) in rows {
          return false;
        }
        rows := rows[Key(0, i + 1) := accepted[i]];
      }
      for j := 0 to |blanks|
        invariant Replaced(accepted, blanks) == InsertBlankSets(rows, blanks[j..])
      {
        assert blanks[j..][1..] == blanks[j + 1..];
        var answers := blanks[j].accepted;
        ghost var before := rows;
        for i := 0 to |answers|
          invariant InsertSet(before, blanks[j].index, answers, 0) == InsertSet(rows, blanks[j].index, answers, i)
        {
          if Key(blanks[j].index, i + 1) in rows {
            return false;
          }
          rows := rows[Key(blanks[j].index, i + 1) := answers[i]];
        }
      }
      stored := stored[id := stored[id].(rows := rows)];
      ok := true;
    }

    /** Stamps the scalars, then rewrites the question's rows; a refused insert aborts the transaction. */
    method UpdateQuestionTx(id: QuestionId, q: Question) returns (r: Result<(), StoreError>)
      modifies this
      ensures id !in old(stored) ==> r == Failure(NotFound) && stored == old(stored)
      ensures id in old(stored) ==>
                if Written(q).Some? then r == Success(()) && stored == old(stored)[id := Written(q).value]
                else r == Failure(UniqueViolation) && stored == old(stored)
      ensures r.Success? <==> id in old(stored) && CanBeStored(q)
      ensures r.Success? ==> id in stored && StoresScalars(stored[id], q) && StoresRows(stored[id].rows, q)
    {
      hide StoresScalars, StoresRows, CanBeStored;
      WhatIsWritten(q);
      if id !in stored {
        return Failure(NotFound);
      }
      var before := stored;
      var blanks := new Blank[|q.blanks|](i requires 0 <= i < |q.blanks| => q.blanks[i]);
      assert blanks[..] == q.blanks;
      StampScalarCorrectAnswers(blanks);
      var stamped := blanks[..];
      var scalars: map<int, string> := map[];
      for i := 0 to |stamped|
        invariant InsertScalars(map[], stamped) == InsertScalars(scalars, stamped[i..])
      {
        assert stamped[i..][1..] == stamped[i + 1..];
        if stamped[i].index in scalars {
          return Failure(UniqueViolation);
        }
        scalars := scalars[stamped[i].index := stamped[i].correctAnswer];
      }
      stored := stored[id := Stored(StampedScalar(q), scalars, stored[id].rows)];
      var ok := ReplaceAcceptedAnswersTx(id, q.accepted, stamped);
      if !ok {
        stored := before;
        return Failure(UniqueViolation);
      }
      r := Success(());
    }
  }

  /** What a create or update leaves of a question, if every insert is accepted. */
  function Written(q: Question): Option<Stored> {
    var blanks := StampedBlanks(q.blanks);
    var scalars, rows := InsertScalars(map[], blanks), Replaced(q.accepted, blanks);
    if scalars.None? || rows.None? then None else Some(Stored(StampedScalar(q), scalars.value, rows.value))
  }

  // ---------- Reading ----------

  /** The answers of one blank, ORDER BY answer_index. */
  ghost predicate IsRead(rows: Rows, blank: int, answers: seq<string>) {
    exists ks :: IsListing(AnswerKeys(rows, blank), KeyBefore, ks)
                 && |answers| == |ks|
                 && forall i :: 0 <= i < |ks| ==> ks[i] in rows && answers[i] == rows[ks[i]]
  }

  function AnswerKeys(rows: Rows, blank: int): set<Key> {
    set k | k in rows && k.blank == blank
  }

  predicate KeyBefore(x: Key, y: Key) {
    x.answer < y.answer
  }

  /** Reading with the fallback. */
  ghost predicate ReadsWith(rows: Rows, blank: int, scalar: string, answers: seq<string>) {
    exists raw :: IsRead(rows, blank, raw) && answers == AcceptedAnswersOrFallback(raw, scalar)
  }

  /** The accepted answers a reader of the question sees. */
  ghost predicate ReadsQuestion(st: Stored, answers: seq<string>) {
    ReadsWith(st.rows, 0, Deref(st.scalar), answers)
  }

  ghost predicate ReadsBlank(st: Stored, index: int, answers: seq<string>) {
    index in st.blanks && ReadsWith(st.rows, index, st.blanks[index], answers)
  }

  // ---------- When a write goes through ----------

  /** The keys a set of answers takes. */
  ghost predicate TakesKeys(blank: int, answers: seq<string>, n: nat, k: Key) {
    k.blank == blank && n < k.answer <= |answers|
  }

  lemma {:induction false} InsertSetIs(rows: Rows, blank: int, answers: seq<string>, n: nat)
    requires n <= |answers|
    ensures InsertSet(rows, blank, answers, n).Some? <==> forall k :: TakesKeys(blank, answers, n, k) ==> k !in rows
    ensures InsertSet(rows, blank, answers, n).Some? ==>
              var rows' := InsertSet(rows, blank, answers, n).value;
              && (forall k :: k in rows' <==> k in rows || TakesKeys(blank, answers, n, k))
              && (forall k :: k in rows ==> rows'[k] == rows[k])
              && (forall k :: TakesKeys(blank, answers, n, k) ==> rows'[k] == answers[k.answer - 1])
    decreases |answers| - n
  {
    if n < |answers| {
      var k := Key(blank, n + 1);
      assert TakesKeys(blank, answers, n, k);
      if k !in rows {
        InsertSetIs(rows[k := answers[n]], blank, answers, n + 1);
        assert forall j :: TakesKeys(blank, answers, n, j) <==> j == k || TakesKeys(blank, answers, n + 1, j);
      }
    }
  }

  predicate HasIndex(blanks: seq<Blank>, n: int) {
    exists i :: 0 <= i < |blanks| && blanks[i].index == n
  }

  ghost predicate DistinctIndexes(blanks: seq<Blank>) {
    forall i, j :: 0 <= i < j < |blanks| ==> blanks[i].index != blanks[j].index
  }

  /** Some blank's answers take this key. */
  ghost predicate BlanksTake(blanks: seq<Blank>, k: Key) {
    exists i :: 0 <= i < |blanks| && TakesKeys(blanks[i].index, blanks[i].accepted, 0, k)
  }

  lemma TakenByHeadOrTail(blanks: seq<Blank>, k: Key)
    requires blanks != []
    ensures BlanksTake(blanks, k) <==> TakesKeys(blanks[0].index, blanks[0].accepted, 0, k) || BlanksTake(blanks[1..], k)
  {
    if BlanksTake(blanks, k) {
      var i :| 0 <= i < |blanks| && TakesKeys(blanks[i].index, blanks[i].accepted, 0, k);
      assert i > 0 ==> blanks[1..][i - 1] == blanks[i];
    }
    if BlanksTake(blanks[1..], k) {
      var i :| 0 <= i < |blanks| - 1 && TakesKeys(blanks[1..][i].index, blanks[1..][i].accepted, 0, k);
      assert blanks[i + 1] == blanks[1..][i];
    }
  }

  /** `rows'` is `rows` and beside them the blanks' answers. */
  ghost predicate Adds(rows: Rows, blanks: seq<Blank>, rows': Rows) {
    && (forall k :: k in rows' <==> k in rows || BlanksTake(blanks, k))
    && (forall k :: k in rows && k in rows' ==> rows'[k] == rows[k])
    && (forall i, k :: 0 <= i < |blanks| && TakesKeys(blanks[i].index, blanks[i].accepted, 0, k) ==>
                         k in rows' && rows'[k] == blanks[i].accepted[k.answer - 1])
  }

  lemma {:induction false} InsertBlankSetsIs(rows: Rows, blanks: seq<Blank>)
    requires DistinctIndexes(blanks)
    ensures InsertBlankSets(rows, blanks).Some? <==> forall k :: BlanksTake(blanks, k) ==> k !in rows
    ensures InsertBlankSets(rows, blanks).Some? ==> Adds(rows, blanks, InsertBlankSets(rows, blanks).value)
    decreases |blanks|
  {
    if blanks != [] {
      var b, rest := blanks[0], blanks[1..];
      forall k ensures BlanksTake(blanks, k) <==> TakesKeys(b.index, b.accepted, 0, k) || BlanksTake(rest, k) {
        TakenByHeadOrTail(blanks, k);
      }
      assert forall i :: 0 <= i < |rest| ==> rest[i] == blanks[i + 1];
      forall k | BlanksTake(rest, k) ensures !TakesKeys(b.index, b.accepted, 0, k) {
        var i :| 0 <= i < |rest| && TakesKeys(rest[i].index, rest[i].accepted, 0, k);
        assert blanks[i + 1].index != blanks[0].index;
      }
      InsertSetIs(rows, b.index, b.accepted, 0);
      var r := InsertSet(rows, b.index, b.accepted, 0);
      if r.Some? {
        InsertBlankSetsIs(r.value, rest);
      }
    }
  }

  lemma {:induction false} InsertScalarsIs(scalars: map<int, string>, blanks: seq<Blank>)
    ensures InsertScalars(scalars, blanks).Some? <==>
            DistinctIndexes(blanks) && forall i :: 0 <= i < |blanks| ==> blanks[i].index !in scalars
    ensures InsertScalars(scalars, blanks).Some? ==>
              var all := InsertScalars(scalars, blanks).value;
              && (forall n :: n in all <==> n in scalars || HasIndex(blanks, n))
              && (forall n :: n in scalars ==> all[n] == scalars[n])
              && (forall i :: 0 <= i < |blanks| ==> all[blanks[i].index] == blanks[i].correctAnswer)
    decreases |blanks|
  {
    if blanks != [] {
      var b, rest := blanks[0], blanks[1..];
      assert forall i :: 1 <= i < |blanks| ==> blanks[i] == rest[i - 1];
      assert forall i :: 0 <= i < |rest| ==> rest[i] == blanks[i + 1];
      if b.index !in scalars {
        InsertScalarsIs(scalars[b.index := b.correctAnswer], rest);
      }
    }
  }

  lemma StampingKeepsSets(blanks: seq<Blank>)
    ensures DistinctIndexes(StampedBlanks(blanks)) <==> DistinctIndexes(blanks)
    ensures forall k :: BlanksTake(StampedBlanks(blanks), k) <==> BlanksTake(blanks, k)
  {
    var stamped := StampedBlanks(blanks);
    forall k ensures BlanksTake(stamped, k) <==> BlanksTake(blanks, k) {
      if BlanksTake(stamped, k) {
        var i :| 0 <= i < |stamped| && TakesKeys(stamped[i].index, stamped[i].accepted, 0, k);
        assert TakesKeys(blanks[i].index, blanks[i].accepted, 0, k);
      }
      if BlanksTake(blanks, k) {
        var i :| 0 <= i < |blanks| && TakesKeys(blanks[i].index, blanks[i].accepted, 0, k);
        assert TakesKeys(stamped[i].index, stamped[i].accepted, 0, k);
      }
    }
    assert forall i, j :: 0 <= i < j < |blanks| ==> (stamped[i].index == stamped[j].index <==> blanks[i].index == blanks[j].index);
  }

  /** A blank with index 0 stores its answers where the question's own are stored. */
  ghost predicate BlankZeroHasAnswers(blanks: seq<Blank>) {
    exists i :: 0 <= i < |blanks| && blanks[i].index == 0 && blanks[i].accepted != []
  }

  lemma QuestionAndBlanksClashIff(q: Question)
    ensures (exists k :: TakesKeys(0, q.accepted, 0, k) && BlanksTake(q.blanks, k)) <==>
            q.accepted != [] && BlankZeroHasAnswers(q.blanks)
  {
    if q.accepted != [] && BlankZeroHasAnswers(q.blanks) {
      var i :| 0 <= i < |q.blanks| && q.blanks[i].index == 0 && q.blanks[i].accepted != [];
      var k := Key(0, 1);
      assert TakesKeys(0, q.accepted, 0, k) && TakesKeys(q.blanks[i].index, q.blanks[i].accepted, 0, k);
      assert BlanksTake(q.blanks, k);
    }
  }

  /** A write goes through exactly if no index repeats and the question and a blank 0 do not both have answers. */
  lemma WrittenIff(q: Question)
    ensures Written(q).Some? <==> DistinctIndexes(q.blanks) && !(q.accepted != [] && BlankZeroHasAnswers(q.blanks))
  {
    var blanks := StampedBlanks(q.blanks);
    StampingKeepsSets(q.blanks);
    InsertScalarsIs(map[], blanks);
    InsertSetIs(map[], 0, q.accepted, 0);
    QuestionAndBlanksClashIff(q);
    if DistinctIndexes(q.blanks) {
      InsertBlankSetsIs(InsertSet(map[], 0, q.accepted, 0).value, blanks);
    }
  }

  // ---------- Round trip ----------

  /** The rows of one blank are exactly these answers, numbered from 1. */
  ghost predicate HoldsExactly(rows: Rows, blank: int, answers: seq<string>) {
    && (forall k :: k in rows && k.blank == blank ==> TakesKeys(blank, answers, 0, k))
    && (forall n :: 1 <= n <= |answers| ==> Key(blank, n) in rows && rows[Key(blank, n)] == answers[n - 1])
  }

  lemma ReadIs(rows: Rows, blank: int, answers: seq<string>, raw: seq<string>)
    requires HoldsExactly(rows, blank, answers)
    ensures IsRead(rows, blank, raw) <==> raw == answers
  {
    var keys := AnswerKeys(rows, blank);
    var ks := seq(|answers|, i requires 0 <= i < |answers| => Key(blank, i + 1));
    forall k ensures k in ks <==> k in keys {
      if k in keys {
        assert TakesKeys(blank, answers, 0, k) && ks[k.answer - 1] == k;
      }
    }
    assert IsListing(keys, KeyBefore, ks);
    if IsRead(rows, blank, raw) {
      var ls :| IsListing(keys, KeyBefore, ls) && |raw| == |ls| && forall i :: 0 <= i < |ls| ==> ls[i] in rows && raw[i] == rows[ls[i]];
      ListingIsUnique(keys, KeyBefore, ls, ks);
      forall i | 0 <= i < |raw| ensures raw[i] == answers[i] {
        assert ls[i] == Key(blank, i + 1);
      }
    }
  }

  lemma OwnHeld(accepted: seq<string>, blanks: seq<Blank>, own: Rows, rows: Rows)
    requires InsertSet(map[], 0, accepted, 0) == Some(own) && Adds(own, blanks, rows)
    requires forall i :: 0 <= i < |blanks| ==> blanks[i].index != 0
    ensures HoldsExactly(rows, 0, accepted)
  {
    InsertSetIs(map[], 0, accepted, 0);
    forall k | k in rows && k.blank == 0 ensures TakesKeys(0, accepted, 0, k) {
      assert !BlanksTake(blanks, k);
    }
    forall n | 1 <= n <= |accepted| ensures Key(0, n) in rows && rows[Key(0, n)] == accepted[n - 1] {
      assert TakesKeys(0, accepted, 0, Key(0, n));
      assert Key(0, n) in own;
    }
  }

  lemma BlankHeld(accepted: seq<string>, blanks: seq<Blank>, own: Rows, rows: Rows, i: nat)
    requires InsertSet(map[], 0, accepted, 0) == Some(own) && Adds(own, blanks, rows)
    requires i < |blanks| && blanks[i].index != 0 && DistinctIndexes(blanks)
    ensures HoldsExactly(rows, blanks[i].index, blanks[i].accepted)
  {
    InsertSetIs(map[], 0, accepted, 0);
    var b := blanks[i];
    forall k | k in rows && k.blank == b.index ensures TakesKeys(b.index, b.accepted, 0, k) {
      assert k !in own;
      assert BlanksTake(blanks, k);
      var j :| 0 <= j < |blanks| && TakesKeys(blanks[j].index, blanks[j].accepted, 0, k);
      assert j == i;
    }
    forall n | 1 <= n <= |b.accepted| ensures Key(b.index, n) in rows && rows[Key(b.index, n)] == b.accepted[n - 1] {
      assert TakesKeys(b.index, b.accepted, 0, Key(b.index, n));
    }
  }

  /** What a write stores for the question and for each blank. */
  lemma WrittenHolds(q: Question)
    requires Written(q).Some? && forall i :: 0 <= i < |q.blanks| ==> q.blanks[i].index != 0
    ensures HoldsExactly(Written(q).value.rows, 0, q.accepted)
    ensures forall i :: 0 <= i < |q.blanks| ==> HoldsExactly(Written(q).value.rows, q.blanks[i].index, q.blanks[i].accepted)
  {
    var blanks := StampedBlanks(q.blanks);
    var rows := Written(q).value.rows;
    InsertScalarsIs(map[], blanks);
    var own := InsertSet(map[], 0, q.accepted, 0).value;
    InsertBlankSetsIs(own, blanks);
    OwnHeld(q.accepted, blanks, own, rows);
    forall i | 0 <= i < |q.blanks| ensures HoldsExactly(rows, q.blanks[i].index, q.blanks[i].accepted) {
      BlankHeld(q.accepted, blanks, own, rows, i);
    }
  }

  /** No index repeats, and the question has no answers of its own beside those of a blank 0. */
  ghost predicate CanBeStored(q: Question) {
    && (forall i, j :: 0 <= i < j < |q.blanks| ==> q.blanks[i].index != q.blanks[j].index)
    && (q.accepted != [] ==> forall i :: 0 <= i < |q.blanks| && q.blanks[i].index == 0 ==> q.blanks[i].accepted == [])
  }

  /** The scalar columns hold the first accepted answer, or what was given where there is none. */
  ghost predicate StoresScalars(st: Stored, q: Question) {
    && st.scalar == (if q.accepted != [] then Some(q.accepted[0]) else q.correctAnswer)
    && (forall n :: n in st.blanks <==> HasIndex(q.blanks, n))
    && (forall i :: 0 <= i < |q.blanks| ==>
                      && q.blanks[i].index in st.blanks
                      && st.blanks[q.blanks[i].index] == if q.blanks[i].accepted != [] then q.blanks[i].accepted[0]
                                                         else q.blanks[i].correctAnswer)
  }

  /** The answers of the question under 0 and of every blank under its index, numbered from 1, and no other rows. */
  ghost predicate StoresRows(rows: Rows, q: Question) {
    && (forall n :: 1 <= n <= |q.accepted| ==> Key(0, n) in rows && rows[Key(0, n)] == q.accepted[n - 1])
    && (forall i, n :: 0 <= i < |q.blanks| && 1 <= n <= |q.blanks[i].accepted| ==>
                         Key(q.blanks[i].index, n) in rows && rows[Key(q.blanks[i].index, n)] == q.blanks[i].accepted[n - 1])
    && (forall k :: k in rows ==>
                      || (k.blank == 0 && 1 <= k.answer <= |q.accepted|)
                      || exists i :: 0 <= i < |q.blanks| && k.blank == q.blanks[i].index && 1 <= k.answer <= |q.blanks[i].accepted|)
  }

  /** The parts of a written question: the stamped blanks, the question's own rows, and the blanks' rows beside them. */
  lemma WrittenParts(q: Question) returns (blanks: seq<Blank>, own: Rows)
    requires Written(q).Some?
    ensures |blanks| == |q.blanks| && forall i :: 0 <= i < |blanks| ==> blanks[i] == StampedBlank(q.blanks[i])
    ensures InsertSet(map[], 0, q.accepted, 0) == Some(own) && Adds(own, blanks, Written(q).value.rows)
    ensures Written(q).value.scalar == StampedScalar(q) && ScalarsOf(blanks, Written(q).value.blanks)
  {
    blanks := StampedBlanks(q.blanks);
    own := InsertSet(map[], 0, q.accepted, 0).value;
    InsertScalarsIs(map[], blanks);
    InsertBlankSetsIs(own, blanks);
  }

  ghost predicate ScalarsOf(blanks: seq<Blank>, scalars: map<int, string>) {
    && (forall n :: n in scalars <==> HasIndex(blanks, n))
    && (forall i :: 0 <= i < |blanks| ==> blanks[i].index in scalars && scalars[blanks[i].index] == blanks[i].correctAnswer)
  }

  lemma OwnRowsStored(q: Question, blanks: seq<Blank>, own: Rows, rows: Rows)
    requires InsertSet(map[], 0, q.accepted, 0) == Some(own) && Adds(own, blanks, rows)
    ensures forall n :: 1 <= n <= |q.accepted| ==> Key(0, n) in rows && rows[Key(0, n)] == q.accepted[n - 1]
    ensures forall k :: k in rows ==> TakesKeys(0, q.accepted, 0, k) || BlanksTake(blanks, k)
  {
    InsertSetIs(map[], 0, q.accepted, 0);
    forall n | 1 <= n <= |q.accepted| ensures Key(0, n) in rows && rows[Key(0, n)] == q.accepted[n - 1] {
      assert TakesKeys(0, q.accepted, 0, Key(0, n)) && Key(0, n) in own;
    }
  }

  lemma BlankRowStored(blanks: seq<Blank>, own: Rows, rows: Rows, i: nat, n: nat)
    requires Adds(own, blanks, rows) && i < |blanks| && 1 <= n <= |blanks[i].accepted|
    ensures Key(blanks[i].index, n) in rows && rows[Key(blanks[i].index, n)] == blanks[i].accepted[n - 1]
  {
    assert TakesKeys(blanks[i].index, blanks[i].accepted, 0, Key(blanks[i].index, n));
  }

  lemma TakenByBlank(q: Question, blanks: seq<Blank>, k: Key)
    requires |blanks| == |q.blanks| && forall i :: 0 <= i < |blanks| ==> blanks[i] == StampedBlank(q.blanks[i])
    requires BlanksTake(blanks, k)
    ensures exists i :: 0 <= i < |q.blanks| && k.blank == q.blanks[i].index && 1 <= k.answer <= |q.blanks[i].accepted|
  {
    var i :| 0 <= i < |blanks| && TakesKeys(blanks[i].index, blanks[i].accepted, 0, k);
    assert k.blank == q.blanks[i].index;
  }

  lemma WrittenRows(q: Question)
    requires Written(q).Some?
    ensures StoresRows(Written(q).value.rows, q)
  {
    hide Written, InsertSet, Adds, BlanksTake;
    var rows := Written(q).value.rows;
    var blanks, own := WrittenParts(q);
    OwnRowsStored(q, blanks, own, rows);
    forall i, n | 0 <= i < |q.blanks| && 1 <= n <= |q.blanks[i].accepted|
      ensures Key(q.blanks[i].index, n) in rows && rows[Key(q.blanks[i].index, n)] == q.blanks[i].accepted[n - 1]
    {
      BlankRowStored(blanks, own, rows, i, n);
    }
    forall k | k in rows && !(k.blank == 0 && 1 <= k.answer <= |q.accepted|)
      ensures exists i :: 0 <= i < |q.blanks| && k.blank == q.blanks[i].index && 1 <= k.answer <= |q.blanks[i].accepted|
    {
      TakenByBlank(q, blanks, k);
    }
  }

  lemma StampingKeepsIndexes(q: Question, blanks: seq<Blank>, n: int)
    requires |blanks| == |q.blanks| && forall i :: 0 <= i < |blanks| ==> blanks[i] == StampedBlank(q.blanks[i])
    ensures HasIndex(blanks, n) <==> HasIndex(q.blanks, n)
  {
    if HasIndex(blanks, n) {
      var i :| 0 <= i < |blanks| && blanks[i].index == n;
      assert q.blanks[i].index == n;
    }
    if HasIndex(q.blanks, n) {
      var i :| 0 <= i < |q.blanks| && q.blanks[i].index == n;
      assert blanks[i].index == n;
    }
  }

  lemma WrittenScalars(q: Question)
    requires Written(q).Some?
    ensures StoresScalars(Written(q).value, q)
  {
    hide Written, InsertSet, Adds, HasIndex;
    var blanks, own := WrittenParts(q);
    forall n ensures HasIndex(blanks, n) <==> HasIndex(q.blanks, n) {
      StampingKeepsIndexes(q, blanks, n);
    }
    assert forall i :: 0 <= i < |blanks| ==> blanks[i].index == q.blanks[i].index;
  }

  lemma WhatIsWritten(q: Question)
    ensures Written(q).Some? <==> CanBeStored(q)
    ensures Written(q).Some? ==> StoresScalars(Written(q).value, q) && StoresRows(Written(q).value.rows, q)
  {
    hide StoresScalars, StoresRows, Written;
    WrittenIff(q);
    if Written(q).Some? {
      WrittenScalars(q);
      WrittenRows(q);
    }
  }

  lemma ReadsWithIs(rows: Rows, blank: int, stored: seq<string>, scalar: string, answers: seq<string>)
    requires HoldsExactly(rows, blank, stored)
    ensures ReadsWith(rows, blank, scalar, answers) <==> answers == AcceptedAnswersOrFallback(stored, scalar)
  {
    ReadIs(rows, blank, stored, stored);
    forall raw | IsRead(rows, blank, raw) ensures raw == stored {
      ReadIs(rows, blank, stored, raw);
    }
  }

  /**
   What is written is read back: a non-empty set unchanged and in order, an empty one as its scalar
   or as nothing; and the scalar holds the first accepted answer.
   */
  lemma QuestionRoundTrip(q: Question, answers: seq<string>)
    requires Written(q).Some? && forall i :: 0 <= i < |q.blanks| ==> q.blanks[i].index != 0
    ensures ReadsQuestion(Written(q).value, answers) <==>
            answers == if q.accepted != [] then q.accepted
                       else if q.correctAnswer.Some? && q.correctAnswer.value != "" then [q.correctAnswer.value]
                       else []
    ensures q.accepted != [] ==> Written(q).value.scalar == Some(q.accepted[0])
  {
    WrittenHolds(q);
    ReadsWithIs(Written(q).value.rows, 0, q.accepted, Deref(Written(q).value.scalar), answers);
  }

  /** The same for every blank. */
  lemma BlankRoundTrip(q: Question, i: nat, answers: seq<string>)
    requires Written(q).Some? && i < |q.blanks| && forall j :: 0 <= j < |q.blanks| ==> q.blanks[j].index != 0
    ensures var b := q.blanks[i];
            && b.index in Written(q).value.blanks
            && (ReadsBlank(Written(q).value, b.index, answers) <==>
                answers == if b.accepted != [] then b.accepted else if b.correctAnswer != "" then [b.correctAnswer] else [])
            && Written(q).value.blanks[b.index] == if b.accepted != [] then b.accepted[0] else b.correctAnswer
  {
    var b, st := q.blanks[i], Written(q).value;
    WrittenHolds(q);
    WrittenScalars(q);
    ReadsWithIs(st.rows, b.index, b.accepted, st.blanks[b.index], answers);
  }

  /** A question as its reader has it in hand. */
  ghost predicate IsReadBack(st: Stored, q: Question) {
    && q.correctAnswer == st.scalar && ReadsQuestion(st, q.accepted)
    && DistinctIndexes(q.blanks)
    && (forall n :: n in st.blanks <==> HasIndex(q.blanks, n))
    && (forall i :: 0 <= i < |q.blanks| ==>
                      && q.blanks[i].index in st.blanks && q.blanks[i].correctAnswer == st.blanks[q.blanks[i].index]
                      && ReadsBlank(st, q.blanks[i].index, q.blanks[i].accepted))
  }

  /** A set read back is its own fallback, and its scalar is already stamped. */
  lemma ReadBlankIsStable(q: Question, b: Blank)
    requires Written(q).Some? && forall i :: 0 <= i < |q.blanks| ==> q.blanks[i].index != 0
    requires b.index in Written(q).value.blanks && b.correctAnswer == Written(q).value.blanks[b.index]
    requires ReadsBlank(Written(q).value, b.index, b.accepted)
    ensures b.index != 0 && StampedBlank(b) == b && AcceptedAnswersOrFallback(b.accepted, b.correctAnswer) == b.accepted
  {
    WrittenScalars(q);
    var i :| 0 <= i < |q.blanks| && q.blanks[i].index == b.index;
    BlankRoundTrip(q, i, b.accepted);
  }

  lemma ReadBackIsStable(q: Question, again: Question)
    requires Written(q).Some? && forall i :: 0 <= i < |q.blanks| ==> q.blanks[i].index != 0
    requires IsReadBack(Written(q).value, again)
    ensures StampedScalar(again) == again.correctAnswer
    ensures AcceptedAnswersOrFallback(again.accepted, Deref(again.correctAnswer)) == again.accepted
    ensures forall i :: 0 <= i < |again.blanks| ==>
                          && again.blanks[i].index != 0 && StampedBlank(again.blanks[i]) == again.blanks[i]
                          && AcceptedAnswersOrFallback(again.blanks[i].accepted, again.blanks[i].correctAnswer) == again.blanks[i].accepted
  {
    QuestionRoundTrip(q, again.accepted);
    forall i | 0 <= i < |again.blanks|
      ensures again.blanks[i].index != 0 && StampedBlank(again.blanks[i]) == again.blanks[i]
              && AcceptedAnswersOrFallback(again.blanks[i].accepted, again.blanks[i].correctAnswer) == again.blanks[i].accepted
    {
      ReadBlankIsStable(q, again.blanks[i]);
    }
  }

  lemma SameScalars(st: Stored, again: Question)
    requires IsReadBack(st, again) && Written(again).Some?
    requires StampedScalar(again) == again.correctAnswer
    requires forall i :: 0 <= i < |again.blanks| ==> StampedBlank(again.blanks[i]) == again.blanks[i]
    ensures Written(again).value.scalar == st.scalar && Written(again).value.blanks == st.blanks
  {
    hide Written, ReadsQuestion, ReadsBlank;
    var blanks := Written(again).value.blanks;
    WrittenScalars(again);
    assert forall n :: n in blanks <==> n in st.blanks;
    forall n | n in st.blanks ensures blanks[n] == st.blanks[n] {
      var i :| 0 <= i < |again.blanks| && again.blanks[i].index == n;
      assert StampedBlank(again.blanks[i]).correctAnswer == st.blanks[n];
    }
  }

  /** Writing what was read goes through and changes nothing for readers, nor the scalars. */
  lemma WritingWhatWasReadIsAFixedPoint(q: Question, again: Question)
    requires Written(q).Some? && (forall i :: 0 <= i < |q.blanks| ==> q.blanks[i].index != 0)
    requires IsReadBack(Written(q).value, again)
    ensures Written(again).Some? && IsReadBack(Written(again).value, again)
    ensures Written(again).value.scalar == Written(q).value.scalar && Written(again).value.blanks == Written(q).value.blanks
  {
    ReadBackIsStable(q, again);
    assert !BlankZeroHasAnswers(again.blanks);
    WrittenIff(again);
    SameScalars(Written(q).value, again);
    QuestionRoundTrip(again, again.accepted);
    forall i | 0 <= i < |again.blanks|
      ensures ReadsBlank(Written(again).value, again.blanks[i].index, again.blanks[i].accepted)
    {
      BlankRoundTrip(again, i, again.blanks[i].accepted);
    }
  }

  /** Indexes must start at 1: the answers of a blank 0 are read as the question's own. */
  lemma BlankZeroIsReadAsTheQuestion(q: Question, b: Blank)
    requires q.accepted == [] && q.blanks == [b] && b.index == 0 && b.accepted != []
    ensures Written(q).Some? && ReadsQuestion(Written(q).value, b.accepted)
  {
    WrittenIff(q);
    var blanks := StampedBlanks(q.blanks);
    InsertBlankSetsIs(map[], blanks);
    var rows := Written(q).value.rows;
    forall n | 1 <= n <= |b.accepted| ensures Key(0, n) in rows && rows[Key(0, n)] == b.accepted[n - 1] {
      assert TakesKeys(blanks[0].index, blanks[0].accepted, 0, Key(0, n));
      assert BlanksTake(blanks, Key(0, n));
    }
    forall k | k in rows && k.blank == 0 ensures TakesKeys(0, b.accepted, 0, k) {
      assert BlanksTake(blanks, k);
    }
    ReadsWithIs(rows, 0, b.accepted, Deref(Written(q).value.scalar), b.accepted);
  }
}
