/**
 The text of list cursors. How an id or an instant is written and read is the library's business;
 what the codecs need of it is that reading undoes writing and that the text has no comma.
 */
module Cursors {
  import opened Prelude
  import opened ExamTables
  import opened DecimalText

  type Uuid = int

  /** A library's text form of a value. */
  datatype TextForm<!T> = TextForm(write: T -> string, read: string -> Option<T>)

  /** Reading undoes writing `x`, and its text has no comma. */
  predicate Faithful<T(==)>(form: TextForm<T>, x: T) {
    form.read(form.write(x)) == Some(x) && ',' !in form.write(x)
  }

  /** strings.Cut: around the first comma. */
  function CutFirst(s: string): Option<(string, string)> {
    if s == "" then None
    else if s[0] == ',' then Some(("", s[1..]))
    else
      var rest := CutFirst(s[1..]);
      if rest.None? then None else Some(([s[0]] + rest.value.0, rest.value.1))
  }

  /** strings.LastIndex: around the last comma. */
  function CutLast(s: string): Option<(string, string)> {
    if s == "" then None
    else
      var n := |s| - 1;
      if s[n] == ',' then Some((s[..n], ""))
      else
        var rest := CutLast(s[..n]);
        if rest.None? then None else Some((rest.value.0, rest.value.1 + [s[n]]))
  }

  lemma {:induction false} CutFirstIs(s: string, a: string, b: string)
    ensures CutFirst(s) == Some((a, b)) <==> s == a + "," + b && ',' !in a
  {
    assert s == a + "," + b && a != "" ==> s[0] == a[0];
    if s != "" && s[0] != ',' {
      if a != "" {
        CutFirstIs(s[1..], a[1..], b);
        assert a == [a[0]] + a[1..];
        if s == a + "," + b {
          assert s[1..] == a[1..] + "," + b;
        }
        if CutFirst(s) == Some((a, b)) {
          assert CutFirst(s[1..]).value.0 == a[1..];
          assert s == [s[0]] + s[1..];
        }
      }
    } else if s != "" {
      assert s == [','] + s[1..];
      if s == a + "," + b && ',' !in a {
        assert s[1..] == b;
      }
    }
  }

  lemma {:induction false} CutLastIs(s: string, a: string, b: string)
    ensures CutLast(s) == Some((a, b)) <==> s == a + "," + b && ',' !in b
  {
    assert s == a + "," + b && b != "" ==> s[|s| - 1] == b[|b| - 1];
    if s != "" {
      var n := |s| - 1;
      assert s == s[..n] + [s[n]];
      if s[n] != ',' {
        if b != "" {
          var m := |b| - 1;
          CutLastIs(s[..n], a, b[..m]);
          assert b == b[..m] + [b[m]];
          if s == a + "," + b {
            assert s[..n] == a + "," + b[..m];
          }
          if CutLast(s) == Some((a, b)) {
            assert CutLast(s[..n]).value.1 == b[..m];
            assert s == a + "," + b;
          }
        }
      } else if s == a + "," + b && ',' !in b {
        assert s[..n] == a;
      }
    }
  }

  // ---------- "<name>,<uuid>" ----------

  function EncodeNameCursor(name: string, idText: string): string {
    name + "," + idText
  }

  function DecodeNameCursor(ids: TextForm<Uuid>, s: string): Option<(string, Uuid)> {
    var cut := CutLast(s);
    if cut.None? then None
    else
      var id := ids.read(cut.value.1);
      if id.None? then None else Some((cut.value.0, id.value))
  }

  /** A cursor is accepted exactly if it is a name, a comma and the comma-free text of an id. */
  lemma NameCursorAcceptedIff(ids: TextForm<Uuid>, s: string, name: string, id: Uuid)
    ensures DecodeNameCursor(ids, s) == Some((name, id)) <==>
            exists idText :: s == name + "," + idText && ',' !in idText && ids.read(idText) == Some(id)
  {
    if DecodeNameCursor(ids, s) == Some((name, id)) {
      var cut := CutLast(s).value;
      CutLastIs(s, cut.0, cut.1);
      assert s == name + "," + cut.1;
    }
    if idText :| s == name + "," + idText && ',' !in idText && ids.read(idText) == Some(id) {
      CutLastIs(s, name, idText);
    }
  }

  /** Every name survives, including names with commas. */
  lemma NameCursorRoundTrip(ids: TextForm<Uuid>, name: string, id: Uuid)
    requires Faithful(ids, id)
    ensures DecodeNameCursor(ids, EncodeNameCursor(name, ids.write(id))) == Some((name, id))
  {
    CutLastIs(EncodeNameCursor(name, ids.write(id)), name, ids.write(id));
  }

  // ---------- "<rfc3339nano>,<uuid>" ----------

  function EncodeOrderCursor(times: TextForm<Time>, ids: TextForm<Uuid>, at: Time, id: Uuid): string {
    times.write(at) + "," + ids.write(id)
  }

  function DecodeOrderCursor(times: TextForm<Time>, ids: TextForm<Uuid>, s: string): Option<(Time, Uuid)> {
    var cut := CutFirst(s);
    if cut.None? then None
    else
      var at, id := times.read(cut.value.0), ids.read(cut.value.1);
      if at.None? || id.None? then None else Some((at.value, id.value))
  }

  /** Accepted exactly if it is the comma-free text of an instant, a comma and the text of an id. */
  lemma OrderCursorAcceptedIff(times: TextForm<Time>, ids: TextForm<Uuid>, s: string, at: Time, id: Uuid)
    ensures DecodeOrderCursor(times, ids, s) == Some((at, id)) <==>
            exists atText, idText :: s == atText + "," + idText && ',' !in atText
                                     && times.read(atText) == Some(at) && ids.read(idText) == Some(id)
  {
    if DecodeOrderCursor(times, ids, s) == Some((at, id)) {
      var cut := CutFirst(s).value;
      CutFirstIs(s, cut.0, cut.1);
      assert s == cut.0 + "," + cut.1;
    }
    if atText, idText :| s == atText + "," + idText && ',' !in atText && times.read(atText) == Some(at) && ids.read(idText) == Some(id) {
      CutFirstIs(s, atText, idText);
    }
  }

  lemma OrderCursorRoundTrip(times: TextForm<Time>, ids: TextForm<Uuid>, at: Time, id: Uuid)
    requires Faithful(times, at) && Faithful(ids, id)
    ensures DecodeOrderCursor(times, ids, EncodeOrderCursor(times, ids, at, id)) == Some((at, id))
  {
    CutFirstIs(EncodeOrderCursor(times, ids, at, id), times.write(at), ids.write(id));
  }

  // ---------- The roster cursor ----------

  function EncodeRosterCursor(ids: TextForm<Uuid>, number: Option<int>, id: Uuid): string {
    (if number.None? then "null" else Itoa(number.value)) + "," + ids.write(id)
  }

  function DecodeRosterCursor(ids: TextForm<Uuid>, s: string): Option<(Option<int>, Uuid)> {
    var cut := CutFirst(s);
    if cut.None? then None
    else
      var id := ids.read(cut.value.1);
      if id.None? then None
      else if cut.value.0 == "null" then Some((None, id.value))
      else
        var number := Atoi(cut.value.0);
        if number.None? || number.value < 1 then None else Some((number, id.value))
  }

  /** What the number part of an accepted roster cursor says. */
  predicate IsNumberText(text: string, number: Option<int>) {
    if number.None? then text == "null" else text != "null" && Atoi(text) == number && number.value >= 1
  }

  lemma RosterCursorAcceptedIff(ids: TextForm<Uuid>, s: string, number: Option<int>, id: Uuid)
    ensures DecodeRosterCursor(ids, s) == Some((number, id)) <==>
            exists text, idText :: s == text + "," + idText && ',' !in text && IsNumberText(text, number) && ids.read(idText) == Some(id)
  {
    if DecodeRosterCursor(ids, s) == Some((number, id)) {
      var cut := CutFirst(s).value;
      CutFirstIs(s, cut.0, cut.1);
      assert s == cut.0 + "," + cut.1 && IsNumberText(cut.0, number);
    }
    if text, idText :| s == text + "," + idText && ',' !in text && IsNumberText(text, number) && ids.read(idText) == Some(id) {
      CutFirstIs(s, text, idText);
    }
  }

  /** A roster cursor survives exactly if its registration has no number or a positive one, as all allocated numbers are. */
  lemma RosterCursorRoundTripIff(ids: TextForm<Uuid>, number: Option<int>, id: Uuid)
    requires Faithful(ids, id) && (number.Some? ==> -0x8000_0000_0000_0000 <= number.value < 0x8000_0000_0000_0000)
    ensures DecodeRosterCursor(ids, EncodeRosterCursor(ids, number, id)) == Some((number, id)) <==>
            number.None? || number.value >= 1
  {
    var text := if number.None? then "null" else Itoa(number.value);
    if number.Some? {
      AtoiOfItoa(number.value);
      ItoaCharacters(number.value);
      assert "null"[1] == 'u' && (|text| > 1 ==> text[1] != 'u');
    }
    assert ',' !in text;
    CutFirstIs(EncodeRosterCursor(ids, number, id), text, ids.write(id));
  }
}
