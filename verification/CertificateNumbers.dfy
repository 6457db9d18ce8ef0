/**
 Certificate numbers. A call reads, looks for a sibling's number, composes one and writes it under a
 global unique index, falling back to the sibling that won. There is no transaction and no lock:
 each statement commits by itself, so concurrent calls interleave between any two of them.
 */
module CertificateNumbers {
  import opened Prelude
  import opened ExamTables
  import opened DecimalText

  datatype Exam = Exam(number: nat, scheduledYear: Option<nat>)
  datatype Participant = Participant(exam: ExamId, number: nat)
  datatype Sitting = Sitting(reg: RegistrationId, attempt: nat, certificate: Option<string>)

  datatype World = World(
    exams: map<ExamId, Exam>,
    regs: map<RegistrationId, Participant>,
    sittings: map<SessionId, Sitting>)

  datatype CertificateError = NoSuchSession | NumberTaken | NumberMissing

  // ---------- The format ----------

  /** ABK/%04d/%04d/%06d */
  function Format(year: nat, exam: nat, participant: nat): string {
    "ABK/" + (Padded(year, 4) + ['/'] + ExamPart(exam, participant))
  }

  function ExamPart(exam: nat, participant: nat): string {
    Padded(exam, 4) + ['/'] + Padded(participant, 6)
  }

  lemma PaddedIsInjective(n: nat, n': nat, width: nat)
    requires Padded(n, width) == Padded(n', width)
    ensures n == n'
  {
    ValueOfPadded(n, width);
    ValueOfPadded(n', width);
  }

  lemma ExamPartIsInjective(e: nat, n: nat, e': nat, n': nat)
    requires ExamPart(e, n) == ExamPart(e', n')
    ensures e == e' && n == n'
  {
    SplitAtSeparator(Padded(e, 4), Padded(e', 4), Padded(n, 6), Padded(n', 6), '/');
    PaddedIsInjective(e, e', 4);
    PaddedIsInjective(n, n', 6);
  }

  /** Padding and separators identify no two triples. */
  lemma FormatIsInjective(y: nat, e: nat, n: nat, y': nat, e': nat, n': nat)
    requires Format(y, e, n) == Format(y', e', n')
    ensures y == y' && e == e' && n == n'
  {
    var tail, tail' := Padded(y, 4) + ['/'] + ExamPart(e, n), Padded(y', 4) + ['/'] + ExamPart(e', n');
    assert tail == Format(y, e, n)[4..] && tail' == Format(y', e', n')[4..];
    SplitAtSeparator(Padded(y, 4), Padded(y', 4), ExamPart(e, n), ExamPart(e', n'), '/');
    PaddedIsInjective(y, y', 4);
    ExamPartIsInjective(e, n, e', n');
  }

  /** The text is ABK, a year of four digits, an exam number of four and a participant number of six, or longer ones in full. */
  ghost predicate Reads(text: string, a: string, b: string, c: string, year: nat, exam: nat, participant: nat) {
    text == "ABK/" + a + "/" + b + "/" + c && Writes(a, year, 4) && Writes(b, exam, 4) && Writes(c, participant, 6)
  }

  ghost predicate CertificateReads(text: string, year: nat, exam: nat, participant: nat) {
    exists a, b, c :: Reads(text, a, b, c, year, exam, participant)
  }

  lemma FormatReads(year: nat, exam: nat, participant: nat)
    ensures CertificateReads(Format(year, exam, participant), year, exam, participant)
  {
    hide Padded, Writes;
    var a, b, c := Padded(year, 4), Padded(exam, 4), Padded(participant, 6);
    PaddedIff(a, year, 4);
    PaddedIff(b, exam, 4);
    PaddedIff(c, participant, 6);
    PartsInOrder(a, b, c);
    assert Reads(Format(year, exam, participant), a, b, c, year, exam, participant);
  }

  /** Only the format reads that way. */
  lemma FormatIff(text: string, year: nat, exam: nat, participant: nat)
    ensures text == Format(year, exam, participant) <==> CertificateReads(text, year, exam, participant)
  {
    hide Padded, Writes;
    FormatReads(year, exam, participant);
    if CertificateReads(text, year, exam, participant) {
      var a, b, c :| Reads(text, a, b, c, year, exam, participant);
      PaddedIff(a, year, 4);
      PaddedIff(b, exam, 4);
      PaddedIff(c, participant, 6);
      PartsInOrder(a, b, c);
    }
  }

  lemma PartsInOrder(a: string, b: string, c: string)
    ensures "ABK/" + (a + ['/'] + (b + ['/'] + c)) == "ABK/" + a + "/" + b + "/" + c
  {
    assert a + ['/'] + (b + ['/'] + c) == a + "/" + b + "/" + c;
  }

  // ---------- Statements ----------

  /** The number is the registration's: its exam's year, or this year without a schedule, its exam's number and its own. */
  ghost predicate NumberReads(w: World, reg: RegistrationId, number: string, thisYear: nat) {
    && reg in w.regs && w.regs[reg].exam in w.exams
    && var exam := w.exams[w.regs[reg].exam];
       CertificateReads(number, match exam.scheduledYear case Some(year) => year case None => thisYear, exam.number, w.regs[reg].number)
  }

  lemma ComposedReads(w: World, reg: RegistrationId, number: string, thisYear: nat)
    requires reg in w.regs && w.regs[reg].exam in w.exams
    ensures number == Composed(w, reg, thisYear) <==> NumberReads(w, reg, number, thisYear)
  {
    var exam := w.exams[w.regs[reg].exam];
    FormatIff(number, if exam.scheduledYear.Some? then exam.scheduledYear.value else thisYear, exam.number, w.regs[reg].number);
  }

  /** Foreign keys, and the unique indexes on exam numbers and on participant numbers within an exam. */
  ghost predicate ValidWorld(w: World) {
    && (forall s :: s in w.sittings ==> w.sittings[s].reg in w.regs)
    && (forall r :: r in w.regs ==> w.regs[r].exam in w.exams)
    && (forall e, f :: e in w.exams && f in w.exams && e != f ==> w.exams[e].number != w.exams[f].number)
    && (forall r, q :: r in w.regs && q in w.regs && r != q ==> w.regs[r] != w.regs[q])
  }

  /** The number composed for a registration in a given current year. */
  function Composed(w: World, reg: RegistrationId, thisYear: nat): string
    requires reg in w.regs && w.regs[reg].exam in w.exams
  {
    var exam := w.exams[w.regs[reg].exam];
    Format(if exam.scheduledYear.Some? then exam.scheduledYear.value else thisYear, exam.number, w.regs[reg].number)
  }

  function Numbered(w: World, reg: RegistrationId): set<SessionId> {
    set s | s in w.sittings && w.sittings[s].reg == reg && w.sittings[s].certificate.Some?
  }

  ghost predicate NoneNumbered(w: World, reg: RegistrationId) {
    forall s :: s in w.sittings && w.sittings[s].reg == reg ==> w.sittings[s].certificate.None?
  }

  function Holders(w: World, number: string): set<SessionId> {
    set s | s in w.sittings && w.sittings[s].certificate == Some(number)
  }

  /** ORDER BY attempt_number DESC LIMIT 1 over the numbered sittings of a registration. */
  predicate IsNewestNumbered(w: World, reg: RegistrationId, s: SessionId) {
    s in Numbered(w, reg) && forall u :: u in Numbered(w, reg) ==> w.sittings[u].attempt <= w.sittings[s].attempt
  }

  /** The guarded UPDATE once it has found the row unnumbered and the number free. */
  function WithNumber(w: World, s: SessionId, number: string): World
    requires s in w.sittings
  {
    w.(sittings := w.sittings[s := w.sittings[s].(certificate := Some(number))])
  }

  // ---------- One call, undisturbed ----------

  lemma {:induction false} SomeIsNewest(w: World, among: set<SessionId>) returns (s: SessionId)
    requires among != {} && among <= w.sittings.Keys
    ensures s in among && forall u :: u in among ==> w.sittings[u].attempt <= w.sittings[s].attempt
    decreases |among|
  {
    var u := Member(among);
    if among == {u} {
      s := u;
    } else {
      s := SomeIsNewest(w, among - {u});
      if w.sittings[u].attempt > w.sittings[s].attempt {
        s := u;
      }
    }
  }

  class Certificates {
    var world: World

    method SiblingCertificateNumber(s: SessionId) returns (r: Option<string>)
      requires s in world.sittings
      ensures r.None? <==> Numbered(world, world.sittings[s].reg) == {}
      ensures r.Some? ==> exists u :: IsNewestNumbered(world, world.sittings[s].reg, u) && world.sittings[u].certificate == r
      ensures r.None? <==> NoneNumbered(world, world.sittings[s].reg)
      ensures r.Some? ==> exists u ::
                            && u in world.sittings && world.sittings[u].reg == world.sittings[s].reg && world.sittings[u].certificate == r
                            && forall v :: v in world.sittings && world.sittings[v].reg == world.sittings[s].reg ==>
                                             world.sittings[v].attempt <= world.sittings[u].attempt || world.sittings[v].certificate.None?
    {
      var reg := world.sittings[s].reg;
      if Numbered(world, reg) == {} {
        assert forall u :: u in world.sittings && world.sittings[u].reg == reg ==> u !in Numbered(world, reg);
        return None;
      }
      assert exists u :: IsNewestNumbered(world, reg, u) by {
        var u := SomeIsNewest(world, Numbered(world, reg));
        assert IsNewestNumbered(world, reg, u);
      }
      var u :| u in Numbered(world, reg) && IsNewestNumbered(world, reg, u);
      assert forall v :: v in world.sittings && world.sittings[v].reg == reg && world.sittings[v].certificate.Some? ==>
                           v in Numbered(world, reg);
      r := world.sittings[u].certificate;
    }

    method AllocateCertificateNumber(s: SessionId, thisYear: nat) returns (r: Result<string, CertificateError>)
      requires ValidWorld(world)
      modifies this
      ensures s !in old(world).sittings ==> r == Failure(NoSuchSession) && world == old(world)
      ensures s in old(world).sittings && Numbered(old(world), old(world).sittings[s].reg) != {} ==>
                world == old(world) && r.Success? && Holders(world, r.value) * Numbered(world, world.sittings[s].reg) != {}
      ensures s in old(world).sittings && Numbered(old(world), old(world).sittings[s].reg) == {} ==>
                var number := Composed(old(world), old(world).sittings[s].reg, thisYear);
                if Holders(old(world), number) == {} then r == Success(number) && world == WithNumber(old(world), s, number)
                else r == Failure(NumberTaken) && world == old(world)
      ensures s in old(world).sittings && old(world).sittings[s].certificate.Some? ==>
                r == Success(old(world).sittings[s].certificate.value)
      ensures r.Failure? <==> s !in old(world).sittings || (
                                && NoneNumbered(old(world), old(world).sittings[s].reg)
                                && exists u :: u in old(world).sittings && old(world).sittings[u].certificate.Some?
                                               && NumberReads(old(world), old(world).sittings[s].reg,
                                                              old(world).sittings[u].certificate.value, thisYear))
      ensures r.Success? && NoneNumbered(old(world), old(world).sittings[s].reg) ==>
                && NumberReads(old(world), old(world).sittings[s].reg, r.value, thisYear)
                && world.exams == old(world).exams && world.regs == old(world).regs
                && world.sittings == old(world).sittings[s := old(world).sittings[s].(certificate := Some(r.value))]
    {
      if s !in world.sittings {
        return Failure(NoSuchSession);
      }
      if world.sittings[s].certificate.Some? {
        assert s in Holders(world, world.sittings[s].certificate.value) * Numbered(world, world.sittings[s].reg);
        return Success(world.sittings[s].certificate.value);
      }
      var sibling := SiblingCertificateNumber(s);
      if sibling.Some? {
        ghost var u :| IsNewestNumbered(world, world.sittings[s].reg, u) && world.sittings[u].certificate == sibling;
        assert u in Holders(world, sibling.value) * Numbered(world, world.sittings[s].reg);
        return Success(sibling.value);
      }
      var number := Composed(world, world.sittings[s].reg, thisYear);
      forall text ensures text == number <==> NumberReads(world, world.sittings[s].reg, text, thisYear) {
        ComposedReads(world, world.sittings[s].reg, text, thisYear);
      }
      if Holders(world, number) == {} {
        assert forall u :: u in world.sittings && u !in Holders(world, number) ==> world.sittings[u].certificate != Some(number);
        world := WithNumber(world, s, number);
        return Success(number);
      }
      ghost var holder := Member(Holders(world, number));
      assert NumberReads(world, world.sittings[s].reg, world.sittings[holder].certificate.value, thisYear);
      r := Failure(NumberTaken);
    }
  }

  // ---------- Concurrent calls ----------

  type CallId = int

  /** The last statement of a call: nothing yet, unnumbered, no sibling either, unique violation, row already numbered, answered. */
  datatype Progress = Begun | Unnumbered | Alone | Collided | Overtaken | Done(result: Result<string, CertificateError>)

  datatype Call = Call(session: SessionId, progress: Progress)

  datatype State = State(w: World, calls: map<CallId, Call>)

  datatype Label =
    | Begin(call: CallId, session: SessionId)
    | ReadSession(call: CallId)
    | FindSibling(call: CallId, choice: SessionId)
    | WriteNumber(call: CallId, thisYear: nat)
    | FindWinner(call: CallId, choice: SessionId)
    | ReadAgain(call: CallId)
    | StartSitting(session: SessionId, reg: RegistrationId, attempt: nat)

  function Moved(p: State, c: CallId, progress: Progress): State
    requires c in p.calls
  {
    p.(calls := p.calls[c := p.calls[c].(progress := progress)])
  }

  predicate At(p: State, c: CallId, progress: Progress) {
    c in p.calls && p.calls[c].progress == progress && p.calls[c].session in p.w.sittings
  }

  function ReadStep(p: State, c: CallId): State
    requires c in p.calls
  {
    var s := p.calls[c].session;
    if s !in p.w.sittings then Moved(p, c, Done(Failure(NoSuchSession)))
    else if p.w.sittings[s].certificate.Some? then Moved(p, c, Done(Success(p.w.sittings[s].certificate.value)))
    else Moved(p, c, Unnumbered)
  }

  /** The sibling query: `choice` is the row it returns, `otherwise` what happens if there is none. */
  function SiblingStep(p: State, c: CallId, choice: SessionId, otherwise: Progress): Option<State>
    requires c in p.calls && p.calls[c].session in p.w.sittings
  {
    var reg := p.w.sittings[p.calls[c].session].reg;
    if Numbered(p.w, reg) == {} then Some(Moved(p, c, otherwise))
    else if !IsNewestNumbered(p.w, reg, choice) then None
    else Some(Moved(p, c, Done(Success(p.w.sittings[choice].certificate.value))))
  }

  function WriteStep(p: State, c: CallId, thisYear: nat): Option<State>
    requires c in p.calls && p.calls[c].session in p.w.sittings
  {
    var s := p.calls[c].session;
    var reg := p.w.sittings[s].reg;
    if reg !in p.w.regs || p.w.regs[reg].exam !in p.w.exams then None
    else
      var number := Composed(p.w, reg, thisYear);
      if p.w.sittings[s].certificate.Some? then Some(Moved(p, c, Overtaken))
      else if Holders(p.w, number) != {} then Some(Moved(p, c, Collided))
      else Some(Moved(p.(w := WithNumber(p.w, s, number)), c, Done(Success(number))))
  }

  function Step(p: State, l: Label): Option<State> {
    match l
    case Begin(c, s) => if c in p.calls then None else Some(p.(calls := p.calls[c := Call(s, Begun)]))
    case StartSitting(s, reg, attempt) =>
      if s in p.w.sittings || reg !in p.w.regs then None
      else Some(p.(w := p.w.(sittings := p.w.sittings[s := Sitting.Sitting(reg, attempt, None)])))
    case ReadSession(c) => if c in p.calls && p.calls[c].progress.Begun? then Some(ReadStep(p, c)) else None
    case FindSibling(c, choice) => if At(p, c, Unnumbered) then SiblingStep(p, c, choice, Alone) else None
    case WriteNumber(c, thisYear) => if At(p, c, Alone) then WriteStep(p, c, thisYear) else None
    case FindWinner(c, choice) => if At(p, c, Collided) then SiblingStep(p, c, choice, Done(Failure(NumberTaken))) else None
    case ReadAgain(c) =>
      if !At(p, c, Overtaken) then None
      else
        var number := p.w.sittings[p.calls[c].session].certificate;
        Some(Moved(p, c, Done(if number.Some? then Success(number.value) else Failure(NumberMissing))))
  }

  function Run(p: State, labels: seq<Label>): Option<State>
    decreases |labels|
  {
    if labels == [] then Some(p)
    else
      var q := Step(p, labels[0]);
      if q.None? then None else Run(q.value, labels[1..])
  }

  lemma RunFirst(p: State, l: Label, rest: seq<Label>)
    requires Step(p, l).Some?
    ensures Run(p, [l] + rest) == Run(Step(p, l).value, rest)
  {
    assert ([l] + rest)[1..] == rest;
  }

  // ---------- Invariant ----------

  /** `number` was composed for `reg`, in some year if its exam has no schedule. */
  ghost predicate IsNumberOf(w: World, reg: RegistrationId, number: string) {
    reg in w.regs && w.regs[reg].exam in w.exams && exists year: nat :: number == Composed(w, reg, year)
  }

  ghost predicate NumbersComposed(w: World) {
    forall s :: s in w.sittings && w.sittings[s].certificate.Some? ==> IsNumberOf(w, w.sittings[s].reg, w.sittings[s].certificate.value)
  }

  ghost predicate CallOk(w: World, c: Call) {
    match c.progress
    case Begun => true
    case Done(Failure(e)) => e == NoSuchSession
    case Done(Success(number)) => c.session in w.sittings && IsNumberOf(w, w.sittings[c.session].reg, number)
    case Collided => c.session in w.sittings && Numbered(w, w.sittings[c.session].reg) != {}
    case Overtaken => c.session in w.sittings && w.sittings[c.session].certificate.Some?
    case _ => c.session in w.sittings
  }

  ghost predicate CertificatesOk(p: State) {
    ValidWorld(p.w) && NumbersComposed(p.w) && forall c :: c in p.calls ==> CallOk(p.w, p.calls[c])
  }

  /** Numbers of different registrations never meet, whatever years they were composed in. */
  lemma NumbersTellRegistrationsApart(w: World, reg: RegistrationId, reg': RegistrationId, number: string)
    requires ValidWorld(w) && IsNumberOf(w, reg, number) && IsNumberOf(w, reg', number)
    ensures reg == reg'
  {
    var y: nat :| number == Composed(w, reg, y);
    var y': nat :| number == Composed(w, reg', y');
    var e, e' := w.exams[w.regs[reg].exam], w.exams[w.regs[reg'].exam];
    FormatIsInjective(if e.scheduledYear.Some? then e.scheduledYear.value else y, e.number, w.regs[reg].number,
                      if e'.scheduledYear.Some? then e'.scheduledYear.value else y', e'.number, w.regs[reg'].number);
  }

  /** With a schedule there is only one number to compose. */
  lemma ScheduledNumberIsUnique(w: World, reg: RegistrationId, a: string, b: string)
    requires IsNumberOf(w, reg, a) && IsNumberOf(w, reg, b) && w.exams[w.regs[reg].exam].scheduledYear.Some?
    ensures a == b
  {
    var y: nat :| a == Composed(w, reg, y);
    var y': nat :| b == Composed(w, reg, y');
  }

  /** `w'` has the numbers of `w` and possibly more, on the same registrations. */
  ghost predicate Grows(w: World, w': World) {
    && w'.exams == w.exams && w'.regs == w.regs
    && forall s :: s in w.sittings ==>
                     && s in w'.sittings && w'.sittings[s].reg == w.sittings[s].reg
                     && (w.sittings[s].certificate.Some? ==> w'.sittings[s].certificate == w.sittings[s].certificate)
  }

  lemma GrowthKeepsCalls(w: World, w': World, c: Call)
    requires Grows(w, w') && CallOk(w, c)
    ensures CallOk(w', c)
  {
    if c.progress.Collided? {
      var s := Member(Numbered(w, w.sittings[c.session].reg));
      assert s in Numbered(w', w'.sittings[c.session].reg);
    }
    if c.progress.Done? && c.progress.result.Success? {
      assert IsNumberOf(w, w.sittings[c.session].reg, c.progress.result.value);
      IsNumberOfGrows(w, w', w.sittings[c.session].reg, c.progress.result.value);
    }
  }

  lemma IsNumberOfGrows(w: World, w': World, reg: RegistrationId, number: string)
    requires Grows(w, w') && IsNumberOf(w, reg, number)
    ensures IsNumberOf(w', reg, number)
  {
    var y: nat :| number == Composed(w, reg, y);
    assert number == Composed(w', reg, y);
  }

  /** A call that moves on in an unchanged world keeps the invariant if its own new state is right. */
  lemma MoveKeepsOk(p: State, c: CallId, progress: Progress)
    requires CertificatesOk(p) && c in p.calls && CallOk(p.w, p.calls[c].(progress := progress))
    ensures CertificatesOk(Moved(p, c, progress))
  {
  }

  lemma SiblingStepKeepsOk(p: State, c: CallId, choice: SessionId, otherwise: Progress)
    requires CertificatesOk(p) && c in p.calls && p.calls[c].session in p.w.sittings
    requires SiblingStep(p, c, choice, otherwise).Some?
    requires Numbered(p.w, p.w.sittings[p.calls[c].session].reg) == {} ==> otherwise == Alone
    ensures CertificatesOk(SiblingStep(p, c, choice, otherwise).value)
  {
    var reg := p.w.sittings[p.calls[c].session].reg;
    if Numbered(p.w, reg) == {} {
      MoveKeepsOk(p, c, otherwise);
    } else {
      assert choice in Numbered(p.w, reg);
      MoveKeepsOk(p, c, Done(Success(p.w.sittings[choice].certificate.value)));
    }
  }

  /** A unique violation can only come from a sibling. */
  lemma CollisionIsWithSibling(w: World, s: SessionId, thisYear: nat)
    requires ValidWorld(w) && NumbersComposed(w) && s in w.sittings
    requires Holders(w, Composed(w, w.sittings[s].reg, thisYear)) != {}
    ensures Numbered(w, w.sittings[s].reg) != {}
  {
    var number := Composed(w, w.sittings[s].reg, thisYear);
    var u := Member(Holders(w, number));
    assert IsNumberOf(w, w.sittings[s].reg, number) && IsNumberOf(w, w.sittings[u].reg, number);
    NumbersTellRegistrationsApart(w, w.sittings[s].reg, w.sittings[u].reg, number);
    assert u in Numbered(w, w.sittings[s].reg);
  }

  lemma WriteKeepsWorld(w: World, s: SessionId, thisYear: nat)
    requires ValidWorld(w) && NumbersComposed(w) && s in w.sittings && w.sittings[s].certificate.None?
    ensures var w' := WithNumber(w, s, Composed(w, w.sittings[s].reg, thisYear));
            && Grows(w, w') && ValidWorld(w') && NumbersComposed(w')
            && IsNumberOf(w', w.sittings[s].reg, Composed(w, w.sittings[s].reg, thisYear))
  {
    var number := Composed(w, w.sittings[s].reg, thisYear);
    var w' := WithNumber(w, s, number);
    assert IsNumberOf(w, w.sittings[s].reg, number);
    forall u | u in w'.sittings && w'.sittings[u].certificate.Some?
      ensures IsNumberOf(w', w'.sittings[u].reg, w'.sittings[u].certificate.value)
    {
      IsNumberOfGrows(w, w', w.sittings[u].reg, w'.sittings[u].certificate.value);
    }
  }

  lemma WriteStepKeepsOk(p: State, c: CallId, thisYear: nat)
    requires CertificatesOk(p) && c in p.calls && p.calls[c].session in p.w.sittings && WriteStep(p, c, thisYear).Some?
    ensures CertificatesOk(WriteStep(p, c, thisYear).value)
  {
    var s := p.calls[c].session;
    var number := Composed(p.w, p.w.sittings[s].reg, thisYear);
    if p.w.sittings[s].certificate.Some? {
      MoveKeepsOk(p, c, Overtaken);
    } else if Holders(p.w, number) != {} {
      CollisionIsWithSibling(p.w, s, thisYear);
      MoveKeepsOk(p, c, Collided);
    } else {
      WriteKeepsWorld(p.w, s, thisYear);
      var grown := p.(w := WithNumber(p.w, s, number));
      forall d | d in p.calls ensures CallOk(grown.w, p.calls[d]) {
        GrowthKeepsCalls(p.w, grown.w, p.calls[d]);
      }
      MoveKeepsOk(grown, c, Done(Success(number)));
    }
  }

  lemma StartSittingKeepsOk(p: State, l: Label)
    requires CertificatesOk(p) && l.StartSitting? && Step(p, l).Some?
    ensures CertificatesOk(Step(p, l).value)
  {
    var q := Step(p, l).value;
    forall d | d in p.calls ensures CallOk(q.w, p.calls[d]) {
      GrowthKeepsCalls(p.w, q.w, p.calls[d]);
    }
    forall u | u in q.w.sittings && q.w.sittings[u].certificate.Some?
      ensures IsNumberOf(q.w, q.w.sittings[u].reg, q.w.sittings[u].certificate.value)
    {
      IsNumberOfGrows(p.w, q.w, p.w.sittings[u].reg, p.w.sittings[u].certificate.value);
    }
  }

  lemma StepKeepsOk(p: State, l: Label)
    requires CertificatesOk(p) && Step(p, l).Some?
    ensures CertificatesOk(Step(p, l).value)
    ensures Step(p, l).value.w.exams == p.w.exams && Step(p, l).value.w.regs == p.w.regs
  {
    match l
    case Begin(_, _) =>
    case StartSitting(_, _, _) => StartSittingKeepsOk(p, l);
    case ReadSession(_) =>
    case FindSibling(c, choice) => SiblingStepKeepsOk(p, c, choice, Alone);
    case WriteNumber(c, thisYear) => WriteStepKeepsOk(p, c, thisYear);
    case FindWinner(c, choice) =>
      assert CallOk(p.w, p.calls[c]);
      SiblingStepKeepsOk(p, c, choice, Done(Failure(NumberTaken)));
    case ReadAgain(c) => assert CallOk(p.w, p.calls[c]);
  }

  lemma {:induction false} RunsKeepOk(p: State, labels: seq<Label>)
    requires CertificatesOk(p) && Run(p, labels).Some?
    ensures CertificatesOk(Run(p, labels).value)
    ensures Run(p, labels).value.w.exams == p.w.exams && Run(p, labels).value.w.regs == p.w.regs
    decreases |labels|
  {
    if labels != [] {
      StepKeepsOk(p, labels[0]);
      RunsKeepOk(Step(p, labels[0]).value, labels[1..]);
    }
  }

  // ---------- Results of whole runs ----------

  ghost predicate Answered(p: State, c: CallId, reg: RegistrationId, number: string) {
    && c in p.calls && p.calls[c].progress == Done(Success(number))
    && p.calls[c].session in p.w.sittings && p.w.sittings[p.calls[c].session].reg == reg
  }

  /**
   In every interleaving no call fails, except for a session that does not exist, and two
   registrations never receive the same number.
   */
  lemma NoCallFails(p: State, labels: seq<Label>)
    requires CertificatesOk(p) && Run(p, labels).Some?
    ensures var q := Run(p, labels).value;
            && (forall c :: c in q.calls && q.calls[c].progress.Done? && q.calls[c].progress.result.Failure? ==>
                              q.calls[c].progress.result.error == NoSuchSession)
            && forall c, d, reg, reg', number ::
                 Answered(q, c, reg, number) && Answered(q, d, reg', number) ==> reg == reg'
  {
    RunsKeepOk(p, labels);
    var q := Run(p, labels).value;
    forall c | c in q.calls && q.calls[c].progress.Done? && q.calls[c].progress.result.Failure?
      ensures q.calls[c].progress.result.error == NoSuchSession
    {
      assert CallOk(q.w, q.calls[c]);
    }
    forall c, d, reg, reg', number | Answered(q, c, reg, number) && Answered(q, d, reg', number) ensures reg == reg' {
      assert CallOk(q.w, q.calls[c]) && CallOk(q.w, q.calls[d]);
      NumbersTellRegistrationsApart(q.w, reg, reg', number);
    }
  }

  /** A sitting that starts meanwhile is one more of its registration, without a number. */
  lemma NewSittingHasNoNumber(p: State, s: SessionId, reg: RegistrationId, attempt: nat)
    requires s !in p.w.sittings && reg in p.w.regs
    ensures Step(p, StartSitting(s, reg, attempt)) == Some(p.(w := p.w.(sittings := p.w.sittings[s := Sitting.Sitting(reg, attempt, None)])))
  {
  }

  // ---------- Every call gets there ----------

  function StepsLeft(progress: Progress): nat {
    match progress
    case Begun => 4
    case Unnumbered => 3
    case Alone => 2
    case Collided => 1
    case Overtaken => 1
    case Done(_) => 0
  }

  predicate IsStepOf(l: Label, c: CallId) {
    match l
    case Begin(_, _) => false
    case StartSitting(_, _, _) => false
    case ReadSession(d) => c == d
    case FindSibling(d, _) => c == d
    case WriteNumber(d, _) => c == d
    case FindWinner(d, _) => c == d
    case ReadAgain(d) => c == d
  }

  /** A call's own steps bring it nearer to its answer; nobody else's step touches it. */
  lemma OwnStepsDescend(p: State, l: Label, c: CallId)
    requires c in p.calls && Step(p, l).Some?
    ensures c in Step(p, l).value.calls
    ensures if IsStepOf(l, c) then StepsLeft(Step(p, l).value.calls[c].progress) < StepsLeft(p.calls[c].progress)
            else Step(p, l).value.calls[c] == p.calls[c]
  {
  }

  /** The sibling query has a row to return, unless there is none. */
  lemma SiblingQueryReturns(p: State, c: CallId, otherwise: Progress) returns (choice: SessionId)
    requires c in p.calls && p.calls[c].session in p.w.sittings
    ensures SiblingStep(p, c, choice, otherwise).Some?
  {
    var reg := p.w.sittings[p.calls[c].session].reg;
    choice := 0;
    if Numbered(p.w, reg) != {} {
      choice := SomeIsNewest(p.w, Numbered(p.w, reg));
    }
  }

  /** A call that is not done has a step it can take, whatever the others are doing. */
  lemma UnfinishedCallCanMove(p: State, c: CallId) returns (l: Label)
    requires CertificatesOk(p) && c in p.calls && !p.calls[c].progress.Done?
    ensures IsStepOf(l, c) && Step(p, l).Some?
  {
    assert CallOk(p.w, p.calls[c]);
    match p.calls[c].progress
    case Begun => l := ReadSession(c);
    case Unnumbered =>
      var choice := SiblingQueryReturns(p, c, Alone);
      l := FindSibling(c, choice);
    case Alone => l := WriteNumber(c, 2025);
    case Collided =>
      var choice := SiblingQueryReturns(p, c, Done(Failure(NumberTaken)));
      l := FindWinner(c, choice);
    case Overtaken => l := ReadAgain(c);
  }

  function OwnSteps(labels: seq<Label>, c: CallId): nat {
    if labels == [] then 0 else (if IsStepOf(labels[0], c) then 1 else 0) + OwnSteps(labels[1..], c)
  }

  /** In no run does a call take more than four steps. */
  lemma {:induction false} CallsAreShort(p: State, labels: seq<Label>, c: CallId)
    requires c in p.calls && Run(p, labels).Some?
    ensures c in Run(p, labels).value.calls
    ensures OwnSteps(labels, c) + StepsLeft(Run(p, labels).value.calls[c].progress) <= StepsLeft(p.calls[c].progress) <= 4
    decreases |labels|
  {
    if labels != [] {
      OwnStepsDescend(p, labels[0], c);
      CallsAreShort(Step(p, labels[0]).value, labels[1..], c);
    }
  }

  /** Left to itself, a call is done after at most four steps, all its own; every call for an existing session has its number. */
  lemma {:induction false} EveryCallIsAnswered(p: State, c: CallId) returns (labels: seq<Label>)
    requires CertificatesOk(p) && c in p.calls
    ensures Run(p, labels).Some? && |labels| <= StepsLeft(p.calls[c].progress) <= 4
    ensures forall l :: l in labels ==> IsStepOf(l, c)
    ensures var q := Run(p, labels).value;
            && c in q.calls && q.calls[c].session == p.calls[c].session && q.calls[c].progress.Done?
            && (p.calls[c].session in p.w.sittings && !p.calls[c].progress.Done? ==> q.calls[c].progress.result.Success?)
    decreases StepsLeft(p.calls[c].progress)
  {
    labels := [];
    if !p.calls[c].progress.Done? {
      var l := UnfinishedCallCanMove(p, c);
      var next := Step(p, l).value;
      OwnStepsDescend(p, l, c);
      StepKeepsOk(p, l);
      var rest := EveryCallIsAnswered(next, c);
      assert CallOk(next.w, next.calls[c]);
      labels := [l] + rest;
      RunFirst(p, l, rest);
    }
  }

  // ---------- What the number says ----------

  /** A call that writes a number writes its registration's, on its own session and nowhere else. */
  lemma WrittenNumberReads(p: State, c: CallId, thisYear: nat)
    requires Step(p, WriteNumber(c, thisYear)).Some?
    ensures var q := Step(p, WriteNumber(c, thisYear)).value;
            c in p.calls && c in q.calls && q.calls[c].session == p.calls[c].session
            && (q.calls[c].progress.Done? ==>
                  && q.calls[c].progress.result.Success?
                  && var s, number := p.calls[c].session, q.calls[c].progress.result.value;
                     && s in p.w.sittings && p.w.sittings[s].certificate.None?
                     && (forall u :: u in p.w.sittings ==> p.w.sittings[u].certificate != Some(number))
                     && NumberReads(p.w, p.w.sittings[s].reg, number, thisYear)
                     && q.w == p.w.(sittings := p.w.sittings[s := p.w.sittings[s].(certificate := Some(number))]))
  {
    var s := p.calls[c].session;
    var reg := p.w.sittings[s].reg;
    var number := Composed(p.w, reg, thisYear);
    ComposedReads(p.w, reg, number, thisYear);
    assert forall u :: u in p.w.sittings && u !in Holders(p.w, number) ==> p.w.sittings[u].certificate != Some(number);
  }

  /** In every run the number a call returns reads as its registration's, whoever wrote it. */
  lemma AnswersRead(p: State, labels: seq<Label>, c: CallId, reg: RegistrationId, number: string) returns (thisYear: nat)
    requires CertificatesOk(p) && Run(p, labels).Some? && Answered(Run(p, labels).value, c, reg, number)
    ensures NumberReads(p.w, reg, number, thisYear)
  {
    var q := Run(p, labels).value;
    RunsKeepOk(p, labels);
    assert CallOk(q.w, q.calls[c]);
    var year: nat :| number == Composed(q.w, reg, year);
    ComposedReads(q.w, reg, number, year);
    thisYear := year;
  }

  ghost predicate OneNumber(p: State, reg: RegistrationId) {
    forall c, d, a, b :: Answered(p, c, reg, a) && Answered(p, d, reg, b) ==> a == b
  }

  /** With a schedule, all calls for a registration's sessions get one and the same number. */
  lemma ScheduledRegistrationHasOneNumber(p: State, labels: seq<Label>, reg: RegistrationId)
    requires CertificatesOk(p) && Run(p, labels).Some?
    requires reg in p.w.regs && p.w.exams[p.w.regs[reg].exam].scheduledYear.Some?
    ensures OneNumber(Run(p, labels).value, reg)
  {
    RunsKeepOk(p, labels);
    var q := Run(p, labels).value;
    forall c, d, a, b | Answered(q, c, reg, a) && Answered(q, d, reg, b) ensures a == b {
      assert CallOk(q.w, q.calls[c]) && CallOk(q.w, q.calls[d]);
      ScheduledNumberIsUnique(q.w, reg, a, b);
    }
  }

  // ---------- Without a schedule ----------

  /** Two sittings of a registration that has no number yet, no call running; other registrations may have theirs. */
  ghost predicate TwoSittings(p: State, reg: RegistrationId, s: SessionId, t: SessionId) {
    && CertificatesOk(p) && p.calls == map[] && s != t && s in p.w.sittings && t in p.w.sittings
    && p.w.sittings[s].reg == reg && p.w.sittings[t].reg == reg
    && Numbered(p.w, reg) == {}
  }

  /** A call that gets as far as composing: neither its session nor a sibling has a number. */
  lemma CallFindsNothing(p: State, c: CallId, s: SessionId, rest: seq<Label>) returns (q: State)
    requires c !in p.calls && s in p.w.sittings && Numbered(p.w, p.w.sittings[s].reg) == {}
    ensures q == p.(calls := p.calls[c := Call(s, Alone)])
    ensures Run(p, [Begin(c, s)] + ([ReadSession(c)] + ([FindSibling(c, s)] + rest))) == Run(q, rest)
  {
    var p1 := p.(calls := p.calls[c := Call(s, Begun)]);
    var p2 := p.(calls := p.calls[c := Call(s, Unnumbered)]);
    q := p.(calls := p.calls[c := Call(s, Alone)]);
    assert s !in Numbered(p.w, p.w.sittings[s].reg);
    assert Moved(p1, c, Unnumbered) == p2 && Moved(p2, c, Alone) == q;
    RunFirst(p2, FindSibling(c, s), rest);
    RunFirst(p1, ReadSession(c), [FindSibling(c, s)] + rest);
    RunFirst(p, Begin(c, s), [ReadSession(c)] + ([FindSibling(c, s)] + rest));
  }

  lemma BothWrite(q: State, s: SessionId, t: SessionId, y: nat, z: nat) returns (end: State)
    requires ValidWorld(q.w) && s in q.w.sittings && t in q.w.sittings && s != t
    requires q.w.sittings[s].certificate.None? && q.w.sittings[t].certificate.None?
    requires 0 in q.calls && 1 in q.calls && q.calls[0] == Call(s, Alone) && q.calls[1] == Call(t, Alone)
    requires var a, b := Composed(q.w, q.w.sittings[s].reg, y), Composed(q.w, q.w.sittings[t].reg, z);
             a != b && Holders(q.w, a) == {} && Holders(q.w, b) == {}
    ensures Run(q, [WriteNumber(0, y)] + ([WriteNumber(1, z)] + [])) == Some(end)
    ensures Answered(end, 0, q.w.sittings[s].reg, Composed(q.w, q.w.sittings[s].reg, y))
    ensures Answered(end, 1, q.w.sittings[t].reg, Composed(q.w, q.w.sittings[t].reg, z))
  {
    var a, b := Composed(q.w, q.w.sittings[s].reg, y), Composed(q.w, q.w.sittings[t].reg, z);
    var q1 := WriteStep(q, 0, y).value;
    assert forall u :: u in q1.w.sittings && q1.w.sittings[u].certificate == Some(b) ==> u in Holders(q.w, b);
    assert Holders(q1.w, b) == {};
    end := WriteStep(q1, 1, z).value;
    RunFirst(q1, WriteNumber(1, z), []);
    RunFirst(q, WriteNumber(0, y), [WriteNumber(1, z)] + []);
  }

  lemma UnscheduledNumbersDiffer(w: World, reg: RegistrationId, y: nat, z: nat)
    requires reg in w.regs && w.regs[reg].exam in w.exams && w.exams[w.regs[reg].exam].scheduledYear.None? && y != z
    ensures Composed(w, reg, y) != Composed(w, reg, z)
  {
    var e := w.exams[w.regs[reg].exam];
    if Composed(w, reg, y) == Composed(w, reg, z) {
      FormatIsInjective(y, e.number, w.regs[reg].number, z, e.number, w.regs[reg].number);
    }
  }

  /** No other registration holds a number this one could compose. */
  lemma NothingToCollideWith(p: State, reg: RegistrationId, s: SessionId, t: SessionId, year: nat)
    requires TwoSittings(p, reg, s, t)
    ensures Holders(p.w, Composed(p.w, reg, year)) == {}
    ensures p.w.sittings[s].certificate.None? && p.w.sittings[t].certificate.None?
  {
    if Holders(p.w, Composed(p.w, reg, year)) != {} {
      CollisionIsWithSibling(p.w, s, year);
    }
    assert s !in Numbered(p.w, reg) && t !in Numbered(p.w, reg);
  }

  /** Without a schedule, two calls that compose in different years answer differently. */
  lemma NewYearRaceSplits(p: State, reg: RegistrationId, s: SessionId, t: SessionId) returns (labels: seq<Label>)
    requires TwoSittings(p, reg, s, t) && p.w.exams[p.w.regs[reg].exam].scheduledYear.None?
    ensures Run(p, labels).Some? && !OneNumber(Run(p, labels).value, reg)
  {
    var writes := [WriteNumber(0, 2025)] + ([WriteNumber(1, 2026)] + []);
    var second := [Begin(1, t)] + ([ReadSession(1)] + ([FindSibling(1, t)] + writes));
    NothingToCollideWith(p, reg, s, t, 2025);
    NothingToCollideWith(p, reg, s, t, 2026);
    var p1 := CallFindsNothing(p, 0, s, second);
    var p2 := CallFindsNothing(p1, 1, t, writes);
    UnscheduledNumbersDiffer(p.w, reg, 2025, 2026);
    var end := BothWrite(p2, s, t, 2025, 2026);
    labels := [Begin(0, s)] + ([ReadSession(0)] + ([FindSibling(0, s)] + second));
    assert Answered(end, 0, reg, Composed(p.w, reg, 2025)) && Answered(end, 1, reg, Composed(p.w, reg, 2026));
  }

  /** So, for a registration with two sittings: one number in every interleaving exactly if its exam has a schedule. */
  lemma OneNumberIffScheduled(p: State, reg: RegistrationId, s: SessionId, t: SessionId)
    requires TwoSittings(p, reg, s, t)
    ensures (forall labels :: Run(p, labels).Some? ==> OneNumber(Run(p, labels).value, reg))
       <==> p.w.exams[p.w.regs[reg].exam].scheduledYear.Some?
  {
    if p.w.exams[p.w.regs[reg].exam].scheduledYear.Some? {
      forall labels | Run(p, labels).Some? ensures OneNumber(Run(p, labels).value, reg) {
        ScheduledRegistrationHasOneNumber(p, labels, reg);
      }
    } else {
      var labels := NewYearRaceSplits(p, reg, s, t);
    }
  }
}
