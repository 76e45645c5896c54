/** The NDJSON records (src/output.c). */
module Ndjson {
  import opened Bits
  import opened Events
  import opened TraceModel
  import opened Json
  import Statistics
  import Validator

  /** What the catalogue, libc and the decoder contribute to a record: the syscall's name, how many
      arguments it shows, the names of the error and of the signal, and the decoded text. */
  datatype Labels = Labels(name: string, argumentCount: nat, errorName: Option<string>, signalName: Option<string>,
                           text: string)

  /** The time of the record in nanoseconds, as a 64-bit word. */
  function Timestamp(at: Timespec): nat {
    if at.sec < 0 then 0 else (at.sec * 1_000_000_000 + at.nsec) % TWO_64
  }

  /** elapsed_nanoseconds of the writer: no guard, the sum wraps. */
  function Duration(entered: Timespec, exited: Timespec): nat {
    var seconds := exited.sec - entered.sec;
    var nanoseconds := exited.nsec - entered.nsec;
    if seconds < 0 || (seconds == 0 && nanoseconds < 0) then 0
    else (seconds * 1_000_000_000 + nanoseconds) % TWO_64
  }

  function Heading(kind: string): seq<Member> {
    [Member("schema", Str("sysgaze.trace/v1")), Member("type", Str(kind))]
  }

  function Header(kind: string, e: Event): seq<Member> {
    Heading(kind) +
    [Member("tid", Number(e.tid)), Member("tgid", Number(e.tgid)),
     Member("timestamp_ns", Str(Decimal(Timestamp(e.at))))]
  }

  function Word64(n: int): string { "0x" + Hex(n % TWO_64) }

  function Arguments(args: seq<int>, count: nat): seq<Value>
    requires count <= |args|
  {
    if count == 0 then [] else Arguments(args, count - 1) + [Str(Word64(args[count - 1]))]
  }

  function ErrorValue(number: int, name: Option<string>): Value {
    if number == 0 then Word("null")
    else Members([Member("number", Number(number)),
                  Member("name", match name case Some(s) => Str(s) case None => Word("null"))])
  }

  function SyscallMembers(s: SyscallEvent, l: Labels): seq<Member>
    requires l.argumentCount <= |s.args|
  {
    [Member("number", Str(Decimal(s.number))), Member("name", Str(l.name)),
     Member("arguments", Items(Arguments(s.args, l.argumentCount))), Member("result", Str(Decimal(s.result))),
     Member("error", ErrorValue(s.errorNumber, l.errorName)),
     Member("duration_ns", Str(Decimal(Duration(s.enteredAt, s.exitedAt)))), Member("text", Str(l.text))]
  }

  function SignalName(name: Option<string>): Value {
    match name case Some(s) => Str("SIG" + s) case None => Word("null")
  }

  /** PTRACE_EVENT_FORK, PTRACE_EVENT_VFORK and PTRACE_EVENT_CLONE. */
  function EventCode(kind: ChildKind): nat {
    match kind case Fork => 1 case Vfork => 2 case Clone => 3
  }

  function BodyMembers(body: Body, l: Labels): seq<Member>
    requires body.SyscallBody? ==> l.argumentCount <= |body.syscall.args|
  {
    match body
    case SyscallBody(s) => SyscallMembers(s, l)
    case SignalBody(signal, code, address) =>
      [Member("number", Number(signal)),
       Member("name", SignalName(l.signalName)),
       Member("code", Number(code)),
       Member("fault_address", if address == 0 then Word("null") else Str(Word64(address)))]
    case StartBody(child, kind) =>
      [Member("child_tid", Number(child)), Member("ptrace_event", Number(EventCode(kind)))]
    case ExitBody(status, signaled) =>
      [Member("status", Number(status)), Member("signaled", Word(if signaled then "true" else "false"))]
  }

  function Kind(body: Body): string {
    match body
    case SyscallBody(_) => "syscall"
    case SignalBody(_, _, _) => "signal"
    case StartBody(_, _) => "process-start"
    case ExitBody(_, _) => "process-exit"
  }

  /** The record of an event. */
  function EventValue(e: Event, l: Labels): Value
    requires e.body.SyscallBody? ==> l.argumentCount <= |e.body.syscall.args|
  {
    Members(Header(Kind(e.body), e) + BodyMembers(e.body, l))
  }

  // ----- what the numbers of a record mean

  /** The duration shown is the true one, as long as that fits in 64 bits; then it is also the one that
      the statistics count. */
  lemma DurationIsSpan(entered: Timespec, exited: Timespec)
    requires Normalised(entered) && Normalised(exited) && Statistics.Span(entered, exited) <= UINT64_MAX
    ensures Duration(entered, exited) == Statistics.Span(entered, exited)
    ensures Statistics.Elapsed(entered, exited) == Some(Duration(entered, exited))
  {
    Statistics.ElapsedExact(entered, exited);
  }

  /** A stamp that fits in 64 bits. */
  ghost predicate Fitting(at: Timespec) {
    at.sec >= 0 && Normalised(at) && at.sec * 1_000_000_000 + at.nsec <= UINT64_MAX
  }

  /** The time shown counts nanoseconds, so it orders records as their stamps do; a duration is the
      difference of two of them. */
  lemma TimestampCounts(a: Timespec, b: Timespec)
    requires Fitting(a) && Fitting(b)
    ensures Timestamp(a) == a.sec * 1_000_000_000 + a.nsec
    ensures Timestamp(a) < Timestamp(b) <==> a.sec < b.sec || (a.sec == b.sec && a.nsec < b.nsec)
    ensures Timestamp(a) <= Timestamp(b) ==> Duration(a, b) == Timestamp(b) - Timestamp(a)
  {
  }

  /** The value of a member. */
  function Field(members: seq<Member>, key: string): Option<Value> {
    if members == [] then None
    else if members[0].key == key then Some(members[0].value) else Field(members[1..], key)
  }

  /** A reader that looks members up by their key finds what the event holds. */
  ghost predicate HeaderFields(m: seq<Member>, e: Event) {
    && Field(m, "schema") == Some(Str("sysgaze.trace/v1"))
    && Field(m, "tid") == Some(Number(e.tid)) && Field(m, "tgid") == Some(Number(e.tgid))
    && (Fitting(e.at) ==> Field(m, "timestamp_ns") == Some(Str(Decimal(e.at.sec * 1_000_000_000 + e.at.nsec))))
  }

  /** A name that libc may not know. */
  function Named(name: Option<string>): Value {
    if name.Some? then Str(name.value) else Word("null")
  }

  ghost predicate CallFields(m: seq<Member>, s: SyscallEvent, l: Labels) {
    && Field(m, "type") == Some(Str("syscall"))
    && Field(m, "number") == Some(Str(Decimal(s.number))) && Field(m, "name") == Some(Str(l.name))
    && Field(m, "result") == Some(Str(Decimal(s.result))) && Field(m, "text") == Some(Str(l.text))
    && (s.errorNumber == 0 ==> Field(m, "error") == Some(Word("null")))
    && (s.errorNumber != 0 ==>
          && Field(m, "error").Some? && Field(m, "error").value.Members?
          && Field(Field(m, "error").value.members, "number") == Some(Number(s.errorNumber))
          && Field(Field(m, "error").value.members, "name") == Some(Named(l.errorName)))
    && (Normalised(s.enteredAt) && Normalised(s.exitedAt) && Statistics.Span(s.enteredAt, s.exitedAt) <= UINT64_MAX ==>
          Field(m, "duration_ns") == Some(Str(Decimal(Statistics.Span(s.enteredAt, s.exitedAt)))))
  }

  ghost predicate ArgumentField(m: seq<Member>, s: SyscallEvent, l: Labels)
    requires l.argumentCount <= |s.args|
  {
    && Field(m, "arguments").Some? && Field(m, "arguments").value.Items?
    && var shown := Field(m, "arguments").value.items;
    && |shown| == l.argumentCount
    && forall i :: 0 <= i < |shown| ==> shown[i] == Str("0x" + Hex(s.args[i] % TWO_64))
  }

  ghost predicate OtherFields(m: seq<Member>, b: Body, l: Labels) {
    match b
    case SyscallBody(_) => true
    case SignalBody(signal, code, address) =>
      && Field(m, "type") == Some(Str("signal")) && Field(m, "number") == Some(Number(signal))
      && Field(m, "code") == Some(Number(code)) && (l.signalName.None? ==> Field(m, "name") == Some(Word("null")))
      && (l.signalName.Some? ==> Field(m, "name") == Some(Str("SIG" + l.signalName.value)))
      && Field(m, "fault_address") == Some(if address == 0 then Word("null") else Str("0x" + Hex(address % TWO_64)))
    case StartBody(child, kind) =>
      && Field(m, "type") == Some(Str("process-start")) && Field(m, "child_tid") == Some(Number(child))
      && Field(m, "ptrace_event") == Some(Number(if kind.Fork? then 1 else if kind.Vfork? then 2 else 3))
    case ExitBody(status, signaled) =>
      && Field(m, "type") == Some(Str("process-exit")) && Field(m, "status") == Some(Number(status))
      && Field(m, "signaled") == Some(Word(if signaled then "true" else "false"))
  }

  /** The member at a position, if none before it has its key. */
  lemma {:induction false} FieldAt(members: seq<Member>, i: nat)
    requires i < |members| && forall j :: 0 <= j < i ==> members[j].key != members[i].key
    ensures Field(members, members[i].key) == Some(members[i].value)
  {
    if i > 0 { FieldAt(members[1..], i - 1); }
  }

  /** No key occurs twice. */
  ghost predicate Distinct(m: seq<Member>) { forall i, j :: 0 <= i < j < |m| ==> m[i].key != m[j].key }

  lemma FieldIs(m: seq<Member>, i: nat, shown: Member)
    requires Distinct(m) && i < |m| && m[i] == shown
    ensures Field(m, shown.key) == Some(shown.value)
  {
    FieldAt(m, i);
  }

  /** The members of a record, all with different keys. */
  function RecordMembers(e: Event, l: Labels): seq<Member>
    requires e.body.SyscallBody? ==> l.argumentCount <= |e.body.syscall.args|
  {
    Header(Kind(e.body), e) + BodyMembers(e.body, l)
  }

  lemma {:induction false} ArgumentsAt(args: seq<int>, count: nat)
    requires count <= |args|
    ensures |Arguments(args, count)| == count
    ensures forall i :: 0 <= i < count ==> Arguments(args, count)[i] == Str("0x" + Hex(args[i] % TWO_64))
  {
    if count > 0 { ArgumentsAt(args, count - 1); }
  }

  lemma CallKeys(e: Event, l: Labels, m: seq<Member>)
    requires e.body.SyscallBody? && l.argumentCount <= |e.body.syscall.args| && m == RecordMembers(e, l)
    ensures Distinct(m)
  {
  }

  lemma SignalKeys(e: Event, l: Labels, m: seq<Member>)
    requires e.body.SignalBody? && m == RecordMembers(e, l)
    ensures Distinct(m)
  {
  }

  lemma StartKeys(e: Event, l: Labels, m: seq<Member>)
    requires e.body.StartBody? && m == RecordMembers(e, l)
    ensures Distinct(m)
  {
    assert m[5].key == "child_tid" && m[6].key == "ptrace_event";
  }

  lemma ExitKeys(e: Event, l: Labels, m: seq<Member>)
    requires e.body.ExitBody? && m == RecordMembers(e, l)
    ensures Distinct(m)
  {
    assert m[5].key == "status" && m[6].key == "signaled";
  }

  lemma HeaderPlace(m: seq<Member>, header: seq<Member>, i: nat, shown: Member)
    requires Distinct(m) && header <= m && i < |header| && header[i] == shown
    ensures Field(m, shown.key) == Some(shown.value)
  {
    FieldIs(m, i, shown);
  }

  lemma HeaderParts(kind: string, e: Event)
    ensures var h := Header(kind, e);
            && |h| == 5 && h[0] == Member("schema", Str("sysgaze.trace/v1")) && h[1] == Member("type", Str(kind))
            && h[2] == Member("tid", Number(e.tid)) && h[3] == Member("tgid", Number(e.tgid))
            && h[4] == Member("timestamp_ns", Str(Decimal(Timestamp(e.at))))
  {
  }

  lemma StampShown(at: Timespec)
    requires Fitting(at)
    ensures Decimal(Timestamp(at)) == Decimal(at.sec * 1_000_000_000 + at.nsec)
  {
    TimestampCounts(at, at);
  }

  lemma HeaderShown(m: seq<Member>, header: seq<Member>, kind: string, e: Event)
    requires Distinct(m) && header == Header(kind, e) && header <= m
    ensures HeaderFields(m, e) && Field(m, "type") == Some(Str(kind))
  {
    HeaderParts(kind, e);
    var stamp := Str(Decimal(Timestamp(e.at)));
    HeaderPlace(m, header, 0, Member("schema", Str("sysgaze.trace/v1")));
    HeaderPlace(m, header, 1, Member("type", Str(kind)));
    HeaderPlace(m, header, 2, Member("tid", Number(e.tid)));
    HeaderPlace(m, header, 3, Member("tgid", Number(e.tgid)));
    HeaderPlace(m, header, 4, Member("timestamp_ns", stamp));
    if Fitting(e.at) { StampShown(e.at); }
  }

  /** The members of a call in their places. */
  lemma CallPlaces(e: Event, l: Labels, m: seq<Member>, i: nat)
    requires e.body.SyscallBody? && l.argumentCount <= |e.body.syscall.args| && m == RecordMembers(e, l) && i < 7
    ensures |m| == 12 && m[i + 5] == SyscallMembers(e.body.syscall, l)[i]
  {
  }

  lemma PlaceShown(e: Event, l: Labels, m: seq<Member>, i: nat, shown: Member)
    requires e.body.SyscallBody? && l.argumentCount <= |e.body.syscall.args| && m == RecordMembers(e, l) && Distinct(m)
    requires i < 7 && SyscallMembers(e.body.syscall, l)[i] == shown
    ensures Field(m, shown.key) == Some(shown.value)
  {
    CallPlaces(e, l, m, i);
    FieldIs(m, i + 5, shown);
  }

  lemma CallShown(e: Event, l: Labels, m: seq<Member>)
    requires e.body.SyscallBody? && l.argumentCount <= |e.body.syscall.args| && m == RecordMembers(e, l) && Distinct(m)
    ensures var s := e.body.syscall;
            && Field(m, "number") == Some(Str(Decimal(s.number))) && Field(m, "name") == Some(Str(l.name))
            && Field(m, "arguments") == Some(Items(Arguments(s.args, l.argumentCount)))
            && Field(m, "result") == Some(Str(Decimal(s.result)))
            && Field(m, "error") == Some(ErrorValue(s.errorNumber, l.errorName))
            && Field(m, "duration_ns") == Some(Str(Decimal(Duration(s.enteredAt, s.exitedAt))))
            && Field(m, "text") == Some(Str(l.text))
  {
    var s := e.body.syscall;
    PlaceShown(e, l, m, 0, Member("number", Str(Decimal(s.number))));
    PlaceShown(e, l, m, 1, Member("name", Str(l.name)));
    PlaceShown(e, l, m, 2, Member("arguments", Items(Arguments(s.args, l.argumentCount))));
    PlaceShown(e, l, m, 3, Member("result", Str(Decimal(s.result))));
    PlaceShown(e, l, m, 4, Member("error", ErrorValue(s.errorNumber, l.errorName)));
    PlaceShown(e, l, m, 5, Member("duration_ns", Str(Decimal(Duration(s.enteredAt, s.exitedAt)))));
    PlaceShown(e, l, m, 6, Member("text", Str(l.text)));
  }

  lemma ErrorShown(number: int, name: Option<string>)
    requires number != 0
    ensures var v := ErrorValue(number, name);
            && v.Members? && Field(v.members, "number") == Some(Number(number))
            && Field(v.members, "name") == Some(Named(name))
  {
  }

  lemma OtherPlaces(e: Event, l: Labels, m: seq<Member>, i: nat, shown: Member)
    requires !e.body.SyscallBody? && m == RecordMembers(e, l) && Distinct(m)
    requires i < |BodyMembers(e.body, l)| && BodyMembers(e.body, l)[i] == shown
    ensures Field(m, shown.key) == Some(shown.value)
  {
    assert m[i + 5] == shown;
    FieldIs(m, i + 5, shown);
  }

  lemma OtherShown(e: Event, l: Labels, m: seq<Member>)
    requires !e.body.SyscallBody? && m == RecordMembers(e, l) && Distinct(m)
    requires Field(m, "type") == Some(Str(Kind(e.body)))
    ensures OtherFields(m, e.body, l)
  {
    match e.body
    case SignalBody(signal, code, address) =>
      OtherPlaces(e, l, m, 0, Member("number", Number(signal)));
      OtherPlaces(e, l, m, 1, Member("name", SignalName(l.signalName)));
      OtherPlaces(e, l, m, 2, Member("code", Number(code)));
      OtherPlaces(e, l, m, 3, Member("fault_address", if address == 0 then Word("null") else Str(Word64(address))));
    case StartBody(child, kind) =>
      OtherPlaces(e, l, m, 0, Member("child_tid", Number(child)));
      OtherPlaces(e, l, m, 1, Member("ptrace_event", Number(EventCode(kind))));
    case ExitBody(status, signaled) =>
      OtherPlaces(e, l, m, 0, Member("status", Number(status)));
      OtherPlaces(e, l, m, 1, Member("signaled", Word(if signaled then "true" else "false")));
  }

  lemma CallRead(e: Event, l: Labels, m: seq<Member>)
    requires e.body.SyscallBody? && l.argumentCount <= |e.body.syscall.args| && m == RecordMembers(e, l) && Distinct(m)
    requires Field(m, "type") == Some(Str("syscall"))
    ensures CallFields(m, e.body.syscall, l) && ArgumentField(m, e.body.syscall, l)
  {
    var s := e.body.syscall;
    CallShown(e, l, m);
    ArgumentsAt(s.args, l.argumentCount);
    if s.errorNumber != 0 { ErrorShown(s.errorNumber, l.errorName); }
  }

  /** A reader of a record that looks members up by their key finds, for every event, what happened:
      who and when, and for a call its number, shown arguments, result, errno and true duration. */
  lemma RecordFields(e: Event, l: Labels)
    requires e.body.SyscallBody? ==> l.argumentCount <= |e.body.syscall.args|
    ensures var v := EventValue(e, l);
            && v.Members? && HeaderFields(v.members, e) && OtherFields(v.members, e.body, l)
            && (e.body.SyscallBody? ==>
                  CallFields(v.members, e.body.syscall, l) && ArgumentField(v.members, e.body.syscall, l))
  {
    var m := RecordMembers(e, l);
    if e.body.SyscallBody? {
      CallKeys(e, l, m);
      HeaderShown(m, Header(Kind(e.body), e), Kind(e.body), e);
      CallRead(e, l, m);
    } else {
      match e.body {
        case SignalBody(_, _, _) => SignalKeys(e, l, m);
        case StartBody(_, _) => StartKeys(e, l, m);
        case ExitBody(_, _) => ExitKeys(e, l, m);
      }
      HeaderShown(m, Header(Kind(e.body), e), Kind(e.body), e);
      OtherShown(e, l, m);
    }
  }

  // ----- every record is one valid line

  lemma {:induction false} DigitsPlain(n: nat)
    ensures PlainText(Digits(n))
  {
    if n >= 10 { DigitsPlain(n / 10); }
  }

  lemma DecimalPlain(n: int)
    ensures PlainText(Decimal(n))
  {
    DigitsPlain(if n < 0 then -n else n);
  }

  lemma {:induction false} HexPlain(n: nat)
    ensures PlainText(Hex(n))
  {
    if n >= 16 { HexPlain(n / 16); }
  }

  lemma {:induction false} ArgumentsFit(args: seq<int>, count: nat)
    requires count <= |args|
    ensures forall i :: 0 <= i < |Arguments(args, count)| ==> Fits(Arguments(args, count)[i], 62)
  {
    if count > 0 {
      ArgumentsFit(args, count - 1);
      HexPlain(args[count - 1] % TWO_64);
    }
  }

  ghost predicate GoodMember(m: Member) { PlainText(m.key) && Fits(m.value, 63) }

  lemma HeaderFits(kind: string, e: Event, i: nat)
    requires i < 5
    ensures GoodMember(Header(kind, e)[i])
  {
    DecimalPlain(Timestamp(e.at));
  }

  lemma TextFits(key: string, text: string)
    requires PlainText(key)
    ensures GoodMember(Member(key, Str(text)))
  {
  }

  lemma ArgumentsMember(args: seq<int>, count: nat)
    requires count <= |args|
    ensures GoodMember(Member("arguments", Items(Arguments(args, count))))
  {
    ArgumentsFit(args, count);
  }

  lemma ErrorFits(number: int, name: Option<string>)
    ensures GoodMember(Member("error", ErrorValue(number, name)))
  {
  }

  lemma SyscallFits(s: SyscallEvent, l: Labels, i: nat)
    requires l.argumentCount <= |s.args| && i < 7
    ensures GoodMember(SyscallMembers(s, l)[i])
  {
    TextFits("number", Decimal(s.number));
    TextFits("name", l.name);
    ArgumentsMember(s.args, l.argumentCount);
    TextFits("result", Decimal(s.result));
    ErrorFits(s.errorNumber, l.errorName);
    TextFits("duration_ns", Decimal(Duration(s.enteredAt, s.exitedAt)));
    TextFits("text", l.text);
  }

  ghost predicate Renderable(e: Event, l: Labels) {
    e.body.SyscallBody? ==> l.argumentCount <= |e.body.syscall.args|
  }

  lemma RecordFits(e: Event, l: Labels)
    requires Renderable(e, l)
    ensures Fits(EventValue(e, l), DEPTH_LIMIT)
  {
    var header, body := Header(Kind(e.body), e), BodyMembers(e.body, l);
    forall i | 0 <= i < |header + body| ensures GoodMember((header + body)[i]) {
      if i < 5 {
        HeaderFits(Kind(e.body), e, i);
      } else {
        BodyFits(e.body, l, i - 5);
      }
    }
  }

  lemma BodyFits(b: Body, l: Labels, i: nat)
    requires b.SyscallBody? ==> l.argumentCount <= |b.syscall.args|
    requires i < |BodyMembers(b, l)|
    ensures GoodMember(BodyMembers(b, l)[i])
  {
    match b
    case SyscallBody(s) => SyscallFits(s, l, i);
    case SignalBody(_, _, _) => SignalFits(b, l, i);
    case _ =>
  }

  lemma SignalFits(b: Body, l: Labels, i: nat)
    requires b.SignalBody? && i < 4
    ensures GoodMember(BodyMembers(b, l)[i])
  {
  }

  /** For every event, whatever names and text it carries, the record is a single line that the
      validator accepts. */
  lemma RecordIsValid(e: Event, l: Labels)
    requires Renderable(e, l)
    ensures ValidJsonLine(Json.Print(EventValue(e, l))) && OneLine(Json.Print(EventValue(e, l)))
  {
    RecordFits(e, l);
    PrintedIsValid(EventValue(e, l));
    PrintedOneLine(EventValue(e, l), DEPTH_LIMIT);
  }

  // ----- the line determines the record

  lemma Word64Injective(m: int, n: int)
    requires Word64(m) == Word64(n)
    ensures m % TWO_64 == n % TWO_64
  {
    assert Word64(m)[2..] == Hex(m % TWO_64) && Word64(n)[2..] == Hex(n % TWO_64);
    HexRead(m % TWO_64);
    HexRead(n % TWO_64);
  }

  lemma {:induction false} ArgumentsInjective(a: seq<int>, m: nat, b: seq<int>, n: nat)
    requires m <= |a| && n <= |b| && Arguments(a, m) == Arguments(b, n)
    ensures m == n && forall i :: 0 <= i < m ==> a[i] % TWO_64 == b[i] % TWO_64
  {
    ArgumentsLength(a, m);
    ArgumentsLength(b, n);
    if m > 0 {
      var x, y := Arguments(a, m), Arguments(b, n);
      assert x[..m - 1] == Arguments(a, m - 1) && y[..m - 1] == Arguments(b, m - 1);
      assert x[m - 1].text == Word64(a[m - 1]) && y[m - 1].text == Word64(b[m - 1]);
      ArgumentsInjective(a, m - 1, b, n - 1);
      Word64Injective(a[m - 1], b[m - 1]);
    }
  }

  lemma {:induction false} ArgumentsLength(args: seq<int>, count: nat)
    requires count <= |args|
    ensures |Arguments(args, count)| == count
  {
    if count > 0 { ArgumentsLength(args, count - 1); }
  }

  /** Two records say the same about a call: number, shown arguments, result, error and text. */
  ghost predicate SameCall(s: SyscallEvent, l: Labels, t: SyscallEvent, m: Labels) {
    && s.number == t.number && s.result == t.result && s.errorNumber == t.errorNumber
    && l.name == m.name && l.text == m.text && l.argumentCount == m.argumentCount
    && l.argumentCount <= |s.args| && m.argumentCount <= |t.args|
    && (forall i :: 0 <= i < l.argumentCount ==> s.args[i] % TWO_64 == t.args[i] % TWO_64)
    && Duration(s.enteredAt, s.exitedAt) == Duration(t.enteredAt, t.exitedAt)
  }

  ghost predicate SameBody(x: Body, l: Labels, y: Body, m: Labels) {
    match x
    case SyscallBody(s) => y.SyscallBody? && SameCall(s, l, y.syscall, m)
    case SignalBody(signal, code, address) =>
      && y.SignalBody? && y.signal == signal && y.code == code
      && (0 <= address < TWO_64 && 0 <= y.address < TWO_64 ==> address == y.address)
    case StartBody(_, _) => y == x
    case ExitBody(_, _) => y == x
  }

  lemma CallInjective(s: SyscallEvent, l: Labels, t: SyscallEvent, m: Labels)
    requires l.argumentCount <= |s.args| && m.argumentCount <= |t.args| && SyscallMembers(s, l) == SyscallMembers(t, m)
    ensures SameCall(s, l, t, m)
  {
    var a, b := SyscallMembers(s, l), SyscallMembers(t, m);
    assert a[0].value.text == b[0].value.text;
    assert a[1].value.text == b[1].value.text && a[3].value.text == b[3].value.text;
    assert a[2].value.items == b[2].value.items;
    assert a[5].value.text == b[5].value.text && a[6].value.text == b[6].value.text;
    DecimalInjective(s.number, t.number);
    DecimalInjective(s.result, t.result);
    DecimalInjective(Duration(s.enteredAt, s.exitedAt), Duration(t.enteredAt, t.exitedAt));
    ArgumentsInjective(s.args, l.argumentCount, t.args, m.argumentCount);
    ErrorInjective(s.errorNumber, l.errorName, t.errorNumber, m.errorName, a[4].value, b[4].value);
  }

  lemma ErrorInjective(x: int, a: Option<string>, y: int, b: Option<string>, v: Value, w: Value)
    requires v == ErrorValue(x, a) && w == ErrorValue(y, b) && v == w
    ensures x == y
  {
    if x != 0 && y != 0 {
      assert v.members[0].value.n == w.members[0].value.n;
    }
  }

  lemma BodyInjective(x: Body, l: Labels, y: Body, m: Labels)
    requires (x.SyscallBody? ==> l.argumentCount <= |x.syscall.args|)
    requires (y.SyscallBody? ==> m.argumentCount <= |y.syscall.args|)
    requires Kind(x) == Kind(y) && BodyMembers(x, l) == BodyMembers(y, m)
    ensures SameBody(x, l, y, m)
  {
    KindInjective(x, y);
    var a, b := BodyMembers(x, l), BodyMembers(y, m);
    match x
    case SyscallBody(s) => CallInjective(s, l, y.syscall, m);
    case SignalBody(signal, code, address) =>
      assert a[0].value.n == b[0].value.n && a[2].value.n == b[2].value.n;
      AddressInjective(address, y.address, a[3].value, b[3].value);
    case StartBody(child, kind) =>
      assert a[0].value.n == b[0].value.n && a[1].value.n == b[1].value.n;
    case ExitBody(status, signaled) =>
      assert a[0].value.n == b[0].value.n && a[1].value.word == b[1].value.word;
      assert "true"[0] != "false"[0];
  }

  lemma AddressInjective(x: int, y: int, v: Value, w: Value)
    requires v == (if x == 0 then Word("null") else Str(Word64(x)))
    requires w == (if y == 0 then Word("null") else Str(Word64(y))) && v == w
    ensures 0 <= x < TWO_64 && 0 <= y < TWO_64 ==> x == y
  {
    if x != 0 && y != 0 { Word64Injective(x, y); }
  }

  lemma KindInjective(x: Body, y: Body)
    requires Kind(x) == Kind(y)
    ensures x.SyscallBody? == y.SyscallBody? && x.SignalBody? == y.SignalBody?
    ensures x.StartBody? == y.StartBody? && x.ExitBody? == y.ExitBody?
  {
    assert "syscall"[1] == 'y' && "signal"[1] == 'i';
    assert "process-start"[8] == 's' && "process-exit"[8] == 'e';
  }

  lemma SameLineSameMembers(a: seq<Member>, b: seq<Member>)
    requires Fits(Members(a), DEPTH_LIMIT) && Fits(Members(b), DEPTH_LIMIT)
    requires Json.Print(Members(a)) == Json.Print(Members(b))
    ensures a == b
  {
    PrintInjective(Members(a), Members(b), 0);
  }

  /** Nothing shown is lost: two events with the same line agree on everything a record carries. */
  lemma RecordIsLossless(e: Event, l: Labels, f: Event, m: Labels)
    requires Renderable(e, l) && Renderable(f, m) && Json.Print(EventValue(e, l)) == Json.Print(EventValue(f, m))
    ensures e.tid == f.tid && e.tgid == f.tgid && Timestamp(e.at) == Timestamp(f.at)
    ensures SameBody(e.body, l, f.body, m)
  {
    var h, k := Header(Kind(e.body), e), Header(Kind(f.body), f);
    var a, b := BodyMembers(e.body, l), BodyMembers(f.body, m);
    RecordFits(e, l);
    RecordFits(f, m);
    SameLineSameMembers(h + a, k + b);
    SameHalves(h, a, k, b);
    HeaderInjective(Kind(e.body), e, Kind(f.body), f);
    BodyInjective(e.body, l, f.body, m);
  }

  lemma SameHalves(h: seq<Member>, a: seq<Member>, k: seq<Member>, b: seq<Member>)
    requires |h| == |k| && h + a == k + b
    ensures h == k && a == b
  {
    assert (h + a)[..|h|] == h && (k + b)[..|k|] == k;
    assert (h + a)[|h|..] == a && (k + b)[|k|..] == b;
  }

  lemma HeaderInjective(kind: string, e: Event, other: string, f: Event)
    requires Header(kind, e) == Header(other, f)
    ensures kind == other && e.tid == f.tid && e.tgid == f.tgid && Timestamp(e.at) == Timestamp(f.at)
  {
    var a, b := Header(kind, e), Header(other, f);
    assert a[1].value.text == b[1].value.text && a[2].value.n == b[2].value.n && a[3].value.n == b[3].value.n;
    assert a[4].value.text == b[4].value.text;
    DecimalInjective(Timestamp(e.at), Timestamp(f.at));
  }

  // ----- the writer, which appends piece by piece

  lemma {:induction false} PlainEscapes(text: string)
    requires PlainText(text)
    ensures EscapeAll(text) == text
  {
    if text != [] { PlainEscapes(text[1..]); }
  }

  lemma {:induction false} MembersAppend(a: seq<Member>, m: Member)
    requires a != []
    ensures PrintMembers(a + [m]) == PrintMembers(a) + ("," + PrintMember(m))
  {
    var all := a + [m];
    assert all[1..] == a[1..] + [m] && all[0] == a[0];
    if |a| == 1 {
      assert all[1..] == [m] && PrintMembers([m]) == PrintMember(m) + [];
      assert PrintMember(m) + [] == PrintMember(m) && PrintMembers(a) == PrintMember(a[0]) + [];
    } else {
      MembersAppend(a[1..], m);
      Regroup(PrintMember(a[0]), ",", PrintMembers(a[1..]), "," + PrintMember(m));
    }
  }

  lemma SingleItem(v: Value)
    ensures PrintItems([v]) == Json.Print(v)
  {
    assert PrintItems([v]) == Json.Print(v) + [];
  }

  lemma FirstItem(a: seq<Value>)
    requires |a| > 1
    ensures PrintItems(a) == Json.Print(a[0]) + ("," + PrintItems(a[1..]))
  {
  }

  lemma {:induction false} ItemsAppend(a: seq<Value>, v: Value)
    ensures PrintItems(a + [v]) == if a == [] then Json.Print(v) else PrintItems(a) + ("," + Json.Print(v))
  {
    var all := a + [v];
    SingleItem(v);
    if a == [] {
      assert all == [v];
    } else {
      assert all[1..] == a[1..] + [v] && all[0] == a[0];
      FirstItem(all);
      ItemsAppend(a[1..], v);
      if |a| == 1 {
        SingleItem(a[0]);
        assert a == [a[0]];
      } else {
        FirstItem(a);
        Regroup(Json.Print(a[0]), ",", PrintItems(a[1..]), "," + Json.Print(v));
        Associate(Json.Print(a[0]), ",", PrintItems(a[1..]));
      }
    }
  }

  /** The buffer holds `base` and then an object whose members so far are `done`. */
  ghost predicate Holds(buffer: string, base: string, done: seq<Member>) {
    done != [] && buffer == base + ("{" + PrintMembers(done))
  }

  /** `,"key":` and the text of the value. */
  method AppendMember(buffer: string, key: string, text: string, ghost base: string, ghost done: seq<Member>,
                      ghost value: Value)
    returns (r: string)
    requires Holds(buffer, base, done) && text == Json.Print(value)
    ensures Holds(r, base, done + [Member(key, value)])
  {
    r := buffer + ("," + ("\"" + key + "\":" + text));
    MembersAppend(done, Member(key, value));
    Regroup(base, "{", PrintMembers(done), "," + PrintMember(Member(key, value)));
  }

  /** A string that is written between quotes as it is. */
  method QuotePlain(text: string) returns (r: string)
    requires PlainText(text)
    ensures r == Json.Print(Str(text))
  {
    r := "\"" + text + "\"";
    PlainEscapes(text);
  }

  method AppendPlain(buffer: string, key: string, text: string, ghost base: string, ghost done: seq<Member>)
    returns (r: string)
    requires Holds(buffer, base, done) && PlainText(text)
    ensures Holds(r, base, done + [Member(key, Str(text))])
  {
    var quoted := QuotePlain(text);
    r := AppendMember(buffer, key, quoted, base, done, Str(text));
  }

  /** The opening brace and the first member. */
  method Open(buffer: string, key: string, text: string, ghost value: Value) returns (r: string)
    requires text == Json.Print(value)
    ensures Holds(r, buffer, [Member(key, value)])
  {
    r := buffer + "{\"" + key + "\":" + text;
    ghost var first := [Member(key, value)];
    assert PrintMembers(first) == PrintMember(first[0]) + [];
    assert "{\"" + key + "\":" + text == "{" + PrintMember(first[0]);
  }

  /** append_json_header without an event. */
  method AppendHeading(buffer: string, kind: string) returns (r: string)
    ensures Holds(r, buffer, Heading(kind))
  {
    var schema := RenderSchema();
    ghost var first := Member("schema", Str("sysgaze.trace/v1"));
    r := Open(buffer, "schema", schema, first.value);
    var quoted := AppendJsonString("", kind);
    r := AppendMember(r, "type", quoted, buffer, [first], Str(kind));
    Listed2(first, Member("type", Str(kind)));
  }

  method RenderSchema() returns (r: string)
    ensures r == Json.Print(Str("sysgaze.trace/v1"))
  {
    r := QuotePlain("sysgaze.trace/v1");
  }

  lemma Listed2(a: Member, b: Member)
    ensures [a] + [b] == [a, b]
  {
  }

  /** append_json_header. */
  method AppendHeader(buffer: string, kind: string, e: Event) returns (r: string)
    ensures Holds(r, buffer, Header(kind, e))
  {
    r := AppendHeading(buffer, kind);
    ghost var tid, tgid := Member("tid", Number(e.tid)), Member("tgid", Number(e.tgid));
    r := AppendMember(r, "tid", Decimal(e.tid), buffer, Heading(kind), Number(e.tid));
    r := AppendMember(r, "tgid", Decimal(e.tgid), buffer, Heading(kind) + [tid], Number(e.tgid));
    DecimalPlain(Timestamp(e.at));
    var stamp := QuotePlain(Decimal(Timestamp(e.at)));
    r := AppendMember(r, "timestamp_ns", stamp, buffer, Heading(kind) + [tid] + [tgid], Str(Decimal(Timestamp(e.at))));
    Extend3(Heading(kind), tid, tgid, Member("timestamp_ns", Str(Decimal(Timestamp(e.at)))));
  }

  lemma Extend3(s: seq<Member>, a: Member, b: Member, c: Member)
    ensures s + [a] + [b] + [c] == s + [a, b, c]
  {
  }

  /** One more element of an array. */
  lemma ItemsGrow(r: string, items: seq<Value>, v: Value)
    requires r == "[" + PrintItems(items)
    ensures r + (if items == [] then "" else ",") + Json.Print(v) == "[" + PrintItems(items + [v])
  {
    ItemsAppend(items, v);
    if items == [] { assert PrintItems(items) == []; }
  }

  /** The loop over the arguments. */
  method RenderArguments(args: seq<int>, count: nat) returns (r: string)
    requires count <= |args|
    ensures r == Json.Print(Items(Arguments(args, count)))
  {
    r := "[";
    for index := 0 to count
      invariant r == "[" + PrintItems(Arguments(args, index))
    {
      HexPlain(args[index] % TWO_64);
      var word := QuotePlain(Word64(args[index]));
      ArgumentsLength(args, index);
      ItemsGrow(r, Arguments(args, index), Str(Word64(args[index])));
      r := r + (if index == 0 then "" else ",") + word;
    }
    r := r + "]";
  }

  method RenderError(number: int, name: Option<string>) returns (r: string)
    ensures r == Json.Print(ErrorValue(number, name))
  {
    if number == 0 {
      return "null";
    }
    var text := "null";
    if name.Some? {
      text := AppendJsonString("", name.value);
    }
    r := Open("", "number", Decimal(number), Number(number));
    ghost var named := match name case Some(s) => Str(s) case None => Word("null");
    r := AppendMember(r, "name", text, "", [Member("number", Number(number))], named);
    Listed2(Member("number", Number(number)), Member("name", named));
    r := Close(r, "", [Member("number", Number(number)), Member("name", named)]);
  }

  method Close(buffer: string, ghost base: string, ghost done: seq<Member>) returns (r: string)
    requires Holds(buffer, base, done)
    ensures r == base + Json.Print(Members(done))
  {
    r := buffer + "}";
    assert r == base + ("{" + PrintMembers(done) + "}");
  }

  /** append_json_syscall, behind the header. */
  method AppendSyscall(buffer: string, s: SyscallEvent, l: Labels, ghost base: string, ghost done: seq<Member>)
    returns (r: string)
    requires Holds(buffer, base, done) && l.argumentCount <= |s.args|
    ensures Holds(r, base, done + SyscallMembers(s, l))
  {
    ghost var m := SyscallMembers(s, l);
    r := AppendCall(buffer, s, l, base, done);
    var arguments := RenderArguments(s.args, l.argumentCount);
    r := AppendMember(r, "arguments", arguments, base, done + m[..2], m[2].value);
    Grows(done, m, 2);
    r := AppendOutcome(r, s, l, base, done);
  }

  lemma Grows(done: seq<Member>, m: seq<Member>, n: nat)
    requires n < |m|
    ensures done + m[..n] + [m[n]] == done + m[..n + 1]
    ensures m[..|m|] == m && done + m[..0] == done
  {
  }

  /** Number and name. */
  method AppendCall(buffer: string, s: SyscallEvent, l: Labels, ghost base: string, ghost done: seq<Member>)
    returns (r: string)
    requires Holds(buffer, base, done) && l.argumentCount <= |s.args|
    ensures Holds(r, base, done + SyscallMembers(s, l)[..2])
  {
    ghost var m := SyscallMembers(s, l);
    DecimalPlain(s.number);
    var number := QuotePlain(Decimal(s.number));
    r := AppendMember(buffer, "number", number, base, done, m[0].value);
    Grows(done, m, 0);
    var name := AppendJsonString("", l.name);
    r := AppendMember(r, "name", name, base, done + m[..1], m[1].value);
    Grows(done, m, 1);
  }

  /** Result, error, duration and text. */
  method AppendOutcome(buffer: string, s: SyscallEvent, l: Labels, ghost base: string, ghost done: seq<Member>)
    returns (r: string)
    requires l.argumentCount <= |s.args| && Holds(buffer, base, done + SyscallMembers(s, l)[..3])
    ensures Holds(r, base, done + SyscallMembers(s, l))
  {
    ghost var m := SyscallMembers(s, l);
    DecimalPlain(s.result);
    var result := QuotePlain(Decimal(s.result));
    r := AppendMember(buffer, "result", result, base, done + m[..3], m[3].value);
    Grows(done, m, 3);
    var error := RenderError(s.errorNumber, l.errorName);
    r := AppendMember(r, "error", error, base, done + m[..4], m[4].value);
    Grows(done, m, 4);
    DecimalPlain(Duration(s.enteredAt, s.exitedAt));
    var duration := QuotePlain(Decimal(Duration(s.enteredAt, s.exitedAt)));
    r := AppendMember(r, "duration_ns", duration, base, done + m[..5], m[5].value);
    Grows(done, m, 5);
    var text := AppendJsonString("", l.text);
    r := AppendMember(r, "text", text, base, done + m[..6], m[6].value);
    Grows(done, m, 6);
  }

  method AppendSignal(buffer: string, b: Body, l: Labels, ghost base: string, ghost done: seq<Member>)
    returns (r: string)
    requires b.SignalBody? && (l.signalName.Some? ==> PlainText(l.signalName.value)) && Holds(buffer, base, done)
    ensures Holds(r, base, done + BodyMembers(b, l))
  {
    ghost var m := BodyMembers(b, l);
    r := AppendMember(buffer, "number", Decimal(b.signal), base, done, m[0].value);
    Grows(done, m, 0);
    var name := RenderSignalName(l.signalName);
    r := AppendMember(r, "name", name, base, done + m[..1], m[1].value);
    Grows(done, m, 1);
    r := AppendMember(r, "code", Decimal(b.code), base, done + m[..2], m[2].value);
    Grows(done, m, 2);
    var address := "null";
    if b.address != 0 {
      HexPlain(b.address % TWO_64);
      address := QuotePlain(Word64(b.address));
    }
    r := AppendMember(r, "fault_address", address, base, done + m[..3], m[3].value);
    Grows(done, m, 3);
  }

  method RenderSignalName(name: Option<string>) returns (r: string)
    requires name.Some? ==> PlainText(name.value)
    ensures r == Json.Print(SignalName(name))
  {
    r := "null";
    if name.Some? {
      r := QuotePlain("SIG" + name.value);
    }
  }

  method AppendStart(buffer: string, b: Body, l: Labels, ghost base: string, ghost done: seq<Member>)
    returns (r: string)
    requires b.StartBody? && Holds(buffer, base, done)
    ensures Holds(r, base, done + BodyMembers(b, l))
  {
    ghost var m := BodyMembers(b, l);
    r := AppendMember(buffer, "child_tid", Decimal(b.child), base, done, m[0].value);
    Grows(done, m, 0);
    r := AppendMember(r, "ptrace_event", Decimal(EventCode(b.kind)), base, done + m[..1], m[1].value);
    Grows(done, m, 1);
  }

  method AppendExit(buffer: string, b: Body, l: Labels, ghost base: string, ghost done: seq<Member>) returns (r: string)
    requires b.ExitBody? && Holds(buffer, base, done)
    ensures Holds(r, base, done + BodyMembers(b, l))
  {
    ghost var m := BodyMembers(b, l);
    r := AppendMember(buffer, "status", Decimal(b.status), base, done, m[0].value);
    Grows(done, m, 0);
    r := AppendMember(r, "signaled", if b.signaled then "true" else "false", base, done + m[..1], m[1].value);
    Grows(done, m, 1);
  }

  method AppendBody(buffer: string, b: Body, l: Labels, ghost base: string, ghost done: seq<Member>) returns (r: string)
    requires b.SyscallBody? ==> l.argumentCount <= |b.syscall.args|
    requires l.signalName.Some? ==> PlainText(l.signalName.value)
    requires Holds(buffer, base, done)
    ensures Holds(r, base, done + BodyMembers(b, l))
  {
    match b
    case SyscallBody(s) => r := AppendSyscall(buffer, s, l, base, done);
    case SignalBody(_, _, _) => r := AppendSignal(buffer, b, l, base, done);
    case StartBody(_, _) => r := AppendStart(buffer, b, l, base, done);
    case ExitBody(_, _) => r := AppendExit(buffer, b, l, base, done);
  }

  /** append_json_event.  Everything of foreign origin is escaped except the abbreviation of a
      signal, which libc chooses. */
  method AppendEvent(buffer: string, e: Event, l: Labels) returns (r: string)
    requires Renderable(e, l) && (l.signalName.Some? ==> PlainText(l.signalName.value))
    ensures r == buffer + Json.Print(EventValue(e, l))
  {
    r := AppendHeader(buffer, Kind(e.body), e);
    r := AppendBody(r, e.body, l, buffer, Header(Kind(e.body), e));
    r := Close(r, buffer, Header(Kind(e.body), e) + BodyMembers(e.body, l));
  }

  function MetadataMembers(): seq<Member> {
    [Member("architecture", Str("x86_64")), Member("format", Str("ndjson"))]
  }

  method AppendPlatform(buffer: string, ghost base: string, ghost done: seq<Member>) returns (r: string)
    requires Holds(buffer, base, done)
    ensures Holds(r, base, done + MetadataMembers())
  {
    r := AppendPlain(buffer, "architecture", "x86_64", base, done);
    r := AppendPlain(r, "format", "ndjson", base, done + [Member("architecture", Str("x86_64"))]);
    Extend2(done, Member("architecture", Str("x86_64")), Member("format", Str("ndjson")));
  }

  lemma Extend2(s: seq<Member>, a: Member, b: Member)
    ensures s + [a] + [b] == s + [a, b]
  {
  }

  lemma MetadataFits()
    ensures Fits(Members(Heading("metadata") + MetadataMembers()), DEPTH_LIMIT)
  {
    var all := Heading("metadata") + MetadataMembers();
    forall i | 0 <= i < |all| ensures GoodMember(all[i]) {
      if i >= 2 { assert all[i] == MetadataMembers()[i - 2]; }
    }
  }

  /** The first line of a trace. */
  method Metadata() returns (r: string)
    ensures r == Json.Print(Members(Heading("metadata") + MetadataMembers()))
    ensures ValidJsonLine(r) && OneLine(r)
  {
    r := AppendHeading("", "metadata");
    r := AppendPlatform(r, "", Heading("metadata"));
    ghost var v := Members(Heading("metadata") + MetadataMembers());
    r := Close(r, "", v.members);
    NothingBefore(r, Json.Print(v));
    MetadataFits();
    PrintedIsValid(v);
    PrintedOneLine(v, DEPTH_LIMIT);
  }

  lemma NothingBefore(r: string, text: string)
    requires r == "" + text
    ensures r == text
  {
  }

  /** What the writer appends, the validator accepts. */
  method WriteAndValidate(e: Event, l: Labels) returns (line: string, ok: bool)
    requires Renderable(e, l) && (l.signalName.Some? ==> PlainText(l.signalName.value))
    ensures ok && OneLine(line)
  {
    line := AppendEvent("", e, l);
    NothingBefore(line, Json.Print(EventValue(e, l)));
    RecordIsValid(e, l);
    ok := Validator.Validate(line);
  }
}
