/** What each turn writes into the books, told from the notice: the entry a stop reports, the result of
    the stop that ends a call, what an exit or an exec cuts short, and the stops that end the run.

    The definitions read the notice and the task it is about; they name no operation of the machine. */
module Ledger {
  import opened Bits
  import opened Events
  import opened TraceModel
  import Statistics
  import Conservation
  import Lifecycle

  // ----- whom a notice is about

  /** An exec goes on under the notice's TID with the thread that called it; an unknown stopped task is
      adopted. */
  function Subject(cfg: Config, st: State, n: Notice): Option<Tracee> {
    var former := if n.what.ExecStop? then n.what.former else n.tid;
    if n.what.WaitInterrupted? then None
    else if former == n.tid && n.tid in st.tasks then Some(st.tasks[n.tid])
    else if former in st.tasks then Some(st.tasks[former].(tgid := n.tid, newborn := false))
    else if n.tid in st.tasks then Some(st.tasks[n.tid].(tgid := n.tid, newborn := false))
    else if former != n.tid then Some(NewTracee(st.history.births, n.tid, cfg.mode.Attach?, false))
    else if cfg.follow && IsStop(n.what) then
      Some(NewTracee(st.history.births, if n.env.tgid > 0 then n.env.tgid else n.tid, cfg.mode.Attach?, true))
    else None
  }

  /** The thread that had the notice's TID before another thread of its group took it by an exec. */
  function Displaced(st: State, n: Notice): Option<Tracee> {
    if n.what.ExecStop? && n.what.former != n.tid && n.what.former in st.tasks && n.tid in st.tasks then
      Some(st.tasks[n.tid])
    else None
  }

  // ----- how calls begin and end

  /** An entry without its place in the log. */
  datatype Arrival = Arrival(task: nat, number: int, args: seq<int>, at: Timespec)

  datatype End = Returned(syscall: SyscallEvent) | Lost(reason: Reason)

  /** A closing without the place of its line. */
  datatype Ending = Ending(serial: nat, task: nat, tid: int, end: End)

  function ArrivalsOf(entries: seq<Entry>): seq<Arrival> {
    seq(|entries|, i requires 0 <= i < |entries| =>
      Arrival(entries[i].task, entries[i].number, entries[i].args, entries[i].at))
  }

  function EndingsOf(closings: seq<Closing>): seq<Ending> {
    seq(|closings|, i requires 0 <= i < |closings| => EndingOf(closings[i]))
  }

  function EndingOf(c: Closing): Ending {
    Ending(c.serial, c.task, c.tid,
           match c.fate case Completed(s, _) => Returned(s) case Discarded(reason) => Lost(reason))
  }

  function Returning(t: Tracee, tid: int, call: Call, result: int, errorNumber: int, at: Timespec): Ending {
    Ending(call.serial, t.task, tid,
           Returned(SyscallEvent(call.number, call.args, result, errorNumber, call.enteredAt, at, true)))
  }

  function Losing(t: Tracee, tid: int, call: Option<Call>, reason: Reason): seq<Ending> {
    match call case None => [] case Some(c) => [Ending(c.serial, t.task, tid, Lost(reason))]
  }

  /** The call an entry stop reports goes on with the interrupted one. */
  predicate GoesOn(t: Tracee, number: int) {
    t.restartReady && t.interrupted.Some? && (number == t.interrupted.value.number || number == 219)
  }

  /** The clock is read for selected calls only. */
  function Stamp(cfg: Config, number: int, now: Timespec): Timespec {
    if cfg.filter.active && number !in cfg.filter.numbers then Timespec(0, 0) else now
  }

  /** The number and arguments a stop reports as entered. */
  predicate Enters(what: What) { what.SyscallEntry? || what.SeccompStop? }

  function Arriving(cfg: Config, st: State, n: Notice): seq<Arrival> {
    match Subject(cfg, st, n)
    case None => []
    case Some(t) =>
      if Enters(n.what) && !GoesOn(t, n.what.number) then
        [Arrival(t.task, n.what.number, n.what.args, Stamp(cfg, n.what.number, n.env.now))]
      else []
  }

  /** A successful exec is the only call that an entry finds pending; a call that could have been
      restarted and was not has failed with EINTR. */
  function EndingAtEntry(t: Tracee, tid: int, number: int, now: Timespec): seq<Ending> {
    (match t.pending case None => [] case Some(call) => [Returning(t, tid, call, 0, 0, now)]) +
    (if t.restartReady && t.interrupted.Some? && !GoesOn(t, number) then
       [Returning(t, tid, t.interrupted.value, -1, 4, now)]
     else [])
  }

  predicate AsksRestart(rval: int) { rval == -512 || rval == -513 || rval == -514 || rval == -516 }

  /** A real result ends the pending call with that result; then a call set aside earlier with the same
      number is given up, unless this was rt_sigreturn. */
  function EndingAtExit(cfg: Config, t: Tracee, tid: int, rval: int, isError: bool, now: Timespec): seq<Ending> {
    match t.pending
    case None => []
    case Some(call) =>
      if AsksRestart(rval) then Losing(t, tid, t.interrupted, Replaced)
      else
        [Returning(t, tid, call, rval, if isError && -0x7fff_ffff <= rval < 0 then -rval else 0,
                   Stamp(cfg, call.number, now))] +
        (if t.interrupted.Some? && t.interrupted.value.number == call.number && call.number != 15 &&
            !t.restartReady
         then
           Losing(t, tid, t.interrupted, Superseded)
         else [])
  }

  function EndingNow(cfg: Config, t: Tracee, n: Notice): seq<Ending> {
    match n.what
    case SyscallEntry(number, _) => EndingAtEntry(t, n.tid, number, n.env.now)
    case SeccompStop(number, _) => EndingAtEntry(t, n.tid, number, n.env.now)
    case SyscallExit(rval, isError) => EndingAtExit(cfg, t, n.tid, rval, isError, n.env.now)
    case ExecStop(_) =>
      (match t.pending case None => [] case Some(call) => [Returning(t, n.tid, call, 0, 0, n.env.now)])
    case Exited(_) => Losing(t, n.tid, t.pending, LostAtExit) + Losing(t, n.tid, t.interrupted, LostAtExit)
    case Killed(_) => Losing(t, n.tid, t.pending, LostAtExit) + Losing(t, n.tid, t.interrupted, LostAtExit)
    case _ => []
  }

  function EndingBefore(st: State, n: Notice): seq<Ending> {
    match Displaced(st, n)
    case None => []
    case Some(t) => Losing(t, n.tid, t.pending, LostAtExec) + Losing(t, n.tid, t.interrupted, LostAtExec)
  }

  /** The calls that the notice ends, in order. */
  function Ends(cfg: Config, st: State, n: Notice): seq<Ending> {
    EndingBefore(st, n) + (match Subject(cfg, st, n) case None => [] case Some(t) => EndingNow(cfg, t, n))
  }

  /** The calls a task holds after the notice. */
  datatype Hold = Hold(pending: Option<Call>, interrupted: Option<Call>, ready: bool)

  function HoldOf(t: Tracee): Hold { Hold(t.pending, t.interrupted, t.restartReady) }

  const EMPTY := Hold(None, None, false)

  function HoldAtEntry(cfg: Config, t: Tracee, serial: nat, number: nat, args: seq<int>, now: Timespec): Hold {
    if GoesOn(t, number) then Hold(t.interrupted, None, false)
    else
      Hold(Some(Call(serial, number, args, Stamp(cfg, number, now))),
           if t.restartReady then None else t.interrupted,
           t.restartReady && t.interrupted.None?)
  }

  function HoldAtExit(t: Tracee, rval: int): Hold {
    match t.pending
    case None => HoldOf(t)
    case Some(call) =>
      if AsksRestart(rval) then Hold(None, t.pending, false)
      else if t.interrupted.None? then Hold(None, None, t.restartReady)
      else if call.number == 15 then Hold(None, t.interrupted, true)
      else if !t.restartReady && call.number == t.interrupted.value.number then EMPTY
      else Hold(None, t.interrupted, t.restartReady)
  }

  function HoldNow(cfg: Config, t: Tracee, serial: nat, n: Notice): Hold {
    match n.what
    case SyscallEntry(number, args) => HoldAtEntry(cfg, t, serial, number, args, n.env.now)
    case SeccompStop(number, args) => HoldAtEntry(cfg, t, serial, number, args, n.env.now)
    case SyscallExit(rval, _) => HoldAtExit(t, rval)
    case ExecStop(_) => Hold(None, t.interrupted, t.restartReady)
    case _ => HoldOf(t)
  }

  // ----- what the parts of a turn add to the books

  /** The statistics after the returned calls of `ends` have been recorded, if they fit. */
  function Recording(cfg: Config, stats: Statistics.Summary, ends: seq<Ending>): Option<Statistics.Summary> {
    if ends == [] || !cfg.summary then Some(stats)
    else
      var last := ends[|ends| - 1].end;
      match Recording(cfg, stats, ends[..|ends| - 1])
      case None => None
      case Some(before) =>
        if last.Returned? && Selected(cfg, last.syscall.number) then Statistics.AddEvent(before, last.syscall)
        else Some(before)
  }

  lemma {:induction false} RecordingMore(cfg: Config, stats: Statistics.Summary, a: seq<Ending>, b: seq<Ending>)
    ensures Recording(cfg, stats, a + b) ==
              match Recording(cfg, stats, a) case None => None case Some(mid) => Recording(cfg, mid, b)
  {
    if b == [] {
      assert a + b == a;
    } else {
      assert (a + b)[..|a + b| - 1] == a + b[..|b| - 1];
      RecordingMore(cfg, stats, a, b[..|b| - 1]);
    }
  }

  /** The books of `b` are those of `a` with these arrivals and endings. */
  ghost predicate Adds(cfg: Config, a: State, b: State, arrivals: seq<Arrival>, ends: seq<Ending>) {
    && ArrivalsOf(b.history.entries) == ArrivalsOf(a.history.entries) + arrivals
    && EndingsOf(b.history.closings) == EndingsOf(a.history.closings) + ends
    && Recording(cfg, a.stats, ends) == Some(b.stats)
  }

  lemma AddsTwice(cfg: Config, a: State, b: State, c: State, x: seq<Arrival>, y: seq<Arrival>,
                  e: seq<Ending>, f: seq<Ending>)
    requires Adds(cfg, a, b, x, e) && Adds(cfg, b, c, y, f)
    ensures Adds(cfg, a, c, x + y, e + f)
  {
    RecordingMore(cfg, a.stats, e, f);
  }

  /** The same books. */
  lemma AddsNothing(cfg: Config, a: State, b: State)
    requires a.history.entries == b.history.entries && a.history.closings == b.history.closings && a.stats == b.stats
    ensures Adds(cfg, a, b, [], [])
  {
  }

  lemma EndingsMore(cfg: Config, a: State, b: State, c: Closing)
    requires b.history.closings == a.history.closings + [c] && b.history.entries == a.history.entries
    requires Recording(cfg, a.stats, [EndingOf(c)]) == Some(b.stats)
    ensures Adds(cfg, a, b, [], [EndingOf(c)])
  {
  }

  /** One written call: fails exactly when the statistics cannot hold it. */
  lemma WriteRecords(cfg: Config, st: State, tid: int, s: SyscallEvent, order: seq<int>, e: Ending)
    requires tid in st.tasks && e.end == Returned(s)
    ensures var o := WriteSyscall(cfg, st, tid, s, order);
            && (o.Failed? <==> Recording(cfg, st.stats, [e]).None?)
            && (o.Fine? ==> Recording(cfg, st.stats, [e]) == Some(o.st.stats))
  {
    assert [e][..0] == [];
    assert Recording(cfg, st.stats, []) == Some(st.stats);
  }

  lemma CompletePendingAdds(cfg: Config, st: State, tid: int, result: int, errorNumber: int, at: Timespec,
                            order: seq<int>)
    requires tid in st.tasks && st.tasks[tid].pending.Some?
    ensures var t, o := st.tasks[tid], CompletePending(cfg, st, tid, result, errorNumber, at, order);
            var ends := [Returning(t, tid, t.pending.value, result, errorNumber, at)];
            && (o.Failed? <==> Recording(cfg, st.stats, ends).None?)
            && (o.Fine? ==> Adds(cfg, st, o.st, [], ends) && o.st.tasks == st.tasks[tid := t.(pending := None)])
  {
    var t := st.tasks[tid];
    var done := Finished(t.pending.value, result, errorNumber, at);
    WriteRecords(cfg, st, tid, done, order, Returning(t, tid, t.pending.value, result, errorNumber, at));
    var o := CompletePending(cfg, st, tid, result, errorNumber, at, order);
    if o.Fine? {
      EndingsMore(cfg, st, o.st, o.st.history.closings[|st.history.closings|]);
    }
  }

  lemma CompleteInterruptedAdds(cfg: Config, st: State, tid: int, result: int, errorNumber: int, at: Timespec,
                                order: seq<int>)
    requires tid in st.tasks && st.tasks[tid].interrupted.Some?
    ensures var t, o := st.tasks[tid], CompleteInterrupted(cfg, st, tid, result, errorNumber, at, order);
            var ends := [Returning(t, tid, t.interrupted.value, result, errorNumber, at)];
            && (o.Failed? <==> Recording(cfg, st.stats, ends).None?)
            && (o.Fine? ==>
                  && Adds(cfg, st, o.st, [], ends)
                  && o.st.tasks == st.tasks[tid := t.(interrupted := None, restartReady := false)])
  {
    var t := st.tasks[tid];
    var done := Finished(t.interrupted.value, result, errorNumber, at);
    WriteRecords(cfg, st, tid, done, order, Returning(t, tid, t.interrupted.value, result, errorNumber, at));
    var o := CompleteInterrupted(cfg, st, tid, result, errorNumber, at, order);
    if o.Fine? {
      EndingsMore(cfg, st, o.st, o.st.history.closings[|st.history.closings|]);
    }
  }

  lemma RecordingLost(cfg: Config, stats: Statistics.Summary, e: Ending)
    requires e.end.Lost?
    ensures Recording(cfg, stats, [e]) == Some(stats)
  {
    assert [e][..0] == [];
  }

  lemma DropPendingAdds(cfg: Config, st: State, tid: int, reason: Reason)
    requires tid in st.tasks
    ensures var t, r := st.tasks[tid], DropPending(st, tid, reason);
            && Adds(cfg, st, r, [], Losing(t, tid, t.pending, reason))
            && r.tasks == st.tasks[tid := t.(pending := None)]
  {
    var t := st.tasks[tid];
    if t.pending.Some? {
      var c := Closing(t.pending.value.serial, t.task, tid, Discarded(reason));
      RecordingLost(cfg, st.stats, EndingOf(c));
      EndingsMore(cfg, st, DropPending(st, tid, reason), c);
    } else {
      AddsNothing(cfg, st, st);
    }
  }

  lemma DropInterruptedAdds(cfg: Config, st: State, tid: int, reason: Reason)
    requires tid in st.tasks
    ensures var t, r := st.tasks[tid], DropInterrupted(st, tid, reason);
            && Adds(cfg, st, r, [], Losing(t, tid, t.interrupted, reason))
            && (t.interrupted.None? ==> r == st)
            && (t.interrupted.Some? ==> r.tasks == st.tasks[tid := t.(interrupted := None, restartReady := false)])
  {
    var t := st.tasks[tid];
    if t.interrupted.Some? {
      var c := Closing(t.interrupted.value.serial, t.task, tid, Discarded(reason));
      RecordingLost(cfg, st.stats, EndingOf(c));
      EndingsMore(cfg, st, DropInterrupted(st, tid, reason), c);
    } else {
      AddsNothing(cfg, st, st);
    }
  }

  lemma RemoveTaskAdds(cfg: Config, st: State, tid: int, reason: Reason)
    requires tid in st.tasks
    ensures var t, r := st.tasks[tid], RemoveTask(st, tid, reason);
            && Adds(cfg, st, r, [], Losing(t, tid, t.pending, reason) + Losing(t, tid, t.interrupted, reason))
            && r.tasks == st.tasks - {tid}
  {
    var t := st.tasks[tid];
    var dropped := DropPending(st, tid, reason);
    DropPendingAdds(cfg, st, tid, reason);
    DropInterruptedAdds(cfg, dropped, tid, reason);
    AddsTwice(cfg, st, dropped, DropInterrupted(dropped, tid, reason), [], [],
              Losing(t, tid, t.pending, reason), Losing(t, tid, t.interrupted, reason));
  }

  // ----- entries and exits

  function WithHold(t: Tracee, h: Hold): Tracee {
    t.(pending := h.pending, interrupted := h.interrupted, restartReady := h.ready)
  }

  /** An entry is refused: no such number, or a call is pending that is not an exec. */
  predicate BadEntry(t: Tracee, number: int) {
    number > 0x7fff_ffff_ffff_ffff || (t.pending.Some? && t.pending.value.number != 59 && t.pending.value.number != 322)
  }

  function Settling(t: Tracee, tid: int, now: Timespec): seq<Ending> {
    match t.pending case None => [] case Some(call) => [Returning(t, tid, call, 0, 0, now)]
  }

  lemma SettleAdds(cfg: Config, st: State, tid: int, number: nat, env: Env)
    requires tid in st.tasks
    ensures var t, o := st.tasks[tid], SettleExec(cfg, st, tid, env);
            var ends := Settling(t, tid, env.now);
            && (o.Failed? || number > LONG_MAX <==> BadEntry(t, number) || Recording(cfg, st.stats, ends).None?)
            && (o.Fine? ==> Adds(cfg, st, o.st, [], ends) && o.st.tasks == st.tasks[tid := t.(pending := None)])
            && (o.Fine? ==> o.st.history.entries == st.history.entries)
  {
    if st.tasks[tid].pending.Some? {
      CompletePendingAdds(cfg, st, tid, 0, 0, env.now, env.order);
    } else {
      AddsNothing(cfg, st, st);
    }
  }

  function Exposing(t: Tracee, tid: int, now: Timespec): seq<Ending> {
    if t.restartReady && t.interrupted.Some? then [Returning(t, tid, t.interrupted.value, -1, 4, now)] else []
  }

  lemma ExposeAdds(cfg: Config, st: State, tid: int, env: Env)
    requires tid in st.tasks
    ensures var t, o := st.tasks[tid], ExposeEintr(cfg, st, tid, env);
            var ends := Exposing(t, tid, env.now);
            && (o.Failed? <==> Recording(cfg, st.stats, ends).None?)
            && (o.Fine? ==> Adds(cfg, st, o.st, [], ends) && o.st.history.entries == st.history.entries)
            && (o.Fine? ==> o.st.tasks == st.tasks[tid :=
                  t.(interrupted := if t.restartReady then None else t.interrupted,
                     restartReady := t.restartReady && t.interrupted.None?)])
  {
    var t := st.tasks[tid];
    if t.restartReady && t.interrupted.Some? {
      CompleteInterruptedAdds(cfg, st, tid, -1, EINTR, env.now, env.order);
    } else {
      AddsNothing(cfg, st, st);
    }
  }

  /** The entries are those of before, and perhaps one more that stands at the end of the log. */
  ghost predicate MarksEnd(a: State, b: State) {
    var n := |a.history.entries|;
    && n <= |b.history.entries| <= n + 1
    && (|b.history.entries| == n + 1 ==> b.history.entries[n].mark == |b.log|)
  }

  lemma FreshAdds(cfg: Config, st: State, tid: int, number: int, args: seq<int>, env: Env)
    requires tid in st.tasks
    ensures var t, r := st.tasks[tid], FreshEntry(cfg, st, tid, number, args, env);
            var at := Stamp(cfg, number, env.now);
            && Adds(cfg, st, r, [Arrival(t.task, number, args, at)], [])
            && r.tasks == st.tasks[tid := t.(pending := Some(Call(|st.history.entries|, number, args, at)))]
            && MarksEnd(st, r)
  {
    var r := FreshEntry(cfg, st, tid, number, args, env);
    assert r.history.entries == st.history.entries + [r.history.entries[|st.history.entries|]];
  }

  function ArrivingAtEntry(cfg: Config, t: Tracee, number: nat, args: seq<int>, now: Timespec): seq<Arrival> {
    if GoesOn(t, number) then [] else [Arrival(t.task, number, args, Stamp(cfg, number, now))]
  }

  /** Endings one after another. */
  lemma EndsTwice(cfg: Config, a: State, b: State, first: seq<Ending>, second: seq<Ending>)
    requires Adds(cfg, a, b, [], first)
    ensures Recording(cfg, a.stats, first + second) == Recording(cfg, b.stats, second)
    ensures Recording(cfg, a.stats, first).Some?
  {
    RecordingMore(cfg, a.stats, first, second);
  }

  /** What an entry adds, with the state it leads to. */
  ghost predicate EntryBooked(cfg: Config, st: State, o: Outcome, tid: int, number: nat, args: seq<int>, now: Timespec)
    requires tid in st.tasks
  {
    var t := st.tasks[tid];
    var ends := EndingAtEntry(t, tid, number, now);
    && (o.Failed? <==> BadEntry(t, number) || Recording(cfg, st.stats, ends).None?)
    && (o.Fine? ==>
          && Adds(cfg, st, o.st, ArrivingAtEntry(cfg, t, number, args, now), ends) && MarksEnd(st, o.st)
          && o.st.tasks == st.tasks[tid := WithHold(t, HoldAtEntry(cfg, t, |st.history.entries|, number, args, now))])
  }

  lemma GoOnAdds(cfg: Config, st: State, settled: State, tid: int, number: nat, args: seq<int>, env: Env)
    requires tid in st.tasks && GoesOn(st.tasks[tid], number)
    requires Adds(cfg, st, settled, [], Settling(st.tasks[tid], tid, env.now))
    requires settled.tasks == st.tasks[tid := st.tasks[tid].(pending := None)]
    ensures var t, r := st.tasks[tid], Restart(cfg, settled, tid, env.order);
            && Adds(cfg, st, r, [], EndingAtEntry(t, tid, number, env.now))
            && r.tasks == st.tasks[tid := WithHold(t, HoldAtEntry(cfg, t, |st.history.entries|, number, args, env.now))]
            && r.history.entries == settled.history.entries
  {
    var r := Restart(cfg, settled, tid, env.order);
    AddsNothing(cfg, settled, r);
    AddsTwice(cfg, st, settled, r, [], [], Settling(st.tasks[tid], tid, env.now), []);
  }

  lemma EnterAdds(cfg: Config, st: State, settled: State, exposed: State, tid: int, number: nat, args: seq<int>,
                  env: Env)
    requires tid in st.tasks && !GoesOn(st.tasks[tid], number)
    requires Adds(cfg, st, settled, [], Settling(st.tasks[tid], tid, env.now))
    requires Adds(cfg, settled, exposed, [], Exposing(st.tasks[tid], tid, env.now))
    requires exposed.history.entries == st.history.entries
    requires var t := st.tasks[tid];
            exposed.tasks == st.tasks[tid := t.(pending := None,
              interrupted := if t.restartReady then None else t.interrupted,
              restartReady := t.restartReady && t.interrupted.None?)]
    requires !BadEntry(st.tasks[tid], number)
    ensures EntryBooked(cfg, st, Fine(FreshEntry(cfg, exposed, tid, number, args, env)), tid, number, args, env.now)
  {
    var t, r := st.tasks[tid], FreshEntry(cfg, exposed, tid, number, args, env);
    var first, second := Settling(t, tid, env.now), Exposing(t, tid, env.now);
    AddsTwice(cfg, st, settled, exposed, [], [], first, second);
    FreshAdds(cfg, exposed, tid, number, args, env);
    AddsTwice(cfg, st, exposed, r, [], ArrivingAtEntry(cfg, t, number, args, env.now), first + second, []);
  }

  /** An entry that goes on with the interrupted call, behind the settling of an exec. */
  lemma RestartAdds(cfg: Config, st: State, settled: State, tid: int, number: nat, args: seq<int>, env: Env)
    requires tid in st.tasks && !BadEntry(st.tasks[tid], number) && SettleExec(cfg, st, tid, env) == Fine(settled)
    requires Adds(cfg, st, settled, [], Settling(st.tasks[tid], tid, env.now)) && GoesOn(st.tasks[tid], number)
    requires settled.tasks == st.tasks[tid := st.tasks[tid].(pending := None)]
    requires settled.history.entries == st.history.entries
    ensures EntryBooked(cfg, st, Begin(cfg, st, tid, number, args, env), tid, number, args, env.now)
  {
    GoOnAdds(cfg, st, settled, tid, number, args, env);
  }

  /** A fresh entry, behind the settling of an exec. */
  lemma SettledAdds(cfg: Config, st: State, settled: State, tid: int, number: nat, args: seq<int>, env: Env)
    requires tid in st.tasks && !BadEntry(st.tasks[tid], number) && SettleExec(cfg, st, tid, env) == Fine(settled)
    requires Adds(cfg, st, settled, [], Settling(st.tasks[tid], tid, env.now)) && !GoesOn(st.tasks[tid], number)
    requires settled.tasks == st.tasks[tid := st.tasks[tid].(pending := None)]
    requires settled.history.entries == st.history.entries
    ensures EntryBooked(cfg, st, Begin(cfg, st, tid, number, args, env), tid, number, args, env.now)
  {
    ExposeAdds(cfg, settled, tid, env);
    var e := ExposeEintr(cfg, settled, tid, env);
    BeginIs(cfg, st, settled, e, tid, number, args, env);
    if e.Fine? {
      EnterAdds(cfg, st, settled, e.st, tid, number, args, env);
    } else {
      EndsTwice(cfg, st, settled, Settling(st.tasks[tid], tid, env.now), Exposing(st.tasks[tid], tid, env.now));
    }
  }

  lemma BeginIs(cfg: Config, st: State, settled: State, e: Outcome, tid: int, number: nat, args: seq<int>, env: Env)
    requires tid in st.tasks && number <= LONG_MAX && SettleExec(cfg, st, tid, env) == Fine(settled)
    requires tid in settled.tasks && !Restarts(settled.tasks[tid], number)
    requires e == ExposeEintr(cfg, settled, tid, env)
    ensures Begin(cfg, st, tid, number, args, env) ==
              match e case Failed => Failed case Fine(exposed) => Fine(FreshEntry(cfg, exposed, tid, number, args, env))
  {
  }

  lemma BeginAdds(cfg: Config, st: State, tid: int, number: nat, args: seq<int>, env: Env)
    requires tid in st.tasks
    ensures EntryBooked(cfg, st, Begin(cfg, st, tid, number, args, env), tid, number, args, env.now)
  {
    var t := st.tasks[tid];
    SettleAdds(cfg, st, tid, number, env);
    var o := SettleExec(cfg, st, tid, env);
    if number <= LONG_MAX && o.Fine? {
      if GoesOn(t, number) {
        RestartAdds(cfg, st, o.st, tid, number, args, env);
      } else {
        SettledAdds(cfg, st, o.st, tid, number, args, env);
      }
    } else {
      RecordingMore(cfg, st.stats, Settling(t, tid, env.now),
                    if GoesOn(t, number) then [] else Exposing(t, tid, env.now));
    }
  }

  lemma SetAsideAdds(cfg: Config, st: State, tid: int)
    requires tid in st.tasks && st.tasks[tid].pending.Some?
    ensures var t, r := st.tasks[tid], SetAside(st, tid);
            && Adds(cfg, st, r, [], Losing(t, tid, t.interrupted, Replaced)) && r.history.entries == st.history.entries
            && r.tasks == st.tasks[tid := WithHold(t, Hold(None, t.pending, false))]
  {
    var t := st.tasks[tid];
    var cleared := DropInterrupted(st, tid, Replaced);
    DropInterruptedAdds(cfg, st, tid, Replaced);
    AddsNothing(cfg, cleared, SetAside(st, tid));
    AddsTwice(cfg, st, cleared, SetAside(st, tid), [], [], Losing(t, tid, t.interrupted, Replaced), []);
  }

  function GivingUp(t: Tracee, tid: int, number: int): seq<Ending> {
    if t.interrupted.Some? && t.interrupted.value.number == number && number != 15 && !t.restartReady then
      Losing(t, tid, t.interrupted, Superseded)
    else []
  }

  lemma AfterCompletionAdds(cfg: Config, st: State, tid: int, call: Call)
    requires tid in st.tasks && st.tasks[tid].pending.None?
    ensures var t, r := st.tasks[tid], AfterCompletion(st, tid, call.number);
            && Adds(cfg, st, r, [], GivingUp(t, tid, call.number)) && r.history.entries == st.history.entries
            && r.tasks == st.tasks[tid := WithHold(t, HoldAtExit(t.(pending := Some(call)), 0))]
  {
    DropInterruptedAdds(cfg, st, tid, Superseded);
    if GivingUp(st.tasks[tid], tid, call.number) == [] { AddsNothing(cfg, st, AfterCompletion(st, tid, call.number)); }
  }

  lemma FinishAdds(cfg: Config, st: State, tid: int, rval: int, isError: bool, env: Env)
    requires tid in st.tasks
    ensures var t, o := st.tasks[tid], Finish(cfg, st, tid, rval, isError, env);
            var ends := EndingAtExit(cfg, t, tid, rval, isError, env.now);
            && (o.Failed? <==> Recording(cfg, st.stats, ends).None?)
            && (o.Fine? ==>
                  && Adds(cfg, st, o.st, [], ends) && o.st.history.entries == st.history.entries
                  && o.st.tasks == st.tasks[tid := WithHold(t, HoldAtExit(t, rval))])
  {
    var t := st.tasks[tid];
    if t.pending.None? {
      AddsNothing(cfg, st, st);
    } else if IsRestartResult(rval) {
      SetAsideAdds(cfg, st, tid);
    } else {
      ConcludeAdds(cfg, st, tid, rval, isError, env);
    }
  }

  lemma ConcludingAdds(cfg: Config, st: State, done: State, tid: int, call: Call, first: seq<Ending>)
    requires tid in st.tasks && st.tasks[tid].pending == Some(call)
    requires Adds(cfg, st, done, [], first) && done.history.entries == st.history.entries
    requires done.tasks == st.tasks[tid := st.tasks[tid].(pending := None)]
    ensures var t, r := st.tasks[tid], AfterCompletion(done, tid, call.number);
            && Adds(cfg, st, r, [], first + GivingUp(t, tid, call.number)) && r.history.entries == st.history.entries
            && r.tasks == st.tasks[tid := WithHold(t, HoldAtExit(t, 0))]
  {
    var r := AfterCompletion(done, tid, call.number);
    AfterCompletionAdds(cfg, done, tid, call);
    AddsTwice(cfg, st, done, r, [], [], first, GivingUp(st.tasks[tid], tid, call.number));
  }

  lemma GivingUpRecords(cfg: Config, stats: Statistics.Summary, first: seq<Ending>, t: Tracee, tid: int, number: int)
    ensures Recording(cfg, stats, first + GivingUp(t, tid, number)) == Recording(cfg, stats, first)
  {
    RecordingMore(cfg, stats, first, GivingUp(t, tid, number));
    if Recording(cfg, stats, first).Some? && GivingUp(t, tid, number) != [] {
      RecordingLost(cfg, Recording(cfg, stats, first).value, GivingUp(t, tid, number)[0]);
    }
  }

  lemma ConcludeAdds(cfg: Config, st: State, tid: int, rval: int, isError: bool, env: Env)
    requires tid in st.tasks && st.tasks[tid].pending.Some? && !AsksRestart(rval)
    ensures var t, o := st.tasks[tid], Conclude(cfg, st, tid, rval, isError, env);
            var ends := EndingAtExit(cfg, t, tid, rval, isError, env.now);
            && (o.Failed? <==> Recording(cfg, st.stats, ends).None?)
            && (o.Fine? ==>
                  && Adds(cfg, st, o.st, [], ends) && o.st.history.entries == st.history.entries
                  && o.st.tasks == st.tasks[tid := WithHold(t, HoldAtExit(t, rval))])
  {
    var t := st.tasks[tid];
    var call := t.pending.value;
    var errorNumber := if isError && -0x7fff_ffff <= rval < 0 then -rval else 0;
    var at := Stamp(cfg, call.number, env.now);
    var first := [Returning(t, tid, call, rval, errorNumber, at)];
    assert EndingAtExit(cfg, t, tid, rval, isError, env.now) == first + GivingUp(t, tid, call.number);
    GivingUpRecords(cfg, st.stats, first, t, tid, call.number);
    CompletePendingAdds(cfg, st, tid, rval, errorNumber, at, env.order);
    var o := CompletePending(cfg, st, tid, rval, errorNumber, at, env.order);
    assert Conclude(cfg, st, tid, rval, isError, env) == Concluding(o, tid, call.number);
    if o.Fine? { ConcludingAdds(cfg, st, o.st, tid, call, first); }
  }

  lemma HandleExecAdds(cfg: Config, st: State, tid: int, env: Env)
    requires tid in st.tasks
    ensures var t, o := st.tasks[tid], HandleExec(cfg, st, tid, env);
            var ends := Settling(t, tid, env.now);
            && (o.Failed? <==> Recording(cfg, st.stats, ends).None?)
            && (o.Fine? ==>
                  && Adds(cfg, st, o.st, [], ends) && o.st.history.entries == st.history.entries
                  && o.st.tasks == st.tasks[tid := t.(pending := None, newborn := false)])
  {
    var seen := if tid == st.root.tid then st.(root := st.root.(execObserved := true)) else st;
    AddsNothing(cfg, st, seen);
    if seen.tasks[tid].pending.Some? {
      CompletePendingAdds(cfg, seen, tid, 0, 0, env.now, env.order);
    }
  }

  // ----- a stop

  /** The thread that `child` would be in is not known to be valid. */
  predicate BadChild(t: Tracee, kind: ChildKind, child: nat, childTgid: int) {
    child == 0 || child > 0x7fff_ffff || (childTgid <= 0 && kind.Clone? && t.tgid <= 0)
  }

  /** The stops of the task `t` that end the run, the statistics apart. */
  predicate BadStop(t: Tracee, what: What) {
    match what
    case SyscallEntry(number, _) => BadEntry(t, number)
    case SeccompStop(number, _) => BadEntry(t, number) || number / 0x4000_0000 % 2 == 1
    case SyscallExit(_, _) => false
    case ExecStop(_) => false
    case EventStop(_) => false
    case ChildStop(kind, child, childTgid) => BadChild(t, kind, child, childTgid)
    case SignalStop(signal, info) =>
      && !(t.newborn && signal == 19)
      && info.NoInfo? && !(info.einval && (signal == 19 || signal == 20 || signal == 21 || signal == 22))
    case _ => true
  }

  /** The child a stop reports. */
  function Born(what: What): set<int> {
    if what.ChildStop? then {what.child} else {}
  }

  function ArrivingNow(cfg: Config, t: Tracee, n: Notice): seq<Arrival> {
    if Enters(n.what) then ArrivingAtEntry(cfg, t, n.what.number, n.what.args, n.env.now) else []
  }

  /** What handling a stop adds to the books, and the calls held afterwards. */
  ghost predicate Booked(cfg: Config, st: State, r: Handled, n: Notice)
    requires n.tid in st.tasks
  {
    var t := st.tasks[n.tid];
    && (r.Unhandled? <==> BadStop(t, n.what) || Recording(cfg, st.stats, EndingNow(cfg, t, n)).None?)
    && (r.Handled? ==>
          && Adds(cfg, st, r.st, ArrivingNow(cfg, t, n), EndingNow(cfg, t, n)) && MarksEnd(st, r.st)
          && r.st.tasks.Keys == st.tasks.Keys + Born(n.what)
          && HoldOf(r.st.tasks[n.tid]) == HoldNow(cfg, t, |st.history.entries|, n)
          && OthersHold(st.tasks, r.st.tasks, n.tid))
  }

  /** The other tasks hold what they held; a new one holds nothing. */
  ghost predicate OthersHold(a: map<int, Tracee>, b: map<int, Tracee>, tid: int) {
    forall u | u in b && u != tid :: HoldOf(b[u]) == if u in a then HoldOf(a[u]) else EMPTY
  }

  /** The stop of a task whose calls and place are those of `stopped`. */
  lemma OneTaskBooked(cfg: Config, st: State, stopped: State, r: Handled, n: Notice)
    requires n.tid in st.tasks && !n.what.ChildStop?
    requires stopped == SetTask(st, n.tid, st.tasks[n.tid].(inStop := true))
    requires var t := stopped.tasks[n.tid];
            r.Unhandled? <==> BadStop(t, n.what) || Recording(cfg, st.stats, EndingNow(cfg, t, n)).None?
    requires r.Handled? ==>
              var t := stopped.tasks[n.tid];
              && Adds(cfg, stopped, r.st, ArrivingNow(cfg, t, n), EndingNow(cfg, t, n)) && MarksEnd(stopped, r.st)
              && n.tid in r.st.tasks && r.st.tasks == stopped.tasks[n.tid := r.st.tasks[n.tid]]
              && HoldOf(r.st.tasks[n.tid]) == HoldNow(cfg, t, |st.history.entries|, n)
    ensures Booked(cfg, st, r, n)
  {
    SameCallsSameEnds(cfg, st.tasks[n.tid], stopped.tasks[n.tid], |st.history.entries|, n);
  }

  /** Only the calls of a task and its identity matter. */
  lemma SameCallsSameEnds(cfg: Config, t: Tracee, u: Tracee, serial: nat, n: Notice)
    requires u == t.(inStop := true)
    ensures BadStop(u, n.what) == BadStop(t, n.what) && EndingNow(cfg, u, n) == EndingNow(cfg, t, n)
    ensures ArrivingNow(cfg, u, n) == ArrivingNow(cfg, t, n) && HoldNow(cfg, u, serial, n) == HoldNow(cfg, t, serial, n)
  {
  }

  lemma EntryStopBooked(cfg: Config, st: State, n: Notice)
    requires n.tid in st.tasks && Enters(n.what)
    ensures Booked(cfg, st, HandleStop(cfg, st, n), n)
  {
    var stopped := SetTask(st, n.tid, st.tasks[n.tid].(inStop := true));
    BeginAdds(cfg, stopped, n.tid, n.what.number, n.what.args, n.env);
    OneTaskBooked(cfg, st, stopped, HandleStop(cfg, st, n), n);
  }

  lemma ExitStopBooked(cfg: Config, st: State, n: Notice)
    requires n.tid in st.tasks && n.what.SyscallExit?
    ensures Booked(cfg, st, HandleStop(cfg, st, n), n)
  {
    var stopped := SetTask(st, n.tid, st.tasks[n.tid].(inStop := true));
    FinishAdds(cfg, stopped, n.tid, n.what.rval, n.what.isError, n.env);
    OneTaskBooked(cfg, st, stopped, HandleStop(cfg, st, n), n);
  }

  lemma ExecStopBooked(cfg: Config, st: State, n: Notice)
    requires n.tid in st.tasks && n.what.ExecStop?
    ensures Booked(cfg, st, HandleStop(cfg, st, n), n)
  {
    var stopped := SetTask(st, n.tid, st.tasks[n.tid].(inStop := true));
    HandleExecAdds(cfg, stopped, n.tid, n.env);
    OneTaskBooked(cfg, st, stopped, HandleStop(cfg, st, n), n);
  }

  lemma ChildStopBooked(cfg: Config, st: State, n: Notice)
    requires n.tid in st.tasks && n.what.ChildStop?
    ensures Booked(cfg, st, HandleStop(cfg, st, n), n)
  {
    var stopped := SetTask(st, n.tid, st.tasks[n.tid].(inStop := true));
    var r := HandleStop(cfg, st, n);
    Lifecycle.HandleChildLocal(cfg, stopped, n.tid, n.what.kind, n.what.child, n.what.childTgid, n.env);
    if r.Handled? { AddsNothing(cfg, st, r.st); }
  }

  lemma SignalStopBooked(cfg: Config, st: State, n: Notice)
    requires n.tid in st.tasks && (n.what.SignalStop? || n.what.EventStop?)
    ensures Booked(cfg, st, HandleStop(cfg, st, n), n)
  {
    var stopped := SetTask(st, n.tid, st.tasks[n.tid].(inStop := true));
    var r := HandleStop(cfg, st, n);
    if r.Handled? { AddsNothing(cfg, stopped, r.st); }
    OneTaskBooked(cfg, st, stopped, r, n);
  }

  lemma HandleStopBooked(cfg: Config, st: State, n: Notice)
    requires n.tid in st.tasks && IsStop(n.what)
    ensures Booked(cfg, st, HandleStop(cfg, st, n), n)
  {
    match n.what
    case SyscallEntry(_, _) => EntryStopBooked(cfg, st, n);
    case SeccompStop(_, _) => EntryStopBooked(cfg, st, n);
    case SyscallExit(_, _) => ExitStopBooked(cfg, st, n);
    case ExecStop(_) => ExecStopBooked(cfg, st, n);
    case ChildStop(_, _, _) => ChildStopBooked(cfg, st, n);
    case SignalStop(_, _) => SignalStopBooked(cfg, st, n);
    case EventStop(_) => SignalStopBooked(cfg, st, n);
    case _ =>
  }

  // ----- the rest of a turn

  lemma BuryAdds(cfg: Config, st: State, n: Notice)
    requires n.tid in st.tasks && (n.what.Exited? || n.what.Killed?)
    ensures var o := Bury(cfg, st, n);
            && (o.Failed? <==> cfg.seccomp && n.tid == st.root.tid && !st.root.execObserved && n.what == Exited(126))
            && (o.Fine? ==>
                  && Adds(cfg, st, o.st, [], EndingNow(cfg, st.tasks[n.tid], n))
                  && o.st.history.entries == st.history.entries
                  && o.st.tasks == st.tasks - {n.tid})
  {
    var written := RecordStatus(WriteExit(cfg, st, n), n);
    RemoveTaskAdds(cfg, written, n.tid, LostAtExit);
  }

  /** Whether the exec or the unknown task cannot be tracked. */
  predicate BadArrival(cfg: Config, st: State, n: Notice) {
    if n.what.ExecStop? && n.what.former != n.tid then n.what.former > 0x7fff_ffff || n.tid <= 0
    else
      || (n.what.ExecStop? && n.what.former > 0x7fff_ffff)
      || (n.tid !in st.tasks && IsStop(n.what) && cfg.follow && n.tid <= 0)
  }

  lemma MigrateAdds(cfg: Config, st: State, n: Notice)
    requires n.what.ExecStop? && n.what.former != n.tid && !BadArrival(cfg, st, n)
    ensures var o := MigrateExec(cfg, st, n.tid, n.what.former);
            && o.Fine? && Subject(cfg, st, n).Some?
            && Adds(cfg, st, o.st, [], EndingBefore(st, n)) && o.st.history.entries == st.history.entries
            && o.st.tasks == (st.tasks - {n.what.former})[n.tid := Subject(cfg, st, n).value]
  {
    var o := MigrateExec(cfg, st, n.tid, n.what.former);
    if Displaced(st, n).Some? {
      RemoveTaskAdds(cfg, st, n.tid, LostAtExec);
      var cleared := RemoveTask(st, n.tid, LostAtExec);
      AddsNothing(cfg, cleared, o.st);
      AddsTwice(cfg, st, cleared, o.st, [], [], EndingBefore(st, n), []);
    } else {
      AddsNothing(cfg, st, o.st);
    }
  }

  /** Before the stop itself is handled. */
  lemma AdmitAdds(cfg: Config, st: State, n: Notice)
    requires !n.what.WaitInterrupted?
    ensures var o := Admit(cfg, st, n);
            && (o.Failed? <==> BadArrival(cfg, st, n))
            && (o.Fine? ==>
                  && Adds(cfg, st, o.st, [], EndingBefore(st, n)) && o.st.history.entries == st.history.entries
                  && (n.tid in o.st.tasks <==> Subject(cfg, st, n).Some?)
                  && o.st.tasks == Admitted(cfg, st, n))
  {
    if n.what.ExecStop? && n.what.former != n.tid {
      if !BadArrival(cfg, st, n) { MigrateAdds(cfg, st, n); }
    } else {
      var o := Admit(cfg, st, n);
      if o.Fine? { AddsNothing(cfg, st, o.st); }
    }
  }

  /** The table once the subject of the notice has its place. */
  function Admitted(cfg: Config, st: State, n: Notice): map<int, Tracee> {
    var others := if n.what.ExecStop? && n.what.former != n.tid then st.tasks - {n.what.former} else st.tasks;
    match Subject(cfg, st, n) case None => others case Some(t) => others[n.tid := t]
  }

  // ----- whole turns

  /** The notices that end the run. */
  predicate Ruinous(cfg: Config, st: State, n: Notice) {
    && !n.what.WaitInterrupted?
    && (|| BadArrival(cfg, st, n)
        || match Subject(cfg, st, n)
           case None => false
           case Some(t) =>
             if IsStop(n.what) then
               BadStop(t, n.what) || Recording(cfg, st.stats, Ends(cfg, st, n)).None? || n.env.reply.Refused?
             else cfg.seccomp && n.tid == st.root.tid && !st.root.execObserved && n.what == Exited(126))
  }

  /** The TIDs tracked after the notice. */
  function Present(cfg: Config, st: State, n: Notice): set<int> {
    var others := if n.what.ExecStop? && n.what.former != n.tid then st.tasks.Keys - {n.what.former} else st.tasks.Keys;
    if Subject(cfg, st, n).None? then others
    else if n.what.Exited? || n.what.Killed? then others - {n.tid}
    else others + {n.tid} + Born(n.what)
  }

  /** What the task with the TID `u` holds after the notice. */
  function HoldAfter(cfg: Config, st: State, n: Notice, u: int): Hold {
    if u == n.tid && Subject(cfg, st, n).Some? then
      HoldNow(cfg, Subject(cfg, st, n).value, |st.history.entries|, n)
    else if u in st.tasks then HoldOf(st.tasks[u])
    else EMPTY
  }

  /** One turn, told from its notice. */
  ghost predicate Told(cfg: Config, st: State, n: Notice, r: State) {
    && Adds(cfg, st, r, Arriving(cfg, st, n), Ends(cfg, st, n)) && MarksEnd(st, r)
    && r.tasks.Keys == Present(cfg, st, n)
    && forall u | u in r.tasks :: HoldOf(r.tasks[u]) == HoldAfter(cfg, st, n, u)
  }

  lemma ResumeTold(cfg: Config, st: State, admitted: State, h: Handled, n: Notice)
    requires IsStop(n.what) && Subject(cfg, st, n).Some? && h.Handled?
    requires admitted.tasks == Admitted(cfg, st, n) && admitted.history.entries == st.history.entries
    requires Adds(cfg, st, admitted, [], EndingBefore(st, n)) && Booked(cfg, admitted, h, n)
    ensures var r := Resume(cfg, h.st, n.tid, h.signal, h.listen, n.env);
            (r.Abort? <==> n.env.reply.Refused?) && (!r.Abort? ==> Told(cfg, st, n, r.st))
  {
    var r := Resume(cfg, h.st, n.tid, h.signal, h.listen, n.env);
    if !r.Abort? {
      var t := admitted.tasks[n.tid];
      AddsNothing(cfg, h.st, r.st);
      AddsTwice(cfg, st, admitted, h.st, [], ArrivingNow(cfg, t, n), EndingBefore(st, n), EndingNow(cfg, t, n));
      AddsTwice(cfg, st, h.st, r.st, ArrivingNow(cfg, t, n), [], Ends(cfg, st, n), []);
      forall u | u in r.st.tasks ensures HoldOf(r.st.tasks[u]) == HoldAfter(cfg, st, n, u) {
        assert HoldOf(r.st.tasks[u]) == HoldOf(h.st.tasks[u]);
      }
    }
  }

  lemma StopTold(cfg: Config, st: State, admitted: State, n: Notice)
    requires IsStop(n.what) && Subject(cfg, st, n).Some? && n.tid in admitted.tasks
    requires admitted.tasks == Admitted(cfg, st, n) && admitted.history.entries == st.history.entries
    requires Adds(cfg, st, admitted, [], EndingBefore(st, n))
    ensures var r := Dispatch(cfg, admitted, n);
            && (r.Abort? <==> || BadStop(Subject(cfg, st, n).value, n.what) || n.env.reply.Refused?
                              || Recording(cfg, st.stats, Ends(cfg, st, n)).None?)
            && (!r.Abort? ==> Told(cfg, st, n, r.st))
  {
    HandleStopBooked(cfg, admitted, n);
    EndsTwice(cfg, st, admitted, EndingBefore(st, n), EndingNow(cfg, Subject(cfg, st, n).value, n));
    var h := HandleStop(cfg, admitted, n);
    if h.Handled? { ResumeTold(cfg, st, admitted, h, n); }
  }

  lemma QuietTold(cfg: Config, st: State, n: Notice, r: State)
    requires !n.what.WaitInterrupted? && (n.what.ExecStop? ==> n.what.former == n.tid)
    requires Subject(cfg, st, n).None? || n.what.Continued?
    requires r.tasks.Keys == st.tasks.Keys && r.history == st.history && r.stats == st.stats
    requires forall u | u in r.tasks :: HoldOf(r.tasks[u]) == HoldOf(st.tasks[u])
    ensures Told(cfg, st, n, r)
  {
    AddsNothing(cfg, st, r);
  }

  lemma BuryTold(cfg: Config, st: State, n: Notice)
    requires n.tid in st.tasks && (n.what.Exited? || n.what.Killed?) && Bury(cfg, st, n).Fine?
    ensures Told(cfg, st, n, Bury(cfg, st, n).st)
  {
    BuryAdds(cfg, st, n);
    assert Ends(cfg, st, n) == EndingNow(cfg, st.tasks[n.tid], n);
  }

  /** One turn ends the run exactly on these notices, and otherwise does what the notice tells. */
  lemma StepTold(cfg: Config, st: State, n: Notice)
    ensures var r := Step(cfg, st, n);
            && (r.Abort? <==> Ruinous(cfg, st, n))
            && (!r.Abort? ==> Told(cfg, st, n, r.st))
  {
    if n.what.WaitInterrupted? {
      AddsNothing(cfg, st, st);
    } else {
      AdmitAdds(cfg, st, n);
      var o := Admit(cfg, st, n);
      if o.Fine? {
        if IsStop(n.what) && n.tid in o.st.tasks {
          StopTold(cfg, st, o.st, n);
        } else {
          OtherTold(cfg, st, n);
        }
      }
    }
  }

  lemma OtherTold(cfg: Config, st: State, n: Notice)
    requires !n.what.WaitInterrupted? && Admit(cfg, st, n).Fine?
    requires !IsStop(n.what) || n.tid !in Admit(cfg, st, n).st.tasks
    ensures var r := Step(cfg, st, n);
            && (r.Abort? <==> Ruinous(cfg, st, n))
            && (!r.Abort? ==> Told(cfg, st, n, r.st))
  {
    AdmitAdds(cfg, st, n);
    assert Admit(cfg, st, n) == Fine(st);
    if n.tid in st.tasks && !n.what.Continued? {
      BuryAdds(cfg, st, n);
      if Bury(cfg, st, n).Fine? { BuryTold(cfg, st, n); }
    } else {
      QuietTold(cfg, st, n, Step(cfg, st, n).st);
    }
  }

  // ----- whole runs

  /** The calls that the entry stops of the run report, in order. */
  function Arrivals(cfg: Config, st: State, run: seq<Notice>): seq<Arrival> {
    if run == [] then []
    else
      var front := run[..|run| - 1];
      var r := After(cfg, st, front);
      Arrivals(cfg, st, front) + if r.Running? then Arriving(cfg, r.st, run[|run| - 1]) else []
  }

  /** The ways in which the stops, execs and exits of the run end calls, in order. */
  function AllEnds(cfg: Config, st: State, run: seq<Notice>): seq<Ending> {
    if run == [] then []
    else
      var front := run[..|run| - 1];
      var r := After(cfg, st, front);
      AllEnds(cfg, st, front) + if r.Running? then Ends(cfg, r.st, run[|run| - 1]) else []
  }

  lemma AdvanceTold(cfg: Config, st: State, n: Notice)
    ensures var r := Advance(cfg, Running(st), n);
            && (r.Aborted? <==> Ruinous(cfg, st, n))
            && (!r.Aborted? ==> Told(cfg, st, n, r.st))
  {
    StepTold(cfg, st, n);
  }

  lemma LastTold(cfg: Config, st: State, run: seq<Notice>)
    requires run != [] && !After(cfg, st, run).Aborted?
    ensures var r, s := After(cfg, st, run[..|run| - 1]), After(cfg, st, run);
            && !r.Aborted? && (!r.Running? ==> s == r)
            && (r.Running? ==> !Ruinous(cfg, r.st, run[|run| - 1]) && Told(cfg, r.st, run[|run| - 1], s.st))
  {
    var r := After(cfg, st, run[..|run| - 1]);
    if r.Running? { AdvanceTold(cfg, r.st, run[|run| - 1]); }
  }

  lemma LastAdds(cfg: Config, st: State, run: seq<Notice>, r: RunResult, s: RunResult)
    returns (a: seq<Arrival>, e: seq<Ending>)
    requires run != [] && r == After(cfg, st, run[..|run| - 1]) && s == After(cfg, st, run) && !s.Aborted?
    ensures !r.Aborted?
    ensures ArrivalsOf(s.st.history.entries) == ArrivalsOf(r.st.history.entries) + a
    ensures EndingsOf(s.st.history.closings) == EndingsOf(r.st.history.closings) + e
    ensures Arrivals(cfg, st, run) == Arrivals(cfg, st, run[..|run| - 1]) + a
    ensures AllEnds(cfg, st, run) == AllEnds(cfg, st, run[..|run| - 1]) + e
  {
    LastTold(cfg, st, run);
    if r.Running? {
      a, e := Arriving(cfg, r.st, run[|run| - 1]), Ends(cfg, r.st, run[|run| - 1]);
    } else {
      a, e := [], [];
    }
  }

  lemma Joined<T>(a: seq<T>, b: seq<T>, c: seq<T>, x: seq<T>, more: seq<T>, y: seq<T>)
    requires b == a + x && c == b + more && y == x + more
    ensures c == a + y
  {
  }

  /** The entries are the calls that the entry stops of the run report, and the closings are what its
      stops, execs and exits end, each in order. */
  ghost predicate RunBooked(cfg: Config, st: State, run: seq<Notice>, r: RunResult) {
    !r.Aborted? ==>
      && ArrivalsOf(r.st.history.entries) == ArrivalsOf(st.history.entries) + Arrivals(cfg, st, run)
      && EndingsOf(r.st.history.closings) == EndingsOf(st.history.closings) + AllEnds(cfg, st, run)
  }

  lemma BookedMore(cfg: Config, st: State, run: seq<Notice>, r: RunResult, s: RunResult)
    requires run != [] && r == After(cfg, st, run[..|run| - 1]) && s == After(cfg, st, run) && !s.Aborted?
    requires RunBooked(cfg, st, run[..|run| - 1], r)
    ensures RunBooked(cfg, st, run, s)
  {
    var front := run[..|run| - 1];
    var a, e := LastAdds(cfg, st, run, r, s);
    Joined(ArrivalsOf(st.history.entries), ArrivalsOf(r.st.history.entries), ArrivalsOf(s.st.history.entries),
           Arrivals(cfg, st, front), a, Arrivals(cfg, st, run));
    Joined(EndingsOf(st.history.closings), EndingsOf(r.st.history.closings), EndingsOf(s.st.history.closings),
           AllEnds(cfg, st, front), e, AllEnds(cfg, st, run));
  }

  lemma {:induction false} RunTold(cfg: Config, st: State, run: seq<Notice>)
    ensures RunBooked(cfg, st, run, After(cfg, st, run))
  {
    if run != [] && !After(cfg, st, run).Aborted? {
      RunTold(cfg, st, run[..|run| - 1]);
      LastTold(cfg, st, run);
      BookedMore(cfg, st, run, After(cfg, st, run[..|run| - 1]), After(cfg, st, run));
    }
  }

  // ----- single calls

  /** Turn `j` of the run is about this thread. */
  ghost predicate About(cfg: Config, start: State, run: seq<Notice>, j: nat, task: nat) {
    && j < |run|
    && var r := After(cfg, start, run[..j]);
    && r.Running? && Subject(cfg, r.st, run[j]).Some? && Subject(cfg, r.st, run[j]).value.task == task
  }

  /** Turn `j` is the entry stop that reported this call. */
  ghost predicate EnteredIn(cfg: Config, start: State, run: seq<Notice>, j: nat, e: Arrival) {
    && About(cfg, start, run, j, e.task) && Enters(run[j].what)
    && e.number == run[j].what.number && e.args == run[j].what.args
    && e.at == Stamp(cfg, e.number, run[j].env.now)
  }

  /** The notice is the stop that ended this call: its exit, with the result and errno that the kernel
      gave; the event or the next entry after a successful exec; or the first entry after rt_sigreturn
      that does not restart the call. */
  ghost predicate Explains(cfg: Config, n: Notice, s: SyscallEvent) {
    match n.what
    case SyscallExit(rval, isError) =>
      && s.result == rval && s.errorNumber == (if isError && -0x7fff_ffff <= rval < 0 then -rval else 0)
      && s.exitedAt == Stamp(cfg, s.number, n.env.now)
    case ExecStop(_) => s.result == 0 && s.errorNumber == 0 && s.exitedAt == n.env.now
    case SyscallEntry(_, _) => Overtaken(s) && s.exitedAt == n.env.now
    case SeccompStop(_, _) => Overtaken(s) && s.exitedAt == n.env.now
    case _ => false
  }

  ghost predicate Overtaken(s: SyscallEvent) {
    || ((s.number == 59 || s.number == 322) && s.result == 0 && s.errorNumber == 0)
    || (s.result == -1 && s.errorNumber == 4)
  }

  /** Turn `k` is the stop that ended this call. */
  ghost predicate ReturnedIn(cfg: Config, start: State, run: seq<Notice>, k: nat, e: Ending) {
    About(cfg, start, run, k, e.task) && run[k].tid == e.tid && e.end.Returned? && Explains(cfg, run[k], e.end.syscall)
  }

  /** Every entry has its stop. */
  lemma {:induction false} EntryTold(cfg: Config, start: State, run: seq<Notice>, i: nat) returns (j: nat)
    requires start.history.entries == [] && i < |Arrivals(cfg, start, run)|
    ensures EnteredIn(cfg, start, run, j, Arrivals(cfg, start, run)[i])
  {
    var front := run[..|run| - 1];
    if i < |Arrivals(cfg, start, front)| {
      j := EntryTold(cfg, start, front, i);
      AboutIn(cfg, start, run, |run| - 1, j, Arrivals(cfg, start, run)[i].task);
    } else {
      j := |run| - 1;
    }
  }

  lemma {:induction false} ArrivalsGrow(cfg: Config, start: State, run: seq<Notice>, k: nat)
    requires k <= |run|
    ensures Arrivals(cfg, start, run[..k]) <= Arrivals(cfg, start, run)
  {
    if k < |run| {
      assert run[..|run| - 1][..k] == run[..k];
      ArrivalsGrow(cfg, start, run[..|run| - 1], k);
    } else {
      assert run[..k] == run;
    }
  }

  /** The calls that a notice ends had been entered before. */
  lemma EndsOutstanding(cfg: Config, st: State, n: Notice, i: nat)
    requires Conservation.Balanced(st) && i < |Ends(cfg, st, n)| && !Ruinous(cfg, st, n)
    ensures Ends(cfg, st, n)[i].serial < |st.history.entries|
    ensures Ends(cfg, st, n)[i].end.Returned? ==>
              && Subject(cfg, st, n).Some? && Subject(cfg, st, n).value.task == Ends(cfg, st, n)[i].task
              && Ends(cfg, st, n)[i].tid == n.tid && Explains(cfg, n, Ends(cfg, st, n)[i].end.syscall)
  {
    if n.tid in st.tasks { assert Conservation.GoodTask(st.history, st.tasks[n.tid]); }
    if n.what.ExecStop? && n.what.former in st.tasks {
      assert Conservation.GoodTask(st.history, st.tasks[n.what.former]);
    }
  }

  /** The call was entered at turn `j` and ended at the later turn `k`. */
  ghost predicate Spans(cfg: Config, start: State, run: seq<Notice>, e: Ending, j: nat, k: nat) {
    && j < k && ReturnedIn(cfg, start, run, k, e)
    && e.serial < |Arrivals(cfg, start, run)| && EnteredIn(cfg, start, run, j, Arrivals(cfg, start, run)[e.serial])
  }

  lemma AboutIn(cfg: Config, start: State, run: seq<Notice>, k: nat, j: nat, task: nat)
    requires k <= |run| && About(cfg, start, run[..k], j, task)
    ensures About(cfg, start, run, j, task)
  {
    assert run[..k][..j] == run[..j];
  }

  lemma {:induction false} NeverAborted(cfg: Config, start: State, run: seq<Notice>, k: nat)
    requires k <= |run| && !After(cfg, start, run).Aborted?
    ensures !After(cfg, start, run[..k]).Aborted?
  {
    if k < |run| {
      assert run[..|run| - 1][..k] == run[..k];
      NeverAborted(cfg, start, run[..|run| - 1], k);
    } else {
      assert run[..k] == run;
    }
  }

  lemma LastEnds(cfg: Config, start: State, run: seq<Notice>) returns (r: RunResult, e: seq<Ending>)
    requires run != []
    ensures r == After(cfg, start, run[..|run| - 1])
    ensures e == (if r.Running? then Ends(cfg, r.st, run[|run| - 1]) else [])
    ensures AllEnds(cfg, start, run) == AllEnds(cfg, start, run[..|run| - 1]) + e
  {
    r := After(cfg, start, run[..|run| - 1]);
    e := if r.Running? then Ends(cfg, r.st, run[|run| - 1]) else [];
  }

  /** The notice `k` ended the call. */
  ghost predicate EndedBy(cfg: Config, start: State, run: seq<Notice>, k: nat, x: nat, e: Ending) {
    && k < |run| && After(cfg, start, run[..k]).Running?
    && x < |Ends(cfg, After(cfg, start, run[..k]).st, run[k])|
    && Ends(cfg, After(cfg, start, run[..k]).st, run[k])[x] == e
  }

  lemma EndedByMore(cfg: Config, start: State, run: seq<Notice>, k: nat, x: nat, e: Ending)
    requires run != [] && EndedBy(cfg, start, run[..|run| - 1], k, x, e)
    ensures EndedBy(cfg, start, run, k, x, e)
  {
    assert run[..|run| - 1][..k] == run[..k];
  }

  /** The turn that ended a call. */
  lemma {:induction false} EndTurn(cfg: Config, start: State, run: seq<Notice>, i: nat) returns (k: nat, x: nat)
    requires i < |AllEnds(cfg, start, run)|
    ensures EndedBy(cfg, start, run, k, x, AllEnds(cfg, start, run)[i])
  {
    var n := |run| - 1;
    var r, e := LastEnds(cfg, start, run);
    if i < |AllEnds(cfg, start, run[..n])| {
      k, x := EndTurn(cfg, start, run[..n], i);
      EndedByMore(cfg, start, run, k, x, AllEnds(cfg, start, run)[i]);
    } else {
      k, x := n, i - |AllEnds(cfg, start, run[..n])|;
    }
  }

  /** The call that a notice ends, and the turn that entered it. */
  lemma EndEntered(cfg: Config, start: State, front: seq<Notice>, n: Notice, e: Ending) returns (j: nat)
    requires Conservation.Balanced(start) && start.history.entries == [] && After(cfg, start, front).Running?
    requires e.serial < |After(cfg, start, front).st.history.entries|
    ensures e.serial < |Arrivals(cfg, start, front)|
    ensures EnteredIn(cfg, start, front, j, Arrivals(cfg, start, front)[e.serial])
  {
    RunTold(cfg, start, front);
    assert |ArrivalsOf(After(cfg, start, front).st.history.entries)| == |Arrivals(cfg, start, front)|;
    j := EntryTold(cfg, start, front, e.serial);
  }

  /** The call ended at turn `k` was entered at an earlier one. */
  lemma TurnSpans(cfg: Config, start: State, run: seq<Notice>, k: nat, st: State, x: nat) returns (j: nat)
    requires Conservation.Balanced(start) && start.history.entries == [] && k < |run|
    requires !After(cfg, start, run).Aborted? && After(cfg, start, run[..k]) == Running(st)
    requires x < |Ends(cfg, st, run[k])| && Ends(cfg, st, run[k])[x].end.Returned?
    ensures Spans(cfg, start, run, Ends(cfg, st, run[k])[x], j, k)
  {
    var e := Ends(cfg, st, run[k])[x];
    NeverAborted(cfg, start, run, k + 1);
    assert run[..k + 1][..k] == run[..k];
    LastTold(cfg, start, run[..k + 1]);
    Conservation.RunBalanced(cfg, start, run[..k]);
    EndsOutstanding(cfg, st, run[k], x);
    j := EndEntered(cfg, start, run[..k], run[k], e);
    ArrivalsGrow(cfg, start, run, k);
    AboutIn(cfg, start, run, k, j, Arrivals(cfg, start, run[..k])[e.serial].task);
  }

  /** Every completed call was entered at one stop and ended at a later one. */
  lemma CallTold(cfg: Config, start: State, run: seq<Notice>, i: nat) returns (j: nat, k: nat)
    requires Conservation.Balanced(start) && start.history.entries == [] && start.history.closings == []
    requires var r := After(cfg, start, run);
            !r.Aborted? && i < |r.st.history.closings| && r.st.history.closings[i].fate.Completed?
    ensures var h := After(cfg, start, run).st.history;
            && j < k && ReturnedIn(cfg, start, run, k, EndingOf(h.closings[i]))
            && h.closings[i].serial < |h.entries|
            && EnteredIn(cfg, start, run, j, ArrivalsOf(h.entries)[h.closings[i].serial])
  {
    RunTold(cfg, start, run);
    assert EndingsOf(After(cfg, start, run).st.history.closings)[i] == AllEnds(cfg, start, run)[i];
    var x;
    k, x := EndTurn(cfg, start, run, i);
    j := TurnSpans(cfg, start, run, k, After(cfg, start, run[..k]).st, x);
  }
}
