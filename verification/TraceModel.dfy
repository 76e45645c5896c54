/** The tracer as a state machine (src/trace.c with the text writer of src/output.c).

    One `Notice` is one return of waitpid together with everything the tracer asks of the kernel
    while it handles that return.  `Step` is one turn of trace_loop.  The `History` only records
    what happened; no branch of the machine looks at it. */
module TraceModel {
  import opened Bits
  import opened Events
  import Statistics

  const EXECVE := 59
  const EXECVEAT := 322
  const RT_SIGRETURN: nat := 15
  const RESTART_SYSCALL := 219
  const EINTR := 4
  const INT_MAX := 0x7fff_ffff
  const LONG_MAX := 0x7fff_ffff_ffff_ffff
  const X32_BIT: nat := 0x4000_0000
  const SIGTRAP := 5
  const SIGSTOP := 19

  // ----- configuration

  datatype Mode = Launch | Attach
  datatype Format = Text | Ndjson | Json

  /** What the rest of the tracer sees of a filter: a number out of range is never contained. */
  datatype Selection = Selection(active: bool, numbers: set<int>)

  datatype Config = Config(mode: Mode, format: Format, follow: bool, summary: bool, seccomp: bool, filter: Selection)

  predicate Selected(cfg: Config, number: int) {
    !cfg.filter.active || number in cfg.filter.numbers
  }

  /** The clock is read only for selected calls. */
  function StampOf(cfg: Config, number: int, now: Timespec): Timespec {
    if Selected(cfg, number) then now else EPOCH
  }

  predicate IsRestartResult(result: int) {
    result == -512 || result == -513 || result == -514 || result == -516
  }

  predicate IsStoppingSignal(signal: int) {
    signal == SIGSTOP || signal == 20 || signal == 21 || signal == 22
  }

  // ----- tracked tasks

  /** A call that has been entered.  `serial` is its position among the fresh entries of the run. */
  datatype Call = Call(serial: nat, number: int, args: seq<int>, enteredAt: Timespec)

  datatype Asked = Nothing | Continue | UntilSyscall | Listen

  /** struct sg_tracee.  `task` names the thread for as long as it lives, whatever its TID;
      `asked` is the last request made for it. */
  datatype Tracee = Tracee(task: nat, tgid: int, attached: bool, newborn: bool, inStop: bool, pendingSignal: int,
                           pending: Option<Call>, interrupted: Option<Call>, restartReady: bool, asked: Asked)

  function NewTracee(task: nat, tgid: int, attached: bool, newborn: bool): Tracee {
    Tracee(task, tgid, attached, newborn, false, 0, None, None, false, Nothing)
  }

  /** The call a flush would announce: the pending one hides the interrupted one. */
  function Held(t: Tracee): Option<Call> {
    if t.pending.Some? then t.pending else t.interrupted
  }

  // ----- output

  datatype Body =
    | SyscallBody(syscall: SyscallEvent)
    | SignalBody(signal: int, code: int, address: int)
    | StartBody(child: int, kind: ChildKind)
    | ExitBody(status: int, signaled: bool)

  datatype Event = Event(tid: int, tgid: int, at: Timespec, body: Body)

  datatype Line =
    | Unfinished(tid: int, number: int, args: seq<int>)
    | Resumed(tid: int, number: int, result: int, errorNumber: int)
    | Whole(tid: int, syscall: SyscallEvent)
    | Plain(tid: int, body: Body)
    | JsonLine(event: Event)

  /** The printed lines in order, with the renamings of the unfinished list noted in between. */
  datatype Record = Printed(line: Line) | Renamed(former: int, current: int)

  // ----- history

  datatype Entry = Entry(task: nat, number: int, args: seq<int>, mark: nat, at: Timespec)
  datatype Reason = Replaced | Superseded | LostAtExit | LostAtExec
  datatype Fate = Completed(syscall: SyscallEvent, line: Option<nat>) | Discarded(reason: Reason)
  datatype Closing = Closing(serial: nat, task: nat, tid: int, fate: Fate)
  datatype Request = Request(tid: int, task: nat, asked: Asked, signal: int, gone: bool)

  /** `entries` are the fresh syscall entries, each with the length of the log and the stamp at that time;
      `births` counts the tasks ever tracked; `suppressed` lists the tasks whose first SIGSTOP was
      swallowed. */
  datatype History = History(births: nat, entries: seq<Entry>, closings: seq<Closing>,
                             requests: seq<Request>, suppressed: seq<nat>)

  datatype Root = Root(tid: int, status: Option<int>, execObserved: bool)

  /** struct trace_context.  `open` is the set of TIDs with an unfinished line outstanding. */
  datatype State = State(tasks: map<int, Tracee>, open: set<int>, log: seq<Record>, stats: Statistics.Summary,
                         events: nat, root: Root, history: History)

  datatype Outcome = Fine(st: State) | Failed

  // ----- notices

  datatype ChildKind = Fork | Vfork | Clone
  datatype SigInfo = Info(signo: int, code: int, address: int) | NoInfo(einval: bool)
  datatype Reply = Accepted | Gone | Refused

  datatype What =
    | WaitInterrupted
    | Continued
    | Exited(code: int)
    | Killed(signal: int)
    | SyscallEntry(number: nat, args: seq<int>)
    | SyscallExit(rval: int, isError: bool)
    | BadSyscallInfo
    | EventStop(signal: int)
    | SeccompStop(number: nat, args: seq<int>)
    | ExecStop(former: nat)
    | ChildStop(kind: ChildKind, child: nat, childTgid: int)
    | OtherEvent
    | SignalStop(signal: int, info: SigInfo)

  /** The answers of the system during one turn: the clock, the TIDs in the order of the table
      slots, the thread group of an unknown TID, the reply to the resume request, and the pending
      shutdown signal (0 for none). */
  datatype Env = Env(now: Timespec, order: seq<int>, tgid: int, reply: Reply, shutdown: int)

  datatype Notice = Notice(tid: int, what: What, env: Env)

  predicate IsStop(what: What) {
    !what.WaitInterrupted? && !what.Continued? && !what.Exited? && !what.Killed?
  }

  // ----- the text and NDJSON writers

  /** Only the output may differ. */
  ghost predicate OutputOnly(a: State, b: State) {
    b == a.(log := b.log, open := b.open)
  }

  function Print(st: State, line: Line): State {
    st.(log := st.log + [Printed(line)])
  }

  /** write_text_syscall and write_text_event. */
  function WriteText(st: State, event: Event): (r: State)
    ensures OutputOnly(st, r)
  {
    match event.body
    case SyscallBody(s) =>
      if !s.completed then
        if event.tid in st.open then st
        else Print(st, Unfinished(event.tid, s.number, s.args)).(open := st.open + {event.tid})
      else if event.tid in st.open then
        Print(st, Resumed(event.tid, s.number, s.result, s.errorNumber)).(open := st.open - {event.tid})
      else Print(st, Whole(event.tid, s))
    case ExitBody(_, _) => Print(st, Plain(event.tid, event.body)).(open := st.open - {event.tid})
    case _ => Print(st, Plain(event.tid, event.body))
  }

  /** sg_output_write_event. */
  function Emit(cfg: Config, st: State, event: Event): (r: State)
    ensures OutputOnly(st, r)
  {
    if cfg.summary then st
    else if cfg.format.Text? then WriteText(st, event)
    else if event.body.SyscallBody? && !event.body.syscall.completed then st
    else Print(st, JsonLine(event))
  }

  /** sg_output_migrate_tid. */
  function RenameOpen(st: State, former: int, current: int): State {
    if former == current || former !in st.open then st
    else st.(open := st.open - {former} + {current}, log := st.log + [Renamed(former, current)])
  }

  // ----- flushing and writing syscalls

  function Announcement(tid: int, t: Tracee, call: Call): Event {
    Event(tid, t.tgid, call.enteredAt,
          SyscallBody(SyscallEvent(call.number, call.args, 0, 0, call.enteredAt, EPOCH, false)))
  }

  /** One slot of flush_unfinished_syscalls. */
  function FlushOne(cfg: Config, st: State, except: int, tid: int): (r: State)
    ensures OutputOnly(st, r)
  {
    if tid !in st.tasks || tid == except then st
    else
      var held := Held(st.tasks[tid]);
      if held.None? || !Selected(cfg, held.value.number) then st
      else Emit(cfg, st, Announcement(tid, st.tasks[tid], held.value))
  }

  function FlushSlots(cfg: Config, st: State, except: int, order: seq<int>): (r: State)
    ensures OutputOnly(st, r)
  {
    if order == [] then st
    else FlushOne(cfg, FlushSlots(cfg, st, except, order[..|order| - 1]), except, order[|order| - 1])
  }

  function Flush(cfg: Config, st: State, except: int, order: seq<int>): (r: State)
    ensures OutputOnly(st, r)
  {
    if cfg.summary then st else FlushSlots(cfg, st, except, order)
  }

  /** The line of a completed call of `tid`, after the other tasks have been flushed. */
  function WriteLine(cfg: Config, st: State, tid: int, s: SyscallEvent, order: seq<int>): (r: State)
    requires tid in st.tasks
    ensures OutputOnly(st, r)
  {
    Emit(cfg, Flush(cfg, st, tid, order), Event(tid, st.tasks[tid].tgid, s.exitedAt, SyscallBody(s)))
  }

  /** write_syscall, for a completed call of the tracked task `tid`. */
  function WriteSyscall(cfg: Config, st: State, tid: int, s: SyscallEvent, order: seq<int>): (o: Outcome)
    requires tid in st.tasks
    ensures o.Fine? ==> o.st == st.(log := o.st.log, open := o.st.open, stats := o.st.stats, events := o.st.events)
  {
    if !Selected(cfg, s.number) then Fine(st)
    else
      var counted := st.(events := (st.events + 1) % TWO_64);
      if cfg.summary then
        match Statistics.AddEvent(st.stats, s)
        case Some(stats) => Fine(counted.(stats := stats))
        case None => Failed
      else Fine(WriteLine(cfg, counted, tid, s, order))
  }

  function Finished(call: Call, result: int, errorNumber: int, at: Timespec): SyscallEvent {
    SyscallEvent(call.number, call.args, result, errorNumber, call.enteredAt, at, true)
  }

  // ----- keeping the books

  function AddClosing(st: State, closing: Closing): State {
    st.(history := st.history.(closings := st.history.closings + [closing]))
  }

  function SetTask(st: State, tid: int, t: Tracee): State {
    st.(tasks := st.tasks[tid := t])
  }

  /** Where the line of a call just written stands in the log. */
  function LineOf(cfg: Config, st: State, number: int): Option<nat> {
    if Selected(cfg, number) && !cfg.summary && |st.log| > 0 then Some(|st.log| - 1) else None
  }

  /** Write the pending call as completed and clear it. */
  function CompletePending(cfg: Config, st: State, tid: int, result: int, errorNumber: int, at: Timespec,
                           order: seq<int>): Outcome
    requires tid in st.tasks && st.tasks[tid].pending.Some?
  {
    var t := st.tasks[tid];
    var call := t.pending.value;
    var done := Finished(call, result, errorNumber, at);
    match WriteSyscall(cfg, st, tid, done, order)
    case Failed => Failed
    case Fine(written) =>
      var closing := Closing(call.serial, t.task, tid, Completed(done, LineOf(cfg, written, call.number)));
      Fine(SetTask(AddClosing(written, closing), tid, t.(pending := None)))
  }

  /** Write the interrupted call as completed and clear it. */
  function CompleteInterrupted(cfg: Config, st: State, tid: int, result: int, errorNumber: int, at: Timespec,
                               order: seq<int>): Outcome
    requires tid in st.tasks && st.tasks[tid].interrupted.Some?
  {
    var t := st.tasks[tid];
    var call := t.interrupted.value;
    var done := Finished(call, result, errorNumber, at);
    match WriteSyscall(cfg, st, tid, done, order)
    case Failed => Failed
    case Fine(written) =>
      var closing := Closing(call.serial, t.task, tid, Completed(done, LineOf(cfg, written, call.number)));
      Fine(SetTask(AddClosing(written, closing), tid, t.(interrupted := None, restartReady := false)))
  }

  function DropPending(st: State, tid: int, reason: Reason): State
    requires tid in st.tasks
  {
    var t := st.tasks[tid];
    if t.pending.None? then st
    else SetTask(AddClosing(st, Closing(t.pending.value.serial, t.task, tid, Discarded(reason))), tid,
                 t.(pending := None))
  }

  function DropInterrupted(st: State, tid: int, reason: Reason): State
    requires tid in st.tasks
  {
    var t := st.tasks[tid];
    if t.interrupted.None? then st
    else
      SetTask(AddClosing(st, Closing(t.interrupted.value.serial, t.task, tid, Discarded(reason))), tid,
              t.(interrupted := None, restartReady := false))
  }

  /** release_tracee and sg_tracee_table_remove. */
  function RemoveTask(st: State, tid: int, reason: Reason): State
    requires tid in st.tasks
  {
    var emptied := DropInterrupted(DropPending(st, tid, reason), tid, reason);
    emptied.(tasks := emptied.tasks - {tid})
  }

  // ----- begin_syscall

  /** A pending exec that is still there has succeeded; any other pending call is an error. */
  function SettleExec(cfg: Config, st: State, tid: int, env: Env): Outcome
    requires tid in st.tasks
  {
    match st.tasks[tid].pending
    case None => Fine(st)
    case Some(call) =>
      if call.number == EXECVE || call.number == EXECVEAT then CompletePending(cfg, st, tid, 0, 0, env.now, env.order)
      else Failed
  }

  predicate Restarts(t: Tracee, number: int) {
    t.interrupted.Some? && t.restartReady && (number == t.interrupted.value.number || number == RESTART_SYSCALL)
  }

  /** The interrupted call becomes pending again: not a fresh entry. */
  function Restart(cfg: Config, st: State, tid: int, order: seq<int>): State
    requires tid in st.tasks
  {
    var flushed := Flush(cfg, st, tid, order);
    var t := st.tasks[tid];
    SetTask(flushed, tid, t.(pending := t.interrupted, interrupted := None, restartReady := false))
  }

  /** The first entry after rt_sigreturn was another call, so user space saw EINTR. */
  function ExposeEintr(cfg: Config, st: State, tid: int, env: Env): Outcome
    requires tid in st.tasks
  {
    var t := st.tasks[tid];
    if t.interrupted.Some? && t.restartReady then CompleteInterrupted(cfg, st, tid, -1, EINTR, env.now, env.order)
    else Fine(st)
  }

  function FreshEntry(cfg: Config, st: State, tid: int, number: int, args: seq<int>, env: Env): State
    requires tid in st.tasks
  {
    var chosen := Selected(cfg, number);
    var flushed := if chosen then Flush(cfg, st, tid, env.order) else st;
    var t := st.tasks[tid];
    var at := StampOf(cfg, number, env.now);
    var call := Call(|st.history.entries|, number, args, at);
    var entry := Entry(t.task, number, args, |flushed.log|, at);
    SetTask(flushed, tid, t.(pending := Some(call)))
    .(history := flushed.history.(entries := st.history.entries + [entry]))
  }

  function Begin(cfg: Config, st: State, tid: int, number: nat, args: seq<int>, env: Env): Outcome
    requires tid in st.tasks
  {
    if number > LONG_MAX then Failed
    else
      match SettleExec(cfg, st, tid, env)
      case Failed => Failed
      case Fine(settled) =>
        if Restarts(settled.tasks[tid], number) then Fine(Restart(cfg, settled, tid, env.order))
        else
          match ExposeEintr(cfg, settled, tid, env)
          case Failed => Failed
          case Fine(exposed) => Fine(FreshEntry(cfg, exposed, tid, number, args, env))
  }

  // ----- finish_syscall

  /** A restart pseudo-error: the call is set aside, replacing one set aside before. */
  function SetAside(st: State, tid: int): State
    requires tid in st.tasks
  {
    var cleared := DropInterrupted(st, tid, Replaced);
    var t := cleared.tasks[tid];
    SetTask(cleared, tid, t.(interrupted := t.pending, pending := None, restartReady := false))
  }

  /** What the completion of `number` means for a call set aside. */
  function AfterCompletion(st: State, tid: int, number: int): State
    requires tid in st.tasks
  {
    var t := st.tasks[tid];
    if t.interrupted.None? then st
    else if number == RT_SIGRETURN then SetTask(st, tid, t.(restartReady := true))
    else if !t.restartReady && number == t.interrupted.value.number then DropInterrupted(st, tid, Superseded)
    else st
  }

  /** The errno shown for a return value. */
  function ErrorNumber(rval: int, isError: bool): int {
    if isError && rval < 0 && rval >= -INT_MAX then -rval else 0
  }

  /** A real result. */
  function Conclude(cfg: Config, st: State, tid: int, rval: int, isError: bool, env: Env): Outcome
    requires tid in st.tasks && st.tasks[tid].pending.Some?
  {
    var call := st.tasks[tid].pending.value;
    var errorNumber := ErrorNumber(rval, isError);
    var at := StampOf(cfg, call.number, env.now);
    Concluding(CompletePending(cfg, st, tid, rval, errorNumber, at, env.order), tid, call.number)
  }

  function Concluding(o: Outcome, tid: int, number: int): Outcome
    requires o.Fine? ==> tid in o.st.tasks
  {
    match o case Failed => Failed case Fine(done) => Fine(AfterCompletion(done, tid, number))
  }

  function Finish(cfg: Config, st: State, tid: int, rval: int, isError: bool, env: Env): Outcome
    requires tid in st.tasks
  {
    if st.tasks[tid].pending.None? then Fine(st)
    else if IsRestartResult(rval) then Fine(SetAside(st, tid))
    else Conclude(cfg, st, tid, rval, isError, env)
  }

  // ----- tracking tasks

  /** add_tracee, allocation succeeding. */
  function AddTask(st: State, tid: int, tgid: int, attached: bool, newborn: bool): Outcome {
    if tid <= 0 || tgid <= 0 then Failed
    else if tid in st.tasks then Fine(st)
    else
      Fine(SetTask(st, tid, NewTracee(st.history.births, tgid, attached, newborn))
           .(history := st.history.(births := st.history.births + 1)))
  }

  function FollowRoot(st: State, former: int, current: int): State {
    if st.root.tid == former then st.(root := st.root.(tid := current)) else st
  }

  /** The state `source` goes on under the TID `tid`. */
  function TakeOver(st: State, tid: int, former: int, source: Tracee): State {
    FollowRoot(RenameOpen(SetTask(st, tid, source.(tgid := tid, newborn := false)), former, tid), former, tid)
  }

  /** migrate_exec_tid: the thread `former` goes on as `tid`, and the thread that was `tid` is gone. */
  function MigrateExec(cfg: Config, st: State, tid: int, former: int): Outcome {
    if former == tid then Fine(st)
    else if former in st.tasks then
      if tid <= 0 then Failed
      else
        var cleared := if tid in st.tasks then RemoveTask(st, tid, LostAtExec) else st;
        Fine(TakeOver(cleared.(tasks := cleared.tasks - {former}), tid, former, st.tasks[former]))
    else if tid in st.tasks then
      if tid <= 0 then Failed else Fine(TakeOver(st, tid, former, st.tasks[tid]))
    else
      match AddTask(st, tid, tid, cfg.mode.Attach?, false)
      case Failed => Failed
      case Fine(added) => Fine(RenameOpen(added, former, tid))
  }

  /** Before a notice is handled: an exec is migrated, and an unknown stopped task is adopted. */
  function Admit(cfg: Config, st: State, n: Notice): Outcome {
    var migrated :=
      if !n.what.ExecStop? then Fine(st)
      else if n.what.former > INT_MAX then Failed
      else MigrateExec(cfg, st, n.tid, n.what.former);
    match migrated
    case Failed => Failed
    case Fine(known) =>
      if n.tid !in known.tasks && IsStop(n.what) && cfg.follow then
        AddTask(known, n.tid, if n.env.tgid <= 0 then n.tid else n.env.tgid, cfg.mode.Attach?, true)
      else Fine(known)
  }

  // ----- ptrace events, signals and exits

  /** The fault address of a signal that the kernel sent for a fault. */
  function FaultAddress(info: SigInfo): int
    requires info.Info?
  {
    if info.code > 0 && info.signo in {4, 5, 7, 8, 11} then info.address else 0
  }

  function WriteSignal(cfg: Config, st: State, tid: int, info: SigInfo, env: Env): State
    requires tid in st.tasks && info.Info?
  {
    var flushed := Flush(cfg, st, -1, env.order);
    Emit(cfg, flushed,
         Event(tid, st.tasks[tid].tgid, env.now, SignalBody(info.signo, info.code, FaultAddress(info))))
  }

  /** The PTRACE_EVENT_EXEC branch of handle_ptrace_event. */
  function HandleExec(cfg: Config, st: State, tid: int, env: Env): Outcome
    requires tid in st.tasks
  {
    var seen := if tid == st.root.tid then st.(root := st.root.(execObserved := true)) else st;
    var settled :=
      if seen.tasks[tid].pending.Some? then CompletePending(cfg, seen, tid, 0, 0, env.now, env.order) else Fine(seen);
    match settled
    case Failed => Failed
    case Fine(done) =>
      Fine(SetTask(done, tid, done.tasks[tid].(newborn := false)))
  }

  /** The fork, vfork and clone branch. */
  function HandleChild(cfg: Config, st: State, tid: int, kind: ChildKind, child: nat, childTgid: int, env: Env): Outcome
    requires tid in st.tasks
  {
    if child == 0 || child > INT_MAX then Failed
    else
      var parent := st.tasks[tid];
      var tgid := if childTgid > 0 then childTgid else if kind.Clone? then parent.tgid else child;
      match AddTask(st, child, tgid, parent.attached, true)
      case Failed => Failed
      case Fine(added) =>
        var flushed := Flush(cfg, added, -1, env.order);
        Fine(Emit(cfg, flushed, Event(tid, parent.tgid, env.now, StartBody(child, kind))))
  }

  datatype Handled = Handled(st: State, signal: int, listen: bool) | Unhandled

  function Plainly(o: Outcome): Handled {
    match o case Fine(st) => Handled(st, 0, false) case Failed => Unhandled
  }

  /** A stop without a ptrace event: a newborn's SIGSTOP, a group stop, or a genuine signal. */
  function HandleSignal(cfg: Config, st: State, tid: int, signal: int, info: SigInfo, env: Env): Handled
    requires tid in st.tasks
  {
    var t := st.tasks[tid];
    if t.newborn && signal == SIGSTOP then
      Handled(SetTask(st, tid, t.(newborn := false))
              .(history := st.history.(suppressed := st.history.suppressed + [t.task])), 0, false)
    else
      match info
      case NoInfo(einval) =>
        if einval && IsStoppingSignal(signal) then Handled(st, 0, t.attached) else Unhandled
      case Info(_, _, _) =>
        var marked := SetTask(st, tid, t.(newborn := false, pendingSignal := signal));
        Handled(WriteSignal(cfg, marked, tid, info, env), signal, false)
  }

  function HandleStop(cfg: Config, st: State, n: Notice): Handled
    requires n.tid in st.tasks
  {
    var t := st.tasks[n.tid];
    var stopped := SetTask(st, n.tid, t.(inStop := true));
    match n.what
    case SyscallEntry(number, args) => Plainly(Begin(cfg, stopped, n.tid, number, args, n.env))
    case SyscallExit(rval, isError) => Plainly(Finish(cfg, stopped, n.tid, rval, isError, n.env))
    case EventStop(signal) =>
      Handled(SetTask(stopped, n.tid, t.(inStop := true, newborn := false)), 0, signal != SIGTRAP && t.attached)
    case SeccompStop(number, args) =>
      if number / X32_BIT % 2 == 1 then Unhandled else Plainly(Begin(cfg, stopped, n.tid, number, args, n.env))
    case ExecStop(_) => Plainly(HandleExec(cfg, stopped, n.tid, n.env))
    case ChildStop(kind, child, tgid) => Plainly(HandleChild(cfg, stopped, n.tid, kind, child, tgid, n.env))
    case SignalStop(signal, info) => HandleSignal(cfg, stopped, n.tid, signal, info, n.env)
    case _ => Unhandled
  }

  /** resume_tracee or listen_tracee, and what follows in trace_loop. */
  function RequestFor(cfg: Config, t: Tracee, listen: bool): Asked {
    if listen then Listen else if cfg.seccomp && t.pending.None? then Continue else UntilSyscall
  }

  datatype StepResult = Next(st: State) | Halt(st: State, status: int) | Abort

  function Resume(cfg: Config, st: State, tid: int, signal: int, listen: bool, env: Env): StepResult {
    if tid !in st.tasks then Next(st)
    else
      var t := st.tasks[tid];
      var asked := RequestFor(cfg, t, listen);
      var noted := st.history.(requests := st.history.requests + [Request(tid, t.task, asked, signal, env.reply.Gone?)]);
      match env.reply
      case Refused => Abort
      case Gone => Next(SetTask(st, tid, t.(asked := asked)).(history := noted))
      case Accepted =>
        var done := SetTask(st, tid, t.(asked := asked, inStop := false, pendingSignal := 0)).(history := noted);
        if env.shutdown != 0 then Halt(done, 128 + env.shutdown) else Next(done)
  }

  /** write_exit. */
  function WriteExit(cfg: Config, st: State, n: Notice): (r: State)
    requires n.tid in st.tasks && (n.what.Exited? || n.what.Killed?)
    ensures OutputOnly(st, r)
  {
    var code := if n.what.Exited? then n.what.code else n.what.signal;
    Emit(cfg, Flush(cfg, st, -1, n.env.order),
         Event(n.tid, st.tasks[n.tid].tgid, n.env.now, ExitBody(code, n.what.Killed?)))
  }

  /** The status a shell would report. */
  function ExitStatus(what: What): int
    requires what.Exited? || what.Killed?
  {
    if what.Exited? then what.code else 128 + what.signal
  }

  /** record_exit_status. */
  function RecordStatus(st: State, n: Notice): State
    requires n.what.Exited? || n.what.Killed?
  {
    if n.tid == st.root.tid then st.(root := st.root.(status := Some(ExitStatus(n.what)))) else st
  }

  /** The task is reported, its status recorded if it is the root, and its entry removed. */
  function Bury(cfg: Config, st: State, n: Notice): Outcome
    requires n.tid in st.tasks && (n.what.Exited? || n.what.Killed?)
  {
    if cfg.seccomp && n.tid == st.root.tid && !st.root.execObserved && n.what == Exited(126) then Failed
    else Fine(RemoveTask(RecordStatus(WriteExit(cfg, st, n), n), n.tid, LostAtExit))
  }

  // ----- trace_loop

  /** The part of a turn after the entry has been looked up. */
  function Dispatch(cfg: Config, st: State, n: Notice): StepResult {
    if n.tid !in st.tasks then Next(st)
    else if n.what.Continued? then Next(SetTask(st, n.tid, st.tasks[n.tid].(inStop := false)))
    else if n.what.Exited? || n.what.Killed? then
      match Bury(cfg, st, n) case Failed => Abort case Fine(buried) => Next(buried)
    else
      match HandleStop(cfg, st, n)
      case Unhandled => Abort
      case Handled(handled, signal, listen) => Resume(cfg, handled, n.tid, signal, listen, n.env)
  }

  function Step(cfg: Config, st: State, n: Notice): StepResult {
    if n.what.WaitInterrupted? then
      if n.env.shutdown != 0 then Halt(st, 128 + n.env.shutdown) else Next(st)
    else
      match Admit(cfg, st, n) case Failed => Abort case Fine(admitted) => Dispatch(cfg, admitted, n)
  }

  datatype RunResult = Running(st: State) | Drained(st: State, status: int) | Halted(st: State, status: int) | Aborted

  function FinalStatus(cfg: Config, st: State): int {
    if cfg.mode.Attach? then 0 else match st.root.status case Some(status) => status case None => 0
  }

  /** The loop head. */
  function LoopHead(cfg: Config, st: State): RunResult {
    if st.tasks == map[] then Drained(st, FinalStatus(cfg, st)) else Running(st)
  }

  function Advance(cfg: Config, r: RunResult, n: Notice): RunResult {
    if !r.Running? then r
    else
      match Step(cfg, r.st, n)
      case Next(st) => LoopHead(cfg, st)
      case Halt(st, status) => Halted(st, status)
      case Abort => Aborted
  }

  /** The state of the loop after the notices `run`, from the state `st`. */
  function After(cfg: Config, st: State, run: seq<Notice>): RunResult {
    if run == [] then LoopHead(cfg, st) else Advance(cfg, After(cfg, st, run[..|run| - 1]), run[|run| - 1])
  }

  /** One more notice. */
  lemma AfterMore(cfg: Config, st: State, run: seq<Notice>, n: Notice)
    ensures After(cfg, st, run + [n]) == Advance(cfg, After(cfg, st, run), n)
  {
    assert (run + [n])[..|run|] == run;
  }

  // ----- where a run starts

  const NO_HISTORY := History(0, [], [], [], [])

  /** sg_trace_run in launch mode, after the root has been resumed. */
  function LaunchState(cfg: Config, root: int): State {
    var t := NewTracee(0, root, false, false);
    var asked := RequestFor(cfg, t, false);
    State(map[root := t.(asked := asked)], {}, [], Statistics.EMPTY, 0, Root(root, None, false),
          NO_HISTORY.(births := 1, requests := [Request(root, 0, asked, 0, false)]))
  }

  /** sg_trace_run in attach mode, after the tasks of `pid` have been seized. */
  function AttachState(pid: int, tids: seq<int>): Outcome {
    if tids == [] then Fine(State(map[], {}, [], Statistics.EMPTY, 0, Root(pid, None, false), NO_HISTORY))
    else
      match AttachState(pid, tids[..|tids| - 1])
      case Failed => Failed
      case Fine(st) => AddTask(st, tids[|tids| - 1], pid, true, true)
  }
}
