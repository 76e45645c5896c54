/** Every line a turn prints, told from its notice: which remarks on signals, births and deaths it makes,
    whose calls it announces, and whose identity its records carry. */
module Chronicle {
  import opened Bits
  import opened Events
  import opened TraceModel
  import opened Ledger
  import Conservation
  import Reporting

  // ----- lines

  /** A line that is not about a call. */
  predicate IsRemark(r: Record) {
    r.Printed? && (r.line.Plain? || (r.line.JsonLine? && !r.line.event.body.SyscallBody?))
  }

  /** The remarks of a log, in order. */
  function Remarks(log: seq<Record>): seq<Line> {
    if log == [] then []
    else
      var last := log[|log| - 1];
      Remarks(log[..|log| - 1]) + if IsRemark(last) then [last.line] else []
  }

  lemma RemarksMore(log: seq<Record>, r: Record)
    ensures Remarks(log + [r]) == Remarks(log) + (if IsRemark(r) then [r.line] else [])
  {
    assert (log + [r])[..|log|] == log;
  }

  /** What a turn may print besides remarks: announcements of selected calls that are held at the TID
      named, and lines and records of the subject, with its thread group and the time of the event. */
  ghost predicate Proper(cfg: Config, r: Record, tasks: map<int, Tracee>, tid: int, tgid: int) {
    r.Printed? ==>
      match r.line
      case Unfinished(u, number, args) =>
        && u in tasks && Selected(cfg, number)
        && Held(tasks[u]).Some? && Held(tasks[u]).value.number == number && Held(tasks[u]).value.args == args
      case Resumed(u, _, _, _) => u == tid
      case Whole(u, _) => u == tid
      case Plain(u, _) => u == tid
      case JsonLine(e) =>
        e.tid == tid && e.tgid == tgid && (e.body.SyscallBody? ==> e.at == e.body.syscall.exitedAt)
  }

  /** The log grew by these remarks and by proper lines; only TIDs of `tasks` can be newly announced. */
  ghost predicate Says(cfg: Config, a: State, b: State, tasks: map<int, Tracee>, tid: int, tgid: int,
                       remarks: seq<Line>)
  {
    && a.log <= b.log && Remarks(b.log) == Remarks(a.log) + remarks
    && (forall k :: |a.log| <= k < |b.log| ==> Proper(cfg, b.log[k], tasks, tid, tgid))
    && b.open <= a.open + tasks.Keys
    && ((cfg.summary || !cfg.format.Text?) && a.open == {} ==> b.open == {})
  }

  lemma SaysTwice(cfg: Config, a: State, b: State, c: State, tasks: map<int, Tracee>, tid: int, tgid: int,
                  x: seq<Line>, y: seq<Line>)
    requires Says(cfg, a, b, tasks, tid, tgid, x) && Says(cfg, b, c, tasks, tid, tgid, y)
    ensures Says(cfg, a, c, tasks, tid, tgid, x + y)
  {
    forall k | |a.log| <= k < |c.log| ensures Proper(cfg, c.log[k], tasks, tid, tgid) {
      if k < |b.log| { assert c.log[k] == b.log[k]; }
    }
  }

  lemma SaysNothing(cfg: Config, a: State, b: State, tasks: map<int, Tracee>, tid: int, tgid: int)
    requires a.log == b.log && a.open == b.open
    ensures Says(cfg, a, b, tasks, tid, tgid, [])
  {
  }

  /** The remark an event makes in the configured form. */
  function Remark(cfg: Config, tid: int, tgid: int, at: Timespec, body: Body): seq<Line> {
    if cfg.summary then []
    else if cfg.format.Text? then [Plain(tid, body)]
    else [JsonLine(Event(tid, tgid, at, body))]
  }

  // ----- the writers

  lemma PrintSays(cfg: Config, st: State, r: State, line: Line, tasks: map<int, Tracee>, tid: int, tgid: int)
    requires r.log == st.log + [Printed(line)] && r.open <= st.open + tasks.Keys
    requires (cfg.summary || !cfg.format.Text?) && st.open == {} ==> r.open == {}
    requires Proper(cfg, Printed(line), tasks, tid, tgid)
    ensures Says(cfg, st, r, tasks, tid, tgid, if IsRemark(Printed(line)) then [line] else [])
  {
    RemarksMore(st.log, Printed(line));
  }

  /** An event that is not about a call. */
  lemma RemarkSays(cfg: Config, st: State, event: Event, tasks: map<int, Tracee>)
    requires !event.body.SyscallBody?
    ensures Says(cfg, st, Emit(cfg, st, event), tasks, event.tid, event.tgid,
                 Remark(cfg, event.tid, event.tgid, event.at, event.body))
    ensures event.body.ExitBody? && cfg.format.Text? && !cfg.summary ==> event.tid !in Emit(cfg, st, event).open
  {
    var r := Emit(cfg, st, event);
    if cfg.summary {
      SaysNothing(cfg, st, r, tasks, event.tid, event.tgid);
    } else if cfg.format.Text? {
      PrintSays(cfg, st, r, Plain(event.tid, event.body), tasks, event.tid, event.tgid);
    } else {
      PrintSays(cfg, st, r, JsonLine(event), tasks, event.tid, event.tgid);
    }
  }

  /** A completed call of the subject. */
  lemma CallSays(cfg: Config, st: State, event: Event, tasks: map<int, Tracee>)
    requires event.body.SyscallBody? && event.body.syscall.completed && event.at == event.body.syscall.exitedAt
    ensures Says(cfg, st, Emit(cfg, st, event), tasks, event.tid, event.tgid, [])
  {
    var r := Emit(cfg, st, event);
    if cfg.summary {
      SaysNothing(cfg, st, r, tasks, event.tid, event.tgid);
    } else {
      PrintSays(cfg, st, r, r.log[|st.log|].line, tasks, event.tid, event.tgid);
    }
  }

  /** The calls a flush can announce are those of `tasks`. */
  ghost predicate Announceable(now: map<int, Tracee>, except: int, tasks: map<int, Tracee>) {
    forall u | u in now && u != except && Held(now[u]).Some? :: u in tasks && Held(tasks[u]) == Held(now[u])
  }

  lemma FlushOneSays(cfg: Config, st: State, except: int, u: int, tasks: map<int, Tracee>, tid: int, tgid: int)
    requires Announceable(st.tasks, except, tasks)
    ensures Says(cfg, st, FlushOne(cfg, st, except, u), tasks, tid, tgid, [])
  {
    var r := FlushOne(cfg, st, except, u);
    if r.log != st.log {
      PrintSays(cfg, st, r, r.log[|st.log|].line, tasks, tid, tgid);
    } else {
      SaysNothing(cfg, st, r, tasks, tid, tgid);
    }
  }

  lemma {:induction false} FlushSlotsSays(cfg: Config, st: State, except: int, order: seq<int>, tasks: map<int, Tracee>,
                                          tid: int, tgid: int)
    requires Announceable(st.tasks, except, tasks)
    ensures Says(cfg, st, FlushSlots(cfg, st, except, order), tasks, tid, tgid, [])
  {
    if order == [] {
      SaysNothing(cfg, st, st, tasks, tid, tgid);
    } else {
      var before := FlushSlots(cfg, st, except, order[..|order| - 1]);
      FlushSlotsSays(cfg, st, except, order[..|order| - 1], tasks, tid, tgid);
      FlushOneSays(cfg, before, except, order[|order| - 1], tasks, tid, tgid);
      SaysTwice(cfg, st, before, FlushOne(cfg, before, except, order[|order| - 1]), tasks, tid, tgid, [], []);
    }
  }

  lemma FlushSays(cfg: Config, st: State, except: int, order: seq<int>, tasks: map<int, Tracee>, tid: int, tgid: int)
    requires Announceable(st.tasks, except, tasks)
    ensures Says(cfg, st, Flush(cfg, st, except, order), tasks, tid, tgid, [])
  {
    FlushSlotsSays(cfg, st, except, order, tasks, tid, tgid);
    SaysNothing(cfg, st, st, tasks, tid, tgid);
  }

  /** A flush and then a remark. */
  lemma AnnounceSays(cfg: Config, st: State, order: seq<int>, event: Event, tasks: map<int, Tracee>)
    requires Announceable(st.tasks, -1, tasks) && !event.body.SyscallBody?
    ensures Says(cfg, st, Emit(cfg, Flush(cfg, st, -1, order), event), tasks, event.tid, event.tgid,
                 Remark(cfg, event.tid, event.tgid, event.at, event.body))
    ensures event.body.ExitBody? && cfg.format.Text? && !cfg.summary ==>
              event.tid !in Emit(cfg, Flush(cfg, st, -1, order), event).open
  {
    var flushed := Flush(cfg, st, -1, order);
    FlushSays(cfg, st, -1, order, tasks, event.tid, event.tgid);
    RemarkSays(cfg, flushed, event, tasks);
    SaysTwice(cfg, st, flushed, Emit(cfg, flushed, event), tasks, event.tid, event.tgid, [],
              Remark(cfg, event.tid, event.tgid, event.at, event.body));
  }

  /** The same, where the lines so far are those of an earlier state. */
  lemma NotedSays(cfg: Config, a: State, st: State, order: seq<int>, event: Event, tasks: map<int, Tracee>, r: State)
    requires a.log == st.log && a.open == st.open && Announceable(st.tasks, -1, tasks) && !event.body.SyscallBody?
    requires r == Emit(cfg, Flush(cfg, st, -1, order), event)
    ensures Says(cfg, a, r, tasks, event.tid, event.tgid, Remark(cfg, event.tid, event.tgid, event.at, event.body))
  {
    AnnounceSays(cfg, st, order, event, tasks);
  }

  lemma WriteLineSays(cfg: Config, st: State, tid: int, s: SyscallEvent, order: seq<int>, tasks: map<int, Tracee>)
    requires tid in st.tasks && s.completed && Announceable(st.tasks, tid, tasks)
    ensures Says(cfg, st, WriteLine(cfg, st, tid, s, order), tasks, tid, st.tasks[tid].tgid, [])
  {
    var flushed := Flush(cfg, st, tid, order);
    FlushSays(cfg, st, tid, order, tasks, tid, st.tasks[tid].tgid);
    var event := Event(tid, st.tasks[tid].tgid, s.exitedAt, SyscallBody(s));
    CallSays(cfg, flushed, event, tasks);
    SaysTwice(cfg, st, flushed, Emit(cfg, flushed, event), tasks, tid, st.tasks[tid].tgid, [], []);
  }

  lemma WriteSays(cfg: Config, st: State, tid: int, s: SyscallEvent, order: seq<int>, tasks: map<int, Tracee>)
    requires tid in st.tasks && s.completed && Announceable(st.tasks, tid, tasks)
    ensures var o := WriteSyscall(cfg, st, tid, s, order);
            o.Fine? ==> Says(cfg, st, o.st, tasks, tid, st.tasks[tid].tgid, [])
  {
    if !Selected(cfg, s.number) || cfg.summary {
      WriteSilent(cfg, st, tid, s, order);
      var o := WriteSyscall(cfg, st, tid, s, order);
      if o.Fine? { SaysNothing(cfg, st, o.st, tasks, tid, st.tasks[tid].tgid); }
    } else {
      var counted := Reporting.CountedState(cfg, st, tid, s, order);
      WriteLineSays(cfg, counted, tid, s, order, tasks);
    }
  }

  lemma WriteSilent(cfg: Config, st: State, tid: int, s: SyscallEvent, order: seq<int>)
    requires tid in st.tasks && (!Selected(cfg, s.number) || cfg.summary)
    ensures var o := WriteSyscall(cfg, st, tid, s, order); o.Fine? ==> o.st.log == st.log && o.st.open == st.open
  {
  }

  // ----- entries, exits and events

  /** The subject is tracked, with its thread group, and everybody else holds what `tasks` says. */
  ghost predicate Around(now: map<int, Tracee>, tid: int, tgid: int, tasks: map<int, Tracee>) {
    tid in now && now[tid].tgid == tgid && Announceable(now, tid, tasks)
  }

  lemma CompletePendingSays(cfg: Config, st: State, tid: int, result: int, errorNumber: int, at: Timespec,
                            order: seq<int>, tasks: map<int, Tracee>)
    requires tid in st.tasks && Announceable(st.tasks, tid, tasks) && st.tasks[tid].pending.Some?
    ensures var o := CompletePending(cfg, st, tid, result, errorNumber, at, order);
            o.Fine? ==>
              && Says(cfg, st, o.st, tasks, tid, st.tasks[tid].tgid, [])
              && o.st.tasks == st.tasks[tid := st.tasks[tid].(pending := None)]
  {
    WriteSays(cfg, st, tid, Finished(st.tasks[tid].pending.value, result, errorNumber, at), order, tasks);
  }

  lemma CompleteInterruptedSays(cfg: Config, st: State, tid: int, result: int, errorNumber: int, at: Timespec,
                                order: seq<int>, tasks: map<int, Tracee>)
    requires tid in st.tasks && Announceable(st.tasks, tid, tasks) && st.tasks[tid].interrupted.Some?
    ensures var o := CompleteInterrupted(cfg, st, tid, result, errorNumber, at, order);
            o.Fine? ==>
              && Says(cfg, st, o.st, tasks, tid, st.tasks[tid].tgid, [])
              && o.st.tasks == st.tasks[tid := st.tasks[tid].(interrupted := None, restartReady := false)]
  {
    WriteSays(cfg, st, tid, Finished(st.tasks[tid].interrupted.value, result, errorNumber, at), order, tasks);
  }

  lemma DropsSay(cfg: Config, st: State, tid: int, reason: Reason, tasks: map<int, Tracee>, tgid: int)
    requires tid in st.tasks
    ensures Says(cfg, st, DropInterrupted(st, tid, reason), tasks, tid, tgid, [])
    ensures Says(cfg, st, RemoveTask(st, tid, reason), tasks, tid, tgid, [])
    ensures DropInterrupted(st, tid, reason).log == st.log && DropInterrupted(st, tid, reason).open == st.open
    ensures RemoveTask(st, tid, reason).log == st.log && RemoveTask(st, tid, reason).open == st.open
  {
  }

  lemma SettleSays(cfg: Config, st: State, tid: int, env: Env, tasks: map<int, Tracee>)
    requires tid in st.tasks && Announceable(st.tasks, tid, tasks)
    ensures var o := SettleExec(cfg, st, tid, env);
            o.Fine? ==>
              && Says(cfg, st, o.st, tasks, tid, st.tasks[tid].tgid, [])
              && Around(o.st.tasks, tid, st.tasks[tid].tgid, tasks)
  {
    if st.tasks[tid].pending.Some? {
      CompletePendingSays(cfg, st, tid, 0, 0, env.now, env.order, tasks);
    } else {
      SaysNothing(cfg, st, st, tasks, tid, st.tasks[tid].tgid);
    }
  }

  lemma ExposeSays(cfg: Config, st: State, tid: int, env: Env, tasks: map<int, Tracee>)
    requires tid in st.tasks && Announceable(st.tasks, tid, tasks)
    ensures var o := ExposeEintr(cfg, st, tid, env);
            o.Fine? ==>
              && Says(cfg, st, o.st, tasks, tid, st.tasks[tid].tgid, [])
              && Around(o.st.tasks, tid, st.tasks[tid].tgid, tasks)
  {
    if st.tasks[tid].interrupted.Some? && st.tasks[tid].restartReady {
      CompleteInterruptedSays(cfg, st, tid, -1, EINTR, env.now, env.order, tasks);
    } else {
      SaysNothing(cfg, st, st, tasks, tid, st.tasks[tid].tgid);
    }
  }

  lemma EnteringSays(cfg: Config, st: State, tid: int, number: int, args: seq<int>, env: Env, tasks: map<int, Tracee>)
    requires tid in st.tasks && Announceable(st.tasks, tid, tasks)
    ensures Says(cfg, st, FreshEntry(cfg, st, tid, number, args, env), tasks, tid, st.tasks[tid].tgid, [])
    ensures Says(cfg, st, Restart(cfg, st, tid, env.order), tasks, tid, st.tasks[tid].tgid, [])
  {
    FlushSays(cfg, st, tid, env.order, tasks, tid, st.tasks[tid].tgid);
    SaysNothing(cfg, st, st, tasks, tid, st.tasks[tid].tgid);
  }

  lemma BeginSays(cfg: Config, st: State, tid: int, number: nat, args: seq<int>, env: Env, tasks: map<int, Tracee>)
    requires tid in st.tasks && Announceable(st.tasks, tid, tasks)
    ensures var o := Begin(cfg, st, tid, number, args, env);
            o.Fine? ==> Says(cfg, st, o.st, tasks, tid, st.tasks[tid].tgid, [])
  {
    var tgid := st.tasks[tid].tgid;
    SettleSays(cfg, st, tid, env, tasks);
    var o := SettleExec(cfg, st, tid, env);
    if o.Fine? {
      EnteringSays(cfg, o.st, tid, number, args, env, tasks);
      SaysTwice(cfg, st, o.st, Restart(cfg, o.st, tid, env.order), tasks, tid, tgid, [], []);
      ExposeSays(cfg, o.st, tid, env, tasks);
      var e := ExposeEintr(cfg, o.st, tid, env);
      if e.Fine? {
        SaysTwice(cfg, st, o.st, e.st, tasks, tid, tgid, [], []);
        EnteringSays(cfg, e.st, tid, number, args, env, tasks);
        SaysTwice(cfg, st, e.st, FreshEntry(cfg, e.st, tid, number, args, env), tasks, tid, tgid, [], []);
      }
    }
  }

  lemma FinishSays(cfg: Config, st: State, tid: int, rval: int, isError: bool, env: Env, tasks: map<int, Tracee>)
    requires tid in st.tasks && Announceable(st.tasks, tid, tasks)
    ensures var o := Finish(cfg, st, tid, rval, isError, env);
            o.Fine? ==> Says(cfg, st, o.st, tasks, tid, st.tasks[tid].tgid, [])
  {
    var t := st.tasks[tid];
    if t.pending.None? {
      SaysNothing(cfg, st, st, tasks, tid, t.tgid);
    } else if IsRestartResult(rval) {
      DropsSay(cfg, st, tid, Replaced, tasks, t.tgid);
    } else {
      ConcludeSays(cfg, st, tid, rval, isError, env, tasks);
    }
  }

  lemma ConcludeSays(cfg: Config, st: State, tid: int, rval: int, isError: bool, env: Env, tasks: map<int, Tracee>)
    requires tid in st.tasks && Announceable(st.tasks, tid, tasks) && st.tasks[tid].pending.Some?
    ensures var o := Conclude(cfg, st, tid, rval, isError, env);
            o.Fine? ==> Says(cfg, st, o.st, tasks, tid, st.tasks[tid].tgid, [])
  {
    var t := st.tasks[tid];
    var number, at := t.pending.value.number, StampOf(cfg, t.pending.value.number, env.now);
    CompletePendingSays(cfg, st, tid, rval, ErrorNumber(rval, isError), at, env.order, tasks);
    var o := CompletePending(cfg, st, tid, rval, ErrorNumber(rval, isError), at, env.order);
    if o.Fine? { ConcludingSays(cfg, st, o.st, tid, number, tasks); }
  }

  lemma ConcludingSays(cfg: Config, st: State, done: State, tid: int, number: int, tasks: map<int, Tracee>)
    requires tid in st.tasks && tid in done.tasks && Says(cfg, st, done, tasks, tid, st.tasks[tid].tgid, [])
    ensures Says(cfg, st, AfterCompletion(done, tid, number), tasks, tid, st.tasks[tid].tgid, [])
  {
    DropsSay(cfg, done, tid, Superseded, tasks, st.tasks[tid].tgid);
    SaysNothing(cfg, done, AfterCompletion(done, tid, number), tasks, tid, st.tasks[tid].tgid);
    SaysTwice(cfg, st, done, AfterCompletion(done, tid, number), tasks, tid, st.tasks[tid].tgid, [], []);
  }

  lemma HandleExecSays(cfg: Config, st: State, tid: int, env: Env, tasks: map<int, Tracee>)
    requires tid in st.tasks && Announceable(st.tasks, tid, tasks)
    ensures var o := HandleExec(cfg, st, tid, env);
            o.Fine? ==> Says(cfg, st, o.st, tasks, tid, st.tasks[tid].tgid, [])
  {
    var seen := if tid == st.root.tid then st.(root := st.root.(execObserved := true)) else st;
    SaysNothing(cfg, st, seen, tasks, tid, st.tasks[tid].tgid);
    if seen.tasks[tid].pending.Some? { CompletePendingSays(cfg, seen, tid, 0, 0, env.now, env.order, tasks); }
  }

  // ----- a stop

  /** What a stop remarks on. */
  function Remarking(cfg: Config, t: Tracee, n: Notice): seq<Line> {
    match n.what
    case SignalStop(signal, Info(signo, code, address)) =>
      if t.newborn && signal == 19 then []
      else
        Remark(cfg, n.tid, t.tgid, n.env.now,
               SignalBody(signo, code, if code > 0 && FaultSignal(signo) then address else 0))
    case ChildStop(kind, child, _) => Remark(cfg, n.tid, t.tgid, n.env.now, StartBody(child, kind))
    case Exited(code) => Remark(cfg, n.tid, t.tgid, n.env.now, ExitBody(code, false))
    case Killed(signal) => Remark(cfg, n.tid, t.tgid, n.env.now, ExitBody(signal, true))
    case _ => []
  }

  /** The signals that carry a fault address: SIGILL, SIGTRAP, SIGBUS, SIGFPE and SIGSEGV. */
  predicate FaultSignal(signo: int) { signo == 4 || signo == 5 || signo == 7 || signo == 8 || signo == 11 }

  lemma SignalSays(cfg: Config, st: State, n: Notice)
    requires n.tid in st.tasks && n.what.SignalStop?
    ensures var r := HandleSignal(cfg, st, n.tid, n.what.signal, n.what.info, n.env);
            r.Handled? ==>
              Says(cfg, st, r.st, st.tasks, n.tid, st.tasks[n.tid].tgid, Remarking(cfg, st.tasks[n.tid], n))
  {
    var t, signal, info := st.tasks[n.tid], n.what.signal, n.what.info;
    var r := HandleSignal(cfg, st, n.tid, signal, info, n.env);
    if info.NoInfo? || (t.newborn && signal == SIGSTOP) {
      if r.Handled? { SaysNothing(cfg, st, r.st, st.tasks, n.tid, t.tgid); }
    } else {
      var marked := SetTask(st, n.tid, t.(newborn := false, pendingSignal := signal));
      var event := Event(n.tid, t.tgid, n.env.now, SignalBody(info.signo, info.code, FaultAddress(info)));
      NotedSays(cfg, st, marked, n.env.order, event, st.tasks, r.st);
    }
  }

  /** A birth is noted, and then printed behind a flush; the child holds nothing yet. */
  lemma ChildParts(cfg: Config, st: State, n: Notice) returns (added: State)
    requires n.tid in st.tasks && n.what.ChildStop?
    requires HandleChild(cfg, st, n.tid, n.what.kind, n.what.child, n.what.childTgid, n.env).Fine?
    ensures added.log == st.log && added.open == st.open && Announceable(added.tasks, -1, st.tasks)
    ensures HandleChild(cfg, st, n.tid, n.what.kind, n.what.child, n.what.childTgid, n.env) ==
            Fine(Emit(cfg, Flush(cfg, added, -1, n.env.order),
                      Event(n.tid, st.tasks[n.tid].tgid, n.env.now, StartBody(n.what.child, n.what.kind))))
  {
    var t, child, childTgid, kind := st.tasks[n.tid], n.what.child, n.what.childTgid, n.what.kind;
    var tgid := if childTgid > 0 then childTgid else if kind.Clone? then t.tgid else child;
    added := AddTask(st, child, tgid, t.attached, true).st;
  }

  lemma ChildSays(cfg: Config, st: State, n: Notice)
    requires n.tid in st.tasks && n.what.ChildStop?
    ensures var o := HandleChild(cfg, st, n.tid, n.what.kind, n.what.child, n.what.childTgid, n.env);
            o.Fine? ==>
              Says(cfg, st, o.st, st.tasks, n.tid, st.tasks[n.tid].tgid, Remarking(cfg, st.tasks[n.tid], n))
  {
    var t := st.tasks[n.tid];
    var o := HandleChild(cfg, st, n.tid, n.what.kind, n.what.child, n.what.childTgid, n.env);
    if o.Fine? {
      var added := ChildParts(cfg, st, n);
      var event := Event(n.tid, t.tgid, n.env.now, StartBody(n.what.child, n.what.kind));
      NotedSays(cfg, st, added, n.env.order, event, st.tasks, o.st);
    }
  }

  /** The same calls are held, whatever else is known of the tasks. */
  ghost predicate SameHeld(a: map<int, Tracee>, b: map<int, Tracee>) {
    a.Keys == b.Keys && forall u | u in a :: Held(a[u]) == Held(b[u])
  }

  lemma SaysSame(cfg: Config, a: State, b: State, x: map<int, Tracee>, y: map<int, Tracee>, tid: int, tgid: int,
                 remarks: seq<Line>)
    requires Says(cfg, a, b, x, tid, tgid, remarks) && SameHeld(x, y)
    ensures Says(cfg, a, b, y, tid, tgid, remarks)
  {
  }

  lemma CallStopSays(cfg: Config, st: State, n: Notice)
    requires n.tid in st.tasks && (Enters(n.what) || n.what.SyscallExit? || n.what.ExecStop?)
    ensures var r := HandleStop(cfg, st, n);
            r.Handled? ==> Says(cfg, st, r.st, st.tasks, n.tid, st.tasks[n.tid].tgid, [])
  {
    var stopped := SetTask(st, n.tid, st.tasks[n.tid].(inStop := true));
    match n.what
    case SyscallEntry(number, args) => BeginSays(cfg, stopped, n.tid, number, args, n.env, st.tasks);
    case SeccompStop(number, args) => BeginSays(cfg, stopped, n.tid, number, args, n.env, st.tasks);
    case SyscallExit(rval, isError) => FinishSays(cfg, stopped, n.tid, rval, isError, n.env, st.tasks);
    case ExecStop(_) => HandleExecSays(cfg, stopped, n.tid, n.env, st.tasks);
  }

  lemma ChildStopSays(cfg: Config, st: State, n: Notice)
    requires n.tid in st.tasks && n.what.ChildStop?
    ensures var r := HandleStop(cfg, st, n);
            r.Handled? ==>
              Says(cfg, st, r.st, st.tasks, n.tid, st.tasks[n.tid].tgid, Remarking(cfg, st.tasks[n.tid], n))
  {
    var t := st.tasks[n.tid];
    var stopped := SetTask(st, n.tid, t.(inStop := true));
    ChildSays(cfg, stopped, n);
    var o := HandleChild(cfg, stopped, n.tid, n.what.kind, n.what.child, n.what.childTgid, n.env);
    if o.Fine? { SaysSame(cfg, stopped, o.st, stopped.tasks, st.tasks, n.tid, t.tgid, Remarking(cfg, t, n)); }
  }

  lemma SignalStopSays(cfg: Config, st: State, n: Notice)
    requires n.tid in st.tasks && n.what.SignalStop?
    ensures var r := HandleStop(cfg, st, n);
            r.Handled? ==>
              Says(cfg, st, r.st, st.tasks, n.tid, st.tasks[n.tid].tgid, Remarking(cfg, st.tasks[n.tid], n))
  {
    var t := st.tasks[n.tid];
    var stopped := SetTask(st, n.tid, t.(inStop := true));
    SignalSays(cfg, stopped, n);
    var r := HandleSignal(cfg, stopped, n.tid, n.what.signal, n.what.info, n.env);
    if r.Handled? { SaysSame(cfg, stopped, r.st, stopped.tasks, st.tasks, n.tid, t.tgid, Remarking(cfg, t, n)); }
  }

  lemma StopSays(cfg: Config, st: State, n: Notice)
    requires n.tid in st.tasks && IsStop(n.what)
    ensures var r := HandleStop(cfg, st, n);
            r.Handled? ==>
              Says(cfg, st, r.st, st.tasks, n.tid, st.tasks[n.tid].tgid, Remarking(cfg, st.tasks[n.tid], n))
  {
    match n.what
    case SignalStop(_, _) => SignalStopSays(cfg, st, n);
    case ChildStop(_, _, _) => ChildStopSays(cfg, st, n);
    case EventStop(_) => SaysNothing(cfg, st, HandleStop(cfg, st, n).st, st.tasks, n.tid, st.tasks[n.tid].tgid);
    case BadSyscallInfo =>
    case OtherEvent =>
    case _ => CallStopSays(cfg, st, n);
  }

  // ----- whole turns

  /** One turn: silent without a subject, and otherwise as the notice tells. */
  ghost predicate Spoken(cfg: Config, st: State, n: Notice, r: State) {
    match Subject(cfg, st, n)
    case None => r.log == st.log && r.open == st.open
    case Some(t) =>
      && Says(cfg, st, r, Admitted(cfg, st, n), n.tid, t.tgid, Remarking(cfg, t, n))
      && GivesUp(cfg, n, r)
  }

  /** An exec and an exit leave no announcement under the TID that is given up. */
  ghost predicate GivesUp(cfg: Config, n: Notice, r: State) {
    && (n.what.ExecStop? && n.what.former != n.tid ==> n.what.former !in r.open)
    && ((n.what.Exited? || n.what.Killed?) && cfg.format.Text? && !cfg.summary ==> n.tid !in r.open)
  }

  lemma RenameSays(cfg: Config, st: State, former: int, tid: int, tasks: map<int, Tracee>, tgid: int)
    requires tid in tasks
    ensures Says(cfg, st, RenameOpen(st, former, tid), tasks, tid, tgid, [])
  {
    if former != tid && former in st.open {
      RemarksMore(st.log, Renamed(former, tid));
    } else {
      SaysNothing(cfg, st, RenameOpen(st, former, tid), tasks, tid, tgid);
    }
  }

  /** The announcement of the exec'ing thread goes with it, and nothing else is printed. */
  lemma MigrateLines(cfg: Config, st: State, tid: int, former: int)
    ensures var o, renamed := MigrateExec(cfg, st, tid, former), RenameOpen(st, former, tid);
            o.Fine? ==> o.st.log == renamed.log && o.st.open == renamed.open
  {
    if former in st.tasks && tid in st.tasks { DropsSay(cfg, st, tid, LostAtExec, map[], 0); }
  }

  lemma AdmitLines(cfg: Config, st: State, n: Notice)
    requires !n.what.WaitInterrupted?
    ensures var o := Admit(cfg, st, n);
            var renamed := RenameOpen(st, if n.what.ExecStop? then n.what.former else n.tid, n.tid);
            o.Fine? ==> o.st.log == renamed.log && o.st.open == renamed.open
  {
    if n.what.ExecStop? { MigrateLines(cfg, st, n.tid, n.what.former); }
  }

  lemma AdmitSays(cfg: Config, st: State, n: Notice)
    requires !n.what.WaitInterrupted? && Subject(cfg, st, n).Some?
    ensures var o := Admit(cfg, st, n);
            o.Fine? ==> Says(cfg, st, o.st, Admitted(cfg, st, n), n.tid, Subject(cfg, st, n).value.tgid, [])
  {
    AdmitLines(cfg, st, n);
    RenameSays(cfg, st, if n.what.ExecStop? then n.what.former else n.tid, n.tid, Admitted(cfg, st, n),
               Subject(cfg, st, n).value.tgid);
  }

  lemma ResumeSilent(cfg: Config, st: State, tid: int, signal: int, listen: bool, env: Env)
    ensures var r := Resume(cfg, st, tid, signal, listen, env); !r.Abort? ==> r.st.log == st.log && r.st.open == st.open
  {
  }

  lemma DispatchSays(cfg: Config, st: State, n: Notice)
    requires n.tid in st.tasks && IsStop(n.what)
    ensures var r := Dispatch(cfg, st, n);
            !r.Abort? ==>
              Says(cfg, st, r.st, st.tasks, n.tid, st.tasks[n.tid].tgid, Remarking(cfg, st.tasks[n.tid], n))
  {
    StopSays(cfg, st, n);
    var h := HandleStop(cfg, st, n);
    if h.Handled? { ResumeSilent(cfg, h.st, n.tid, h.signal, h.listen, n.env); }
  }

  /** A death is printed behind a flush, and ends the announcement of its TID. */
  lemma BurySays(cfg: Config, st: State, n: Notice)
    requires n.tid in st.tasks && (n.what.Exited? || n.what.Killed?)
    ensures var o := Bury(cfg, st, n);
            o.Fine? ==>
              && Says(cfg, st, o.st, st.tasks, n.tid, st.tasks[n.tid].tgid, Remarking(cfg, st.tasks[n.tid], n))
              && (cfg.format.Text? && !cfg.summary ==> n.tid !in o.st.open)
  {
    var code := if n.what.Exited? then n.what.code else n.what.signal;
    var event := Event(n.tid, st.tasks[n.tid].tgid, n.env.now, ExitBody(code, n.what.Killed?));
    AnnounceSays(cfg, st, n.env.order, event, st.tasks);
    DropsSay(cfg, RecordStatus(WriteExit(cfg, st, n), n), n.tid, LostAtExit, st.tasks, 0);
  }

  lemma StepSpoken(cfg: Config, st: State, n: Notice)
    ensures var r := Step(cfg, st, n); !r.Abort? ==> Spoken(cfg, st, n, r.st)
  {
    if !n.what.WaitInterrupted? {
      AdmitAdds(cfg, st, n);
      var o := Admit(cfg, st, n);
      if o.Fine? {
        if n.tid in o.st.tasks {
          SubjectSpoken(cfg, st, o.st, n);
        } else {
          AdmitLines(cfg, st, n);
        }
      }
    }
  }

  lemma SubjectSays(cfg: Config, st: State, n: Notice)
    requires !n.what.WaitInterrupted? && n.tid in st.tasks
    ensures var r := Dispatch(cfg, st, n);
            !r.Abort? ==>
              && Says(cfg, st, r.st, st.tasks, n.tid, st.tasks[n.tid].tgid, Remarking(cfg, st.tasks[n.tid], n))
              && ((n.what.Exited? || n.what.Killed?) && cfg.format.Text? && !cfg.summary ==> n.tid !in r.st.open)
  {
    if n.what.Continued? {
      SaysNothing(cfg, st, Dispatch(cfg, st, n).st, st.tasks, n.tid, st.tasks[n.tid].tgid);
    } else if IsStop(n.what) {
      DispatchSays(cfg, st, n);
    } else {
      BurySays(cfg, st, n);
    }
  }

  lemma SpokenBy(cfg: Config, st: State, admitted: State, n: Notice, r: State)
    requires !n.what.WaitInterrupted? && Subject(cfg, st, n).Some?
    requires var former := if n.what.ExecStop? then n.what.former else n.tid;
            admitted.log == RenameOpen(st, former, n.tid).log && admitted.open == RenameOpen(st, former, n.tid).open
    requires var t := Subject(cfg, st, n).value;
            && Says(cfg, st, admitted, Admitted(cfg, st, n), n.tid, t.tgid, [])
            && Says(cfg, admitted, r, Admitted(cfg, st, n), n.tid, t.tgid, Remarking(cfg, t, n))
    requires (n.what.Exited? || n.what.Killed?) && cfg.format.Text? && !cfg.summary ==> n.tid !in r.open
    ensures Spoken(cfg, st, n, r)
  {
    var t := Subject(cfg, st, n).value;
    SaysTwice(cfg, st, admitted, r, Admitted(cfg, st, n), n.tid, t.tgid, [], Remarking(cfg, t, n));
  }

  lemma SubjectSpoken(cfg: Config, st: State, admitted: State, n: Notice)
    requires !n.what.WaitInterrupted? && Admit(cfg, st, n) == Fine(admitted) && n.tid in admitted.tasks
    requires admitted.tasks == Admitted(cfg, st, n) && Subject(cfg, st, n).Some?
    ensures var r := Dispatch(cfg, admitted, n); !r.Abort? ==> Spoken(cfg, st, n, r.st)
  {
    AdmitSays(cfg, st, n);
    AdmitLines(cfg, st, n);
    SubjectSays(cfg, admitted, n);
    var r := Dispatch(cfg, admitted, n);
    if !r.Abort? { SpokenBy(cfg, st, admitted, n, r.st); }
  }

  // ----- whole runs

  /** The remarks that the notices of the run ask for, in order. */
  function AllRemarks(cfg: Config, st: State, run: seq<Notice>): seq<Line> {
    if run == [] then []
    else
      var front, n := run[..|run| - 1], run[|run| - 1];
      var r := After(cfg, st, front);
      AllRemarks(cfg, st, front) +
      if r.Running? && Subject(cfg, r.st, n).Some? then Remarking(cfg, Subject(cfg, r.st, n).value, n) else []
  }

  /** The remarks are those, every announcement is of an entered call, and whoever has an announcement
      outstanding is still tracked. */
  ghost predicate Chronicled(cfg: Config, remarks: seq<Line>, st: State) {
    && Remarks(st.log) == remarks
    && (forall k :: 0 <= k < |st.log| ==> AnnouncesEntry(st.log[k], st.history.entries))
    && Traceable(cfg, st)
  }

  ghost predicate Traceable(cfg: Config, st: State) {
    st.open <= st.tasks.Keys && (cfg.summary || !cfg.format.Text? ==> st.open == {})
  }

  ghost predicate AnnouncesEntry(r: Record, entries: seq<Entry>) {
    r.Printed? && r.line.Unfinished? ==>
      exists i :: 0 <= i < |entries| && entries[i].number == r.line.number && entries[i].args == r.line.args
  }

  lemma LastSpoken(cfg: Config, st: State, run: seq<Notice>)
    requires run != [] && !After(cfg, st, run).Aborted?
    ensures var r, s := After(cfg, st, run[..|run| - 1]), After(cfg, st, run);
            && !r.Aborted? && (!r.Running? ==> s == r)
            && (r.Running? ==> Spoken(cfg, r.st, run[|run| - 1], s.st) && Told(cfg, r.st, run[|run| - 1], s.st))
  {
    var r := After(cfg, st, run[..|run| - 1]);
    if r.Running? {
      StepSpoken(cfg, r.st, run[|run| - 1]);
      LastTold(cfg, st, run);
    }
  }

  /** Who was announced in a turn holds a call that had been entered before. */
  lemma AnnouncedEntered(cfg: Config, st: State, n: Notice, r: Record, tgid: int)
    requires Conservation.Balanced(st) && Proper(cfg, r, Admitted(cfg, st, n), n.tid, tgid)
    ensures AnnouncesEntry(r, st.history.entries)
  {
    if r.Printed? && r.line.Unfinished? {
      var u := r.line.tid;
      var moved := n.what.ExecStop? && n.what.former != n.tid && u == n.tid && n.what.former in st.tasks;
      var former := if moved then n.what.former else u;
      assert former in st.tasks ==> Conservation.GoodTask(st.history, st.tasks[former]);
    }
  }

  lemma EntriesGrow(a: seq<Entry>, b: seq<Entry>, x: seq<Arrival>)
    requires ArrivalsOf(b) == ArrivalsOf(a) + x
    ensures forall r :: AnnouncesEntry(r, a) ==> AnnouncesEntry(r, b)
  {
    assert |ArrivalsOf(b)| == |a| + |x|;
    forall i | 0 <= i < |a| ensures b[i].number == a[i].number && b[i].args == a[i].args {
      assert ArrivalsOf(b)[i] == ArrivalsOf(a)[i];
    }
    forall r | AnnouncesEntry(r, a) ensures AnnouncesEntry(r, b) {
      if r.Printed? && r.line.Unfinished? {
        var i :| 0 <= i < |a| && a[i].number == r.line.number && a[i].args == r.line.args;
        assert b[i].number == r.line.number;
      }
    }
  }

  /** The announcements of one more turn. */
  lemma AnnouncementsEntered(cfg: Config, st: State, n: Notice, r: State)
    requires Conservation.Balanced(st) && Spoken(cfg, st, n, r) && Told(cfg, st, n, r)
    requires forall k :: 0 <= k < |st.log| ==> AnnouncesEntry(st.log[k], st.history.entries)
    ensures forall k :: 0 <= k < |r.log| ==> AnnouncesEntry(r.log[k], r.history.entries)
  {
    EntriesGrow(st.history.entries, r.history.entries, Arriving(cfg, st, n));
    forall k | 0 <= k < |r.log| ensures AnnouncesEntry(r.log[k], st.history.entries) {
      if k < |st.log| {
        assert r.log[k] == st.log[k];
      } else {
        AnnouncedEntered(cfg, st, n, r.log[k], Subject(cfg, st, n).value.tgid);
      }
    }
  }

  lemma StepTraceable(cfg: Config, st: State, n: Notice, r: State)
    requires Traceable(cfg, st) && Spoken(cfg, st, n, r) && Told(cfg, st, n, r)
    ensures Traceable(cfg, r)
  {
  }

  lemma StepRemarks(cfg: Config, st: State, n: Notice, r: State)
    requires Spoken(cfg, st, n, r)
    ensures Remarks(r.log) ==
            Remarks(st.log) +
            (if Subject(cfg, st, n).Some? then Remarking(cfg, Subject(cfg, st, n).value, n) else [])
  {
  }

  lemma ChronicledMore(cfg: Config, start: State, run: seq<Notice>, r: RunResult, s: RunResult)
    requires run != [] && r == After(cfg, start, run[..|run| - 1]) && s == After(cfg, start, run) && !s.Aborted?
    requires !r.Aborted? && Conservation.Balanced(r.st)
    requires Chronicled(cfg, AllRemarks(cfg, start, run[..|run| - 1]), r.st)
    ensures Chronicled(cfg, AllRemarks(cfg, start, run), s.st)
  {
    LastSpoken(cfg, start, run);
    if r.Running? {
      StepRemarks(cfg, r.st, run[|run| - 1], s.st);
      AnnouncementsEntered(cfg, r.st, run[|run| - 1], s.st);
      StepTraceable(cfg, r.st, run[|run| - 1], s.st);
    }
  }

  /** Over every run: the remarks are those its notices ask for, in order; every announcement is of a
      call that was entered; and nobody untracked has one outstanding. */
  lemma {:induction false} RunChronicled(cfg: Config, start: State, run: seq<Notice>)
    requires Conservation.Balanced(start) && start.log == [] && start.open == {}
    ensures var r := After(cfg, start, run); !r.Aborted? ==> Chronicled(cfg, AllRemarks(cfg, start, run), r.st)
  {
    if run != [] && !After(cfg, start, run).Aborted? {
      LastSpoken(cfg, start, run);
      RunChronicled(cfg, start, run[..|run| - 1]);
      Conservation.RunBalanced(cfg, start, run[..|run| - 1]);
      ChronicledMore(cfg, start, run, After(cfg, start, run[..|run| - 1]), After(cfg, start, run));
    }
  }
}
