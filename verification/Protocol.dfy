/** The unfinished/resumed protocol of the text output, as a small automaton over the log. */
module Protocol {
  import opened Bits
  import opened Events
  import opened TraceModel

  /** A call announced as unfinished. */
  datatype Announced = Announced(number: int, args: seq<int>)

  function Observe(open: map<int, Announced>, r: Record): map<int, Announced> {
    match r
    case Printed(Unfinished(tid, number, args)) => open[tid := Announced(number, args)]
    case Printed(Resumed(tid, _, _, _)) => open - {tid}
    case Printed(Plain(tid, ExitBody(_, _))) => open - {tid}
    case Renamed(former, current) =>
      if former !in open then open
      else if current in open then open - {former}
      else (open - {former})[current := open[former]]
    case _ => open
  }

  /** The announcements still outstanding after the log. */
  function Outstanding(log: seq<Record>): map<int, Announced> {
    if log == [] then map[] else Observe(Outstanding(log[..|log| - 1]), log[|log| - 1])
  }

  /** A task is announced only when it is not already, resumed only when it is, and completes in one
      line only when it is not. */
  ghost predicate Allowed(open: map<int, Announced>, r: Record) {
    match r
    case Printed(Unfinished(tid, _, _)) => tid !in open
    case Printed(Resumed(tid, _, _, _)) => tid in open
    case Printed(Whole(tid, _)) => tid !in open
    case Renamed(former, current) => former in open && former != current
    case _ => true
  }

  ghost predicate Legal(log: seq<Record>) {
    forall k :: 0 <= k < |log| ==> Allowed(Outstanding(log[..k]), log[k])
  }

  /** The list of TIDs kept by the writer is exactly the set of outstanding announcements. */
  ghost predicate Disciplined(st: State) {
    Legal(st.log) && Outstanding(st.log).Keys == st.open
  }

  lemma LegalMore(log: seq<Record>, r: Record)
    requires Legal(log) && Allowed(Outstanding(log), r)
    ensures Legal(log + [r]) && Outstanding(log + [r]) == Observe(Outstanding(log), r)
  {
    var more := log + [r];
    assert more[..|log|] == log;
    forall k | 0 <= k < |more| ensures Allowed(Outstanding(more[..k]), more[k]) {
      if k < |log| { assert more[..k] == log[..k]; }
    }
  }

  /** Only the output matters. */
  lemma SameOutput(a: State, b: State)
    requires Disciplined(a) && a.log == b.log && a.open == b.open
    ensures Disciplined(b)
  {
  }

  lemma PrintDisciplined(st: State, line: Line, after: State)
    requires Disciplined(st) && Allowed(Outstanding(st.log), Printed(line))
    requires after.log == st.log + [Printed(line)] && after.open == Observe(Outstanding(st.log), Printed(line)).Keys
    ensures Disciplined(after)
  {
    LegalMore(st.log, Printed(line));
  }

  lemma WriteTextDisciplined(st: State, event: Event)
    requires Disciplined(st)
    ensures Disciplined(WriteText(st, event))
  {
    var tid, after := event.tid, WriteText(st, event);
    match event.body
    case SyscallBody(s) =>
      if !s.completed {
        if tid !in st.open { PrintDisciplined(st, Unfinished(tid, s.number, s.args), after); }
      } else if tid in st.open {
        PrintDisciplined(st, Resumed(tid, s.number, s.result, s.errorNumber), after);
      } else {
        PrintDisciplined(st, Whole(tid, s), after);
      }
    case _ => PrintDisciplined(st, Plain(tid, event.body), after);
  }

  lemma EmitDisciplined(cfg: Config, st: State, event: Event)
    requires Disciplined(st)
    ensures Disciplined(Emit(cfg, st, event))
  {
    WriteTextDisciplined(st, event);
    PrintDisciplined(st, JsonLine(event), Print(st, JsonLine(event)));
  }

  lemma {:induction false} FlushDisciplined(cfg: Config, st: State, except: int, order: seq<int>)
    requires Disciplined(st)
    ensures Disciplined(FlushSlots(cfg, st, except, order)) && Disciplined(Flush(cfg, st, except, order))
  {
    if order != [] {
      FlushDisciplined(cfg, st, except, order[..|order| - 1]);
      var before := FlushSlots(cfg, st, except, order[..|order| - 1]);
      var tid := order[|order| - 1];
      if tid in before.tasks && Held(before.tasks[tid]).Some? {
        EmitDisciplined(cfg, before, Announcement(tid, before.tasks[tid], Held(before.tasks[tid]).value));
      }
    }
  }

  lemma FlushEmitDisciplined(cfg: Config, st: State, except: int, order: seq<int>, event: Event)
    requires Disciplined(st)
    ensures Disciplined(Emit(cfg, Flush(cfg, st, except, order), event))
  {
    FlushDisciplined(cfg, st, except, order);
    EmitDisciplined(cfg, Flush(cfg, st, except, order), event);
  }

  lemma WriteDisciplined(cfg: Config, st: State, tid: int, s: SyscallEvent, order: seq<int>)
    requires Disciplined(st) && tid in st.tasks
    ensures var o := WriteSyscall(cfg, st, tid, s, order); o.Fine? ==> Disciplined(o.st)
  {
    FlushEmitDisciplined(cfg, st.(events := (st.events + 1) % TWO_64), tid, order,
                         Event(tid, st.tasks[tid].tgid, s.exitedAt, SyscallBody(s)));
  }

  lemma RenameDisciplined(st: State, former: int, current: int)
    requires Disciplined(st)
    ensures Disciplined(RenameOpen(st, former, current))
  {
    if former != current && former in st.open { LegalMore(st.log, Renamed(former, current)); }
  }

  lemma CompletePendingDisciplined(cfg: Config, st: State, tid: int, result: int, errorNumber: int, at: Timespec,
                                   order: seq<int>)
    requires Disciplined(st) && tid in st.tasks && st.tasks[tid].pending.Some?
    ensures var o := CompletePending(cfg, st, tid, result, errorNumber, at, order); o.Fine? ==> Disciplined(o.st)
  {
    WriteDisciplined(cfg, st, tid, Finished(st.tasks[tid].pending.value, result, errorNumber, at), order);
  }

  lemma BeginDisciplined(cfg: Config, st: State, tid: int, number: nat, args: seq<int>, env: Env)
    requires Disciplined(st) && tid in st.tasks
    ensures var o := Begin(cfg, st, tid, number, args, env); o.Fine? ==> Disciplined(o.st)
  {
    if st.tasks[tid].pending.Some? { CompletePendingDisciplined(cfg, st, tid, 0, 0, env.now, env.order); }
    var settled := SettleExec(cfg, st, tid, env);
    if settled.Fine? {
      FlushDisciplined(cfg, settled.st, tid, env.order);
      var t := settled.st.tasks[tid];
      if !Restarts(t, number) {
        if t.interrupted.Some? {
          WriteDisciplined(cfg, settled.st, tid, Finished(t.interrupted.value, -1, EINTR, env.now), env.order);
        }
        var exposed := ExposeEintr(cfg, settled.st, tid, env);
        if exposed.Fine? { FlushDisciplined(cfg, exposed.st, tid, env.order); }
      }
    }
  }

  lemma ConcludeDisciplined(cfg: Config, st: State, tid: int, rval: int, isError: bool, env: Env)
    requires Disciplined(st) && tid in st.tasks && st.tasks[tid].pending.Some?
    ensures var o := Conclude(cfg, st, tid, rval, isError, env); o.Fine? ==> Disciplined(o.st)
  {
    var call := st.tasks[tid].pending.value;
    var errorNumber := ErrorNumber(rval, isError);
    var at := StampOf(cfg, call.number, env.now);
    CompletePendingDisciplined(cfg, st, tid, rval, errorNumber, at, env.order);
    ConcludingDisciplined(CompletePending(cfg, st, tid, rval, errorNumber, at, env.order), tid, call.number);
  }

  lemma ConcludingDisciplined(o: Outcome, tid: int, number: int)
    requires o.Fine? ==> tid in o.st.tasks && Disciplined(o.st)
    ensures var c := Concluding(o, tid, number); c.Fine? ==> Disciplined(c.st)
  {
    if o.Fine? { SameOutput(o.st, AfterCompletion(o.st, tid, number)); }
  }

  lemma FinishDisciplined(cfg: Config, st: State, tid: int, rval: int, isError: bool, env: Env)
    requires Disciplined(st) && tid in st.tasks
    ensures var o := Finish(cfg, st, tid, rval, isError, env); o.Fine? ==> Disciplined(o.st)
  {
    SameOutput(st, SetAside(st, tid));
    if st.tasks[tid].pending.Some? { ConcludeDisciplined(cfg, st, tid, rval, isError, env); }
  }

  lemma MigrateDisciplined(cfg: Config, st: State, tid: int, former: int)
    requires Disciplined(st)
    ensures var o := MigrateExec(cfg, st, tid, former); o.Fine? ==> Disciplined(o.st)
  {
    if former != tid {
      if former in st.tasks {
        var cleared := if tid in st.tasks then RemoveTask(st, tid, LostAtExec) else st;
        var moved := cleared.(tasks := cleared.tasks - {former});
        RenameDisciplined(SetTask(moved, tid, st.tasks[former].(tgid := tid, newborn := false)), former, tid);
      } else if tid in st.tasks {
        RenameDisciplined(SetTask(st, tid, st.tasks[tid].(tgid := tid, newborn := false)), former, tid);
      } else {
        var o := AddTask(st, tid, tid, cfg.mode.Attach?, false);
        if o.Fine? { RenameDisciplined(o.st, former, tid); }
      }
    }
  }

  lemma HandleExecDisciplined(cfg: Config, st: State, tid: int, env: Env)
    requires Disciplined(st) && tid in st.tasks
    ensures var o := HandleExec(cfg, st, tid, env); o.Fine? ==> Disciplined(o.st)
  {
    var seen := if tid == st.root.tid then st.(root := st.root.(execObserved := true)) else st;
    if seen.tasks[tid].pending.Some? { CompletePendingDisciplined(cfg, seen, tid, 0, 0, env.now, env.order); }
  }

  lemma HandleChildDisciplined(cfg: Config, st: State, tid: int, kind: ChildKind, child: nat, childTgid: int, env: Env)
    requires Disciplined(st) && tid in st.tasks
    ensures var o := HandleChild(cfg, st, tid, kind, child, childTgid, env); o.Fine? ==> Disciplined(o.st)
  {
    var t := st.tasks[tid];
    var o := AddTask(st, child, if childTgid > 0 then childTgid else if kind.Clone? then t.tgid else child,
                     t.attached, true);
    if o.Fine? { FlushEmitDisciplined(cfg, o.st, -1, env.order, Event(tid, t.tgid, env.now, StartBody(child, kind))); }
  }

  lemma HandleSignalDisciplined(cfg: Config, st: State, tid: int, signal: int, info: SigInfo, env: Env)
    requires Disciplined(st) && tid in st.tasks
    ensures var r := HandleSignal(cfg, st, tid, signal, info, env); r.Handled? ==> Disciplined(r.st)
  {
    if info.Info? {
      var t := st.tasks[tid];
      FlushEmitDisciplined(cfg, SetTask(st, tid, t.(newborn := false, pendingSignal := signal)), -1, env.order,
                           Event(tid, t.tgid, env.now, SignalBody(info.signo, info.code, FaultAddress(info))));
    }
  }

  ghost predicate DisciplinedAfter(r: Handled) { r.Handled? ==> Disciplined(r.st) }

  lemma PlainlyDisciplined(o: Outcome)
    requires o.Fine? ==> Disciplined(o.st)
    ensures DisciplinedAfter(Plainly(o))
  {
  }

  lemma SyscallStopDisciplined(cfg: Config, st: State, n: Notice)
    requires Disciplined(st) && n.tid in st.tasks
    requires (n.what.SyscallEntry? || n.what.SyscallExit? || n.what.SeccompStop?)
    ensures DisciplinedAfter(HandleStop(cfg, st, n))
  {
    var stopped := SetTask(st, n.tid, st.tasks[n.tid].(inStop := true));
    SameOutput(st, stopped);
    if n.what.SyscallExit? {
      FinishDisciplined(cfg, stopped, n.tid, n.what.rval, n.what.isError, n.env);
      PlainlyDisciplined(Finish(cfg, stopped, n.tid, n.what.rval, n.what.isError, n.env));
    } else {
      BeginDisciplined(cfg, stopped, n.tid, n.what.number, n.what.args, n.env);
      PlainlyDisciplined(Begin(cfg, stopped, n.tid, n.what.number, n.what.args, n.env));
    }
  }

  lemma HandleStopDisciplined(cfg: Config, st: State, n: Notice)
    requires Disciplined(st) && n.tid in st.tasks
    ensures DisciplinedAfter(HandleStop(cfg, st, n))
  {
    if n.what.SyscallEntry? || n.what.SyscallExit? || n.what.SeccompStop? {
      SyscallStopDisciplined(cfg, st, n);
    } else {
      var t := st.tasks[n.tid];
      var stopped := SetTask(st, n.tid, t.(inStop := true));
      SameOutput(st, stopped);
      match n.what
      case EventStop(_) => SameOutput(st, SetTask(stopped, n.tid, t.(inStop := true, newborn := false)));
      case ExecStop(_) =>
        HandleExecDisciplined(cfg, stopped, n.tid, n.env);
        PlainlyDisciplined(HandleExec(cfg, stopped, n.tid, n.env));
      case ChildStop(kind, child, childTgid) =>
        HandleChildDisciplined(cfg, stopped, n.tid, kind, child, childTgid, n.env);
        PlainlyDisciplined(HandleChild(cfg, stopped, n.tid, kind, child, childTgid, n.env));
      case SignalStop(signal, info) => HandleSignalDisciplined(cfg, stopped, n.tid, signal, info, n.env);
      case _ =>
    }
  }

  lemma BuryDisciplined(cfg: Config, st: State, n: Notice)
    requires Disciplined(st) && n.tid in st.tasks && (n.what.Exited? || n.what.Killed?)
    ensures var o := Bury(cfg, st, n); o.Fine? ==> Disciplined(o.st)
  {
    var code := if n.what.Exited? then n.what.code else n.what.signal;
    FlushEmitDisciplined(cfg, st, -1, n.env.order,
                         Event(n.tid, st.tasks[n.tid].tgid, n.env.now, ExitBody(code, n.what.Killed?)));
  }

  lemma AdmitDisciplined(cfg: Config, st: State, n: Notice)
    requires Disciplined(st)
    ensures var o := Admit(cfg, st, n); o.Fine? ==> Disciplined(o.st)
  {
    if n.what.ExecStop? { MigrateDisciplined(cfg, st, n.tid, n.what.former); }
  }

  lemma ResumeDisciplined(cfg: Config, st: State, tid: int, signal: int, listen: bool, env: Env)
    requires Disciplined(st)
    ensures var r := Resume(cfg, st, tid, signal, listen, env); !r.Abort? ==> Disciplined(r.st)
  {
  }

  lemma StepDisciplined(cfg: Config, st: State, n: Notice)
    requires Disciplined(st)
    ensures var r := Step(cfg, st, n); !r.Abort? ==> Disciplined(r.st)
  {
    if !n.what.WaitInterrupted? {
      AdmitDisciplined(cfg, st, n);
      var o := Admit(cfg, st, n);
      if o.Fine? && n.tid in o.st.tasks {
        if n.what.Exited? || n.what.Killed? {
          BuryDisciplined(cfg, o.st, n);
        } else if !n.what.Continued? {
          HandleStopDisciplined(cfg, o.st, n);
          var h := HandleStop(cfg, o.st, n);
          if h.Handled? { ResumeDisciplined(cfg, h.st, n.tid, h.signal, h.listen, n.env); }
        }
      }
    }
  }

  /** Over every run: unfinished lines of a TID, followed through exec renamings, are separated by a
      resumed or an exit line, and a call whose start was announced is never printed whole. */
  lemma {:induction false} RunDisciplined(cfg: Config, st: State, run: seq<Notice>)
    requires Disciplined(st)
    ensures var r := After(cfg, st, run); !r.Aborted? ==> Disciplined(r.st)
  {
    if run != [] {
      RunDisciplined(cfg, st, run[..|run| - 1]);
      var r := After(cfg, st, run[..|run| - 1]);
      if r.Running? { StepDisciplined(cfg, r.st, run[|run| - 1]); }
    }
  }
}
