/** A resumed line names the call that was announced for its TID, as long as that TID itself had no
    selected call set aside by a restart pseudo-error and took no part in an exec that changes a TID.
    What other tasks do is of no account. */
module Naming {
  import opened Bits
  import opened Events
  import opened TraceModel
  import opened Protocol
  import opened Interleaving
  import Reporting

  ghost predicate ResumesByName(open: map<int, Announced>, r: Record) {
    r.Printed? && r.line.Resumed? ==> r.line.tid in open && open[r.line.tid].number == r.line.number
  }

  /** Every resumed line of `u` names the syscall of the unfinished line it belongs to. */
  ghost predicate NamesAgree(log: seq<Record>, u: int) {
    forall k :: 0 <= k < |log| && log[k].Printed? && log[k].line.Resumed? && log[k].line.tid == u ==>
      ResumesByName(Outstanding(log[..k]), log[k])
  }

  /** An outstanding announcement of `u` is its pending call. */
  ghost predicate Named(cfg: Config, st: State, u: int) {
    u in st.open ==>
      && u in st.tasks && HoldsSelected(cfg, st.tasks[u]) && u in Outstanding(st.log)
      && Outstanding(st.log)[u] == Announced(st.tasks[u].pending.value.number, st.tasks[u].pending.value.args)
  }

  ghost predicate NoneShownAside(cfg: Config, t: Tracee) {
    t.interrupted.Some? ==> !Selected(cfg, t.interrupted.value.number)
  }

  ghost predicate Sincere(cfg: Config, st: State, u: int) {
    && Disciplined(st) && Named(cfg, st, u) && NamesAgree(st.log, u)
    && (u in st.tasks ==> NoneShownAside(cfg, st.tasks[u]))
  }

  // ----- records that do not concern a TID

  /** The record opens, closes or renames an announcement of `u`. */
  predicate Concerns(r: Record, u: int) {
    match r
    case Printed(Unfinished(tid, _, _)) => tid == u
    case Printed(Resumed(tid, _, _, _)) => tid == u
    case Printed(Plain(tid, ExitBody(_, _))) => tid == u
    case Renamed(former, current) => former == u || current == u
    case _ => false
  }

  lemma NamesMore(log: seq<Record>, r: Record, u: int)
    requires NamesAgree(log, u)
    requires (r.Printed? && r.line.Resumed? && r.line.tid == u ==> ResumesByName(Outstanding(log), r))
    ensures NamesAgree(log + [r], u)
  {
    var more := log + [r];
    forall k | 0 <= k < |more| && more[k].Printed? && more[k].line.Resumed? && more[k].line.tid == u
      ensures ResumesByName(Outstanding(more[..k]), more[k])
    {
      if k < |log| { assert more[..k] == log[..k]; } else { assert more[..k] == log; }
    }
  }

  /** One more record that does not concern `u`. */
  lemma AsideSincere(cfg: Config, a: State, b: State, r: Record, u: int)
    requires Sincere(cfg, a, u) && Disciplined(b) && b.log == a.log + [r] && !Concerns(r, u) && b.tasks == a.tasks
    ensures Sincere(cfg, b, u)
  {
    NamesMore(a.log, r, u);
    assert b.log[..|a.log|] == a.log;
    assert Outstanding(b.log) == Observe(Outstanding(a.log), r);
  }

  /** The output is the same and so are the calls of `u`; a new task has none. */
  lemma SameSincere(cfg: Config, a: State, b: State, u: int)
    requires Sincere(cfg, a, u) && a.log == b.log && a.open == b.open
    requires u in a.tasks ==> u in b.tasks
    requires u in b.tasks ==> if u in a.tasks then SameCalls(a.tasks[u], b.tasks[u]) else b.tasks[u].interrupted.None?
    ensures Sincere(cfg, b, u)
  {
  }

  ghost predicate SameCalls(t: Tracee, t': Tracee) {
    t.pending == t'.pending && t.interrupted == t'.interrupted
  }

  /** What an event prints that is not about a call or the exit of `u`. */
  lemma EmitAside(cfg: Config, st: State, event: Event, u: int)
    requires TextOutput(cfg) && (event.tid == u ==> !event.body.SyscallBody? && !event.body.ExitBody?)
    ensures var r := Emit(cfg, st, event);
            && r.tasks == st.tasks
            && (r == st || (|r.log| == |st.log| + 1 && r.log[..|st.log|] == st.log && !Concerns(r.log[|st.log|], u)))
  {
  }

  lemma EmitSincere(cfg: Config, st: State, event: Event, u: int)
    requires TextOutput(cfg) && Sincere(cfg, st, u)
    requires event.tid == u ==> !event.body.SyscallBody? && !event.body.ExitBody?
    ensures Sincere(cfg, Emit(cfg, st, event), u)
  {
    EmitAside(cfg, st, event, u);
    EmitDisciplined(cfg, st, event);
    EmittedSincere(cfg, st, Emit(cfg, st, event), u);
  }

  lemma EmittedSincere(cfg: Config, a: State, b: State, u: int)
    requires Sincere(cfg, a, u) && Disciplined(b) && b.tasks == a.tasks
    requires b == a || (|b.log| == |a.log| + 1 && b.log[..|a.log|] == a.log && !Concerns(b.log[|a.log|], u))
    ensures Sincere(cfg, b, u)
  {
    if b != a {
      assert b.log == a.log + [b.log[|a.log|]];
      AsideSincere(cfg, a, b, b.log[|a.log|], u);
    }
  }

  lemma FlushOneSincere(cfg: Config, st: State, except: int, tid: int, u: int)
    requires TextOutput(cfg) && Sincere(cfg, st, u)
    ensures Sincere(cfg, FlushOne(cfg, st, except, tid), u)
  {
    if tid in st.tasks && tid != except && Held(st.tasks[tid]).Some? && Selected(cfg, Held(st.tasks[tid]).value.number) {
      if tid != u {
        EmitSincere(cfg, st, Announcement(tid, st.tasks[tid], Held(st.tasks[tid]).value), u);
      } else if tid !in st.open {
        AnnounceDisciplined(cfg, st, u);
        var call := st.tasks[u].pending.value;
        NamesMore(st.log, Printed(Unfinished(u, call.number, call.args)), u);
        assert FlushOne(cfg, st, except, u) == Announce(st, u);
      }
    }
  }

  lemma {:induction false} FlushSincere(cfg: Config, st: State, except: int, order: seq<int>, u: int)
    requires TextOutput(cfg) && Sincere(cfg, st, u)
    ensures Sincere(cfg, Flush(cfg, st, except, order), u)
  {
    if order != [] {
      FlushSincere(cfg, st, except, order[..|order| - 1], u);
      FlushOneSincere(cfg, FlushSlots(cfg, st, except, order[..|order| - 1]), except, order[|order| - 1], u);
    }
  }

  lemma FlushEmitSincere(cfg: Config, st: State, except: int, order: seq<int>, event: Event, u: int)
    requires TextOutput(cfg) && Sincere(cfg, st, u)
    requires event.tid == u ==> !event.body.SyscallBody? && !event.body.ExitBody?
    ensures Sincere(cfg, Emit(cfg, Flush(cfg, st, except, order), event), u)
  {
    FlushSincere(cfg, st, except, order, u);
    EmitSincere(cfg, Flush(cfg, st, except, order), event, u);
  }

  // ----- completing calls

  /** The line of the pending call of `u` closes its announcement, if there is one. */
  lemma DoneSincere(cfg: Config, st: State, event: Event)
    requires TextOutput(cfg) && Sincere(cfg, st, event.tid) && event.body.SyscallBody? && event.body.syscall.completed
    requires event.tid in st.tasks && HoldsSelected(cfg, st.tasks[event.tid])
    requires event.body.syscall.number == st.tasks[event.tid].pending.value.number
    ensures var r := Emit(cfg, st, event); Sincere(cfg, r, event.tid) && event.tid !in r.open
  {
    DoneEffect(cfg, st, event);
    var r := Emit(cfg, st, event);
    assert r.log == st.log + [r.log[|st.log|]];
    NamesMore(st.log, r.log[|st.log|], event.tid);
  }

  /** The line of a call: of another task, or the pending one of `u`. */
  lemma LineSincere(cfg: Config, st: State, tid: int, s: SyscallEvent, order: seq<int>, u: int)
    requires TextOutput(cfg) && Sincere(cfg, st, u) && tid in st.tasks && s.completed
    requires tid == u ==> HoldsSelected(cfg, st.tasks[u]) && s.number == st.tasks[u].pending.value.number
    ensures var r := WriteLine(cfg, st, tid, s, order); Sincere(cfg, r, u) && (tid == u ==> u !in r.open)
  {
    FlushSincere(cfg, st, tid, order, u);
    var flushed, event := Flush(cfg, st, tid, order), Event(tid, st.tasks[tid].tgid, s.exitedAt, SyscallBody(s));
    if tid == u {
      DoneSincere(cfg, flushed, event);
    } else {
      EmitSincere(cfg, flushed, event, u);
    }
  }

  lemma WriteSincere(cfg: Config, st: State, tid: int, s: SyscallEvent, order: seq<int>, u: int)
    requires TextOutput(cfg) && Sincere(cfg, st, u) && tid in st.tasks && s.completed
    requires tid == u && Selected(cfg, s.number) ==>
              HoldsSelected(cfg, st.tasks[u]) && s.number == st.tasks[u].pending.value.number
    ensures var o := WriteSyscall(cfg, st, tid, s, order);
            o.Fine? ==> Sincere(cfg, o.st, u) && (tid == u && Selected(cfg, s.number) ==> u !in o.st.open)
  {
    if Selected(cfg, s.number) {
      var counted := Reporting.CountedState(cfg, st, tid, s, order);
      SameSincere(cfg, st, counted, u);
      LineSincere(cfg, counted, tid, s, order, u);
    }
  }

  lemma CompletePendingSincere(cfg: Config, st: State, tid: int, result: int, errorNumber: int, at: Timespec,
                               order: seq<int>, u: int)
    requires TextOutput(cfg) && Sincere(cfg, st, u) && tid in st.tasks && st.tasks[tid].pending.Some?
    ensures var o := CompletePending(cfg, st, tid, result, errorNumber, at, order); o.Fine? ==> Sincere(cfg, o.st, u)
  {
    var done := Finished(st.tasks[tid].pending.value, result, errorNumber, at);
    WriteSincere(cfg, st, tid, done, order, u);
    var o := WriteSyscall(cfg, st, tid, done, order);
    if o.Fine? { ClearedSincere(cfg, o.st, CompletePending(cfg, st, tid, result, errorNumber, at, order).st, tid, u); }
  }

  /** The pending call of `tid` is cleared; if that is `u`, no announcement is left. */
  lemma ClearedSincere(cfg: Config, a: State, b: State, tid: int, u: int)
    requires Sincere(cfg, a, u) && a.log == b.log && a.open == b.open && tid in a.tasks
    requires b.tasks == a.tasks[tid := a.tasks[tid].(pending := None)]
    requires tid == u ==> u !in a.open
    ensures Sincere(cfg, b, u)
  {
  }

  lemma CompleteInterruptedSincere(cfg: Config, st: State, tid: int, result: int, errorNumber: int, at: Timespec,
                                   order: seq<int>, u: int)
    requires TextOutput(cfg) && Sincere(cfg, st, u) && tid in st.tasks && st.tasks[tid].interrupted.Some?
    ensures var o := CompleteInterrupted(cfg, st, tid, result, errorNumber, at, order);
            o.Fine? ==> Sincere(cfg, o.st, u)
  {
    WriteSincere(cfg, st, tid, Finished(st.tasks[tid].interrupted.value, result, errorNumber, at), order, u);
  }

  // ----- entries and exits

  /** The calls of `tid` change; those of `u` only while nothing is announced for it. */
  lemma RecallSincere(cfg: Config, st: State, tid: int, t: Tracee, h: History, u: int)
    requires Sincere(cfg, st, u) && tid in st.tasks
    requires tid == u ==> NoneShownAside(cfg, t) && (t.pending == st.tasks[u].pending || u !in st.open)
    ensures Sincere(cfg, SetTask(st, tid, t).(history := h), u)
  {
  }

  lemma BeginSincere(cfg: Config, st: State, tid: int, number: nat, args: seq<int>, env: Env, u: int)
    requires TextOutput(cfg) && Sincere(cfg, st, u) && tid in st.tasks
    ensures var o := Begin(cfg, st, tid, number, args, env); o.Fine? ==> Sincere(cfg, o.st, u)
  {
    if st.tasks[tid].pending.Some? { CompletePendingSincere(cfg, st, tid, 0, 0, env.now, env.order, u); }
    var settled := SettleExec(cfg, st, tid, env);
    if settled.Fine? {
      assert tid in settled.st.tasks && settled.st.tasks[tid].pending.None?;
      if Restarts(settled.st.tasks[tid], number) {
        RestartSincere(cfg, settled.st, tid, env.order, u);
      } else {
        ExposeSincere(cfg, settled.st, tid, env, u);
        var exposed := ExposeEintr(cfg, settled.st, tid, env);
        if exposed.Fine? { FreshSincere(cfg, exposed.st, tid, number, args, env, u); }
      }
    }
  }

  lemma RestartSincere(cfg: Config, st: State, tid: int, order: seq<int>, u: int)
    requires TextOutput(cfg) && Sincere(cfg, st, u) && tid in st.tasks && st.tasks[tid].pending.None?
    ensures Sincere(cfg, Restart(cfg, st, tid, order), u)
  {
    var flushed, t := Flush(cfg, st, tid, order), st.tasks[tid];
    FlushSincere(cfg, st, tid, order, u);
    RecallSincere(cfg, flushed, tid, t.(pending := t.interrupted, interrupted := None, restartReady := false),
                  flushed.history, u);
  }

  lemma ExposeSincere(cfg: Config, st: State, tid: int, env: Env, u: int)
    requires TextOutput(cfg) && Sincere(cfg, st, u) && tid in st.tasks && st.tasks[tid].pending.None?
    ensures var o := ExposeEintr(cfg, st, tid, env);
            o.Fine? ==> Sincere(cfg, o.st, u) && tid in o.st.tasks && o.st.tasks[tid].pending.None?
  {
    if st.tasks[tid].interrupted.Some? { CompleteInterruptedSincere(cfg, st, tid, -1, EINTR, env.now, env.order, u); }
  }

  lemma FreshSincere(cfg: Config, st: State, tid: int, number: int, args: seq<int>, env: Env, u: int)
    requires TextOutput(cfg) && Sincere(cfg, st, u) && tid in st.tasks && st.tasks[tid].pending.None?
    ensures Sincere(cfg, FreshEntry(cfg, st, tid, number, args, env), u)
  {
    FlushSincere(cfg, st, tid, env.order, u);
    var mid := if Selected(cfg, number) then Flush(cfg, st, tid, env.order) else st;
    var r := FreshEntry(cfg, st, tid, number, args, env);
    RecallSincere(cfg, mid, tid, r.tasks[tid], r.history, u);
  }

  lemma DropSincere(cfg: Config, st: State, tid: int, reason: Reason, u: int)
    requires Sincere(cfg, st, u) && tid in st.tasks
    ensures Sincere(cfg, DropInterrupted(st, tid, reason), u)
  {
  }

  lemma FinishSincere(cfg: Config, st: State, tid: int, rval: int, isError: bool, env: Env, u: int)
    requires TextOutput(cfg) && Sincere(cfg, st, u) && tid in st.tasks
    requires tid == u && IsRestartResult(rval) ==> !HoldsSelected(cfg, st.tasks[u])
    ensures var o := Finish(cfg, st, tid, rval, isError, env); o.Fine? ==> Sincere(cfg, o.st, u)
  {
    var t := st.tasks[tid];
    if t.pending.Some? {
      if IsRestartResult(rval) {
        DropSincere(cfg, st, tid, Replaced, u);
        var cleared := DropInterrupted(st, tid, Replaced);
        var c := cleared.tasks[tid];
        RecallSincere(cfg, cleared, tid, c.(interrupted := c.pending, pending := None, restartReady := false),
                      cleared.history, u);
      } else {
        ConcludeSincere(cfg, st, tid, rval, isError, env, u);
      }
    }
  }

  lemma ConcludeSincere(cfg: Config, st: State, tid: int, rval: int, isError: bool, env: Env, u: int)
    requires TextOutput(cfg) && Sincere(cfg, st, u) && tid in st.tasks && st.tasks[tid].pending.Some?
    ensures var o := Conclude(cfg, st, tid, rval, isError, env); o.Fine? ==> Sincere(cfg, o.st, u)
  {
    var number := st.tasks[tid].pending.value.number;
    var errorNumber, at := ErrorNumber(rval, isError), StampOf(cfg, number, env.now);
    CompletePendingSincere(cfg, st, tid, rval, errorNumber, at, env.order, u);
    var o := CompletePending(cfg, st, tid, rval, errorNumber, at, env.order);
    if o.Fine? {
      DropSincere(cfg, o.st, tid, Superseded, u);
      SameSincere(cfg, o.st, SetTask(o.st, tid, o.st.tasks[tid].(restartReady := true)), u);
    }
  }

  // ----- events, exits and migrations

  lemma HandleExecSincere(cfg: Config, st: State, tid: int, env: Env, u: int)
    requires TextOutput(cfg) && Sincere(cfg, st, u) && tid in st.tasks
    ensures var o := HandleExec(cfg, st, tid, env); o.Fine? ==> Sincere(cfg, o.st, u)
  {
    var seen := if tid == st.root.tid then st.(root := st.root.(execObserved := true)) else st;
    SameSincere(cfg, st, seen, u);
    if seen.tasks[tid].pending.Some? {
      CompletePendingSincere(cfg, seen, tid, 0, 0, env.now, env.order, u);
      var o := CompletePending(cfg, seen, tid, 0, 0, env.now, env.order);
      if o.Fine? { SameSincere(cfg, o.st, SetTask(o.st, tid, o.st.tasks[tid].(newborn := false)), u); }
    } else {
      SameSincere(cfg, seen, SetTask(seen, tid, seen.tasks[tid].(newborn := false)), u);
    }
  }

  lemma HandleChildSincere(cfg: Config, st: State, tid: int, kind: ChildKind, child: nat, childTgid: int, env: Env,
                           u: int)
    requires TextOutput(cfg) && Sincere(cfg, st, u) && tid in st.tasks
    ensures var o := HandleChild(cfg, st, tid, kind, child, childTgid, env); o.Fine? ==> Sincere(cfg, o.st, u)
  {
    if child != 0 && child <= INT_MAX {
      var t := st.tasks[tid];
      var o := AddTask(st, child, if childTgid > 0 then childTgid else if kind.Clone? then t.tgid else child,
                       t.attached, true);
      if o.Fine? {
        SameSincere(cfg, st, o.st, u);
        FlushEmitSincere(cfg, o.st, -1, env.order, Event(tid, t.tgid, env.now, StartBody(child, kind)), u);
      }
    }
  }

  ghost predicate SincereAfter(cfg: Config, r: Handled, u: int) { r.Handled? ==> Sincere(cfg, r.st, u) }

  lemma HandleSignalSincere(cfg: Config, st: State, tid: int, signal: int, info: SigInfo, env: Env, u: int)
    requires TextOutput(cfg) && Sincere(cfg, st, u) && tid in st.tasks
    ensures SincereAfter(cfg, HandleSignal(cfg, st, tid, signal, info, env), u)
  {
    var t := st.tasks[tid];
    if t.newborn && signal == SIGSTOP {
      SameSincere(cfg, st, HandleSignal(cfg, st, tid, signal, info, env).st, u);
    } else if info.Info? {
      var marked := SetTask(st, tid, t.(newborn := false, pendingSignal := signal));
      SameSincere(cfg, st, marked, u);
      FlushEmitSincere(cfg, marked, -1, env.order,
                       Event(tid, t.tgid, env.now, SignalBody(info.signo, info.code, FaultAddress(info))), u);
    }
  }

  lemma PlainlySincere(cfg: Config, o: Outcome, u: int)
    requires o.Fine? ==> Sincere(cfg, o.st, u)
    ensures SincereAfter(cfg, Plainly(o), u)
  {
  }

  lemma SyscallStopSincere(cfg: Config, st: State, n: Notice, u: int)
    requires TextOutput(cfg) && Sincere(cfg, st, u) && n.tid in st.tasks && (n.tid == u ==> !SetsShownAside(cfg, st, n))
    requires n.what.SyscallEntry? || n.what.SeccompStop? || n.what.SyscallExit?
    ensures SincereAfter(cfg, HandleStop(cfg, st, n), u)
  {
    var stopped := SetTask(st, n.tid, st.tasks[n.tid].(inStop := true));
    SameSincere(cfg, st, stopped, u);
    if n.what.SyscallExit? {
      FinishSincere(cfg, stopped, n.tid, n.what.rval, n.what.isError, n.env, u);
      PlainlySincere(cfg, Finish(cfg, stopped, n.tid, n.what.rval, n.what.isError, n.env), u);
    } else {
      BeginSincere(cfg, stopped, n.tid, n.what.number, n.what.args, n.env, u);
      PlainlySincere(cfg, Begin(cfg, stopped, n.tid, n.what.number, n.what.args, n.env), u);
    }
  }

  lemma HandleStopSincere(cfg: Config, st: State, n: Notice, u: int)
    requires TextOutput(cfg) && Sincere(cfg, st, u) && n.tid in st.tasks && (n.tid == u ==> !SetsShownAside(cfg, st, n))
    ensures SincereAfter(cfg, HandleStop(cfg, st, n), u)
  {
    var t := st.tasks[n.tid];
    var stopped, h := SetTask(st, n.tid, t.(inStop := true)), HandleStop(cfg, st, n);
    SameSincere(cfg, st, stopped, u);
    match n.what
    case SyscallEntry(_, _) => SyscallStopSincere(cfg, st, n, u);
    case SyscallExit(_, _) => SyscallStopSincere(cfg, st, n, u);
    case SeccompStop(_, _) => SyscallStopSincere(cfg, st, n, u);
    case EventStop(signal) =>
      SameSincere(cfg, stopped, SetTask(stopped, n.tid, t.(inStop := true, newborn := false)), u);
      assert h.st == SetTask(stopped, n.tid, t.(inStop := true, newborn := false));
    case ExecStop(_) =>
      HandleExecSincere(cfg, stopped, n.tid, n.env, u);
      PlainlySincere(cfg, HandleExec(cfg, stopped, n.tid, n.env), u);
      assert h == Plainly(HandleExec(cfg, stopped, n.tid, n.env));
    case ChildStop(kind, child, childTgid) =>
      HandleChildSincere(cfg, stopped, n.tid, kind, child, childTgid, n.env, u);
      PlainlySincere(cfg, HandleChild(cfg, stopped, n.tid, kind, child, childTgid, n.env), u);
      assert h == Plainly(HandleChild(cfg, stopped, n.tid, kind, child, childTgid, n.env));
    case SignalStop(signal, info) =>
      HandleSignalSincere(cfg, stopped, n.tid, signal, info, n.env, u);
      assert h == HandleSignal(cfg, stopped, n.tid, signal, info, n.env);
    case _ => assert h == Unhandled;
  }

  /** Another task goes, or `u` itself once nothing is announced for it. */
  lemma RemoveSincere(cfg: Config, st: State, tid: int, reason: Reason, u: int)
    requires Sincere(cfg, st, u) && tid in st.tasks && (tid == u ==> u !in st.open)
    ensures Sincere(cfg, RemoveTask(st, tid, reason), u)
  {
    RemovedFrame(st, tid, reason);
  }

  /** The exit line of `u` closes its announcement. */
  lemma ExitSincere(cfg: Config, st: State, event: Event)
    requires TextOutput(cfg) && Sincere(cfg, st, event.tid) && event.body.ExitBody?
    ensures var r := Emit(cfg, st, event); Sincere(cfg, r, event.tid) && event.tid !in r.open
  {
    EmitDisciplined(cfg, st, event);
    NamesMore(st.log, Printed(Line.Plain(event.tid, event.body)), event.tid);
  }

  lemma BurySincere(cfg: Config, st: State, n: Notice, u: int)
    requires TextOutput(cfg) && Sincere(cfg, st, u) && n.tid in st.tasks && (n.what.Exited? || n.what.Killed?)
    ensures var o := Bury(cfg, st, n); o.Fine? ==> Sincere(cfg, o.st, u)
  {
    var body := ExitBody(if n.what.Exited? then n.what.code else n.what.signal, n.what.Killed?);
    var event := Event(n.tid, st.tasks[n.tid].tgid, n.env.now, body);
    var written := WriteExit(cfg, st, n);
    FlushSincere(cfg, st, -1, n.env.order, u);
    if n.tid == u {
      ExitSincere(cfg, Flush(cfg, st, -1, n.env.order), event);
    } else {
      EmitSincere(cfg, Flush(cfg, st, -1, n.env.order), event, u);
    }
    SameSincere(cfg, written, RecordStatus(written, n), u);
    RemoveSincere(cfg, RecordStatus(written, n), n.tid, LostAtExit, u);
  }

  /** Renaming two other TIDs. */
  lemma RenameSincere(cfg: Config, st: State, former: int, current: int, u: int)
    requires Sincere(cfg, st, u) && former != u && current != u
    ensures Sincere(cfg, RenameOpen(st, former, current), u)
  {
    var r := RenameOpen(st, former, current);
    RenameDisciplined(st, former, current);
    if r != st { AsideSincere(cfg, st, r, Renamed(former, current), u); }
  }

  lemma TakeOverSincere(cfg: Config, st: State, tid: int, former: int, source: Tracee, u: int)
    requires Sincere(cfg, st, u) && former != u && tid != u
    ensures Sincere(cfg, TakeOver(st, tid, former, source), u)
  {
    var placed := SetTask(st, tid, source.(tgid := tid, newborn := false));
    SameSincere(cfg, st, placed, u);
    RenameSincere(cfg, placed, former, tid, u);
    SameSincere(cfg, RenameOpen(placed, former, tid), TakeOver(st, tid, former, source), u);
  }

  lemma MigrateSincere(cfg: Config, st: State, tid: int, former: int, u: int)
    requires Sincere(cfg, st, u) && (former != tid ==> former != u && tid != u)
    ensures var o := MigrateExec(cfg, st, tid, former); o.Fine? ==> Sincere(cfg, o.st, u)
  {
    if former != tid {
      if former in st.tasks {
        if tid in st.tasks { RemoveSincere(cfg, st, tid, LostAtExec, u); }
        var cleared := if tid in st.tasks then RemoveTask(st, tid, LostAtExec) else st;
        var moved := cleared.(tasks := cleared.tasks - {former});
        SameSincere(cfg, cleared, moved, u);
        TakeOverSincere(cfg, moved, tid, former, st.tasks[former], u);
      } else if tid in st.tasks {
        TakeOverSincere(cfg, st, tid, former, st.tasks[tid], u);
      } else {
        var o := AddTask(st, tid, tid, cfg.mode.Attach?, false);
        if o.Fine? {
          SameSincere(cfg, st, o.st, u);
          RenameSincere(cfg, o.st, former, tid, u);
        }
      }
    }
  }

  // ----- one turn of the loop, and whole runs

  /** The notice sets no selected call of `u` aside and does not move a thread from or to `u`. */
  ghost predicate Tame(cfg: Config, st: State, n: Notice, u: int) {
    && (n.tid == u ==> !SetsShownAside(cfg, st, n))
    && (n.what.ExecStop? && n.what.former != n.tid ==> n.tid != u && n.what.former != u)
  }

  lemma AdmitSincere(cfg: Config, st: State, n: Notice, u: int)
    requires Sincere(cfg, st, u) && Tame(cfg, st, n, u)
    ensures var o := Admit(cfg, st, n); o.Fine? ==> Sincere(cfg, o.st, u)
  {
    if n.what.ExecStop? { MigrateSincere(cfg, st, n.tid, n.what.former, u); }
    var known := if n.what.ExecStop? then MigrateExec(cfg, st, n.tid, n.what.former) else Fine(st);
    var o := Admit(cfg, st, n);
    if known.Fine? && o.Fine? { SameSincere(cfg, known.st, o.st, u); }
  }

  lemma ResumeSincere(cfg: Config, st: State, tid: int, signal: int, listen: bool, env: Env, u: int)
    requires Sincere(cfg, st, u)
    ensures var r := Resume(cfg, st, tid, signal, listen, env); !r.Abort? ==> Sincere(cfg, r.st, u)
  {
    var r := Resume(cfg, st, tid, signal, listen, env);
    if !r.Abort? { SameSincere(cfg, st, r.st, u); }
  }

  lemma StepSincere(cfg: Config, st: State, n: Notice, u: int)
    requires TextOutput(cfg) && Sincere(cfg, st, u) && Tame(cfg, st, n, u)
    ensures var r := Step(cfg, st, n); !r.Abort? ==> Sincere(cfg, r.st, u)
  {
    if !n.what.WaitInterrupted? {
      AdmitSincere(cfg, st, n, u);
      var o := Admit(cfg, st, n);
      if o.Fine? && n.tid in o.st.tasks {
        if n.what.Continued? {
          SameSincere(cfg, o.st, SetTask(o.st, n.tid, o.st.tasks[n.tid].(inStop := false)), u);
        } else if n.what.Exited? || n.what.Killed? {
          BurySincere(cfg, o.st, n, u);
        } else {
          HandleStopSincere(cfg, o.st, n, u);
          var h := HandleStop(cfg, o.st, n);
          if h.Handled? { ResumeSincere(cfg, h.st, n.tid, h.signal, h.listen, n.env, u); }
        }
      }
    }
  }

  /** Every notice of the run is tame for `u`. */
  ghost predicate TameFor(cfg: Config, st: State, run: seq<Notice>, u: int) {
    run == [] ||
    (var front := run[..|run| - 1];
     && TameFor(cfg, st, front, u)
     && (After(cfg, st, front).Running? ==> Tame(cfg, After(cfg, st, front).st, run[|run| - 1], u)))
  }

  lemma {:induction false} RunSincere(cfg: Config, st: State, run: seq<Notice>, u: int)
    requires TextOutput(cfg) && Sincere(cfg, st, u) && TameFor(cfg, st, run, u)
    ensures var r := After(cfg, st, run); !r.Aborted? ==> Sincere(cfg, r.st, u)
  {
    if run != [] {
      var front := run[..|run| - 1];
      RunSincere(cfg, st, front, u);
      var r := After(cfg, st, front);
      if r.Running? { StepSincere(cfg, r.st, run[|run| - 1], u); }
    }
  }
}
