/** The tracer as the C program runs it: structures updated in place, stop by stop (src/trace.c).

    Each method is proved to do what the corresponding function of the model does to the abstract
    state; the order of a flush is the order of the table slots. */
module Tracers {
  import opened Bits
  import opened Events
  import opened TraceModel
  import opened TraceeTables
  import opened Outputs
  import Statistics
  import Lifecycle
  import Interleaving
  import Protocol
  import Reporting
  import Naming
  import Theorems

  /** The table can still grow. */
  ghost predicate Room(memory: bool, capacity: nat) {
    memory && capacity <= 0x1000_0000_0000_0000
  }

  /** The table can grow throughout a turn. */
  ghost predicate Roomy(memory: bool, capacity: nat) {
    memory && capacity <= 0x0400_0000_0000_0000
  }

  /** `ok` reports success exactly, and then the state is the one of the model. */
  ghost predicate Realises(ok: bool, st: State, model: Outcome) {
    (ok <==> model.Fine?) && (ok ==> model.st == st)
  }

  /** How a turn of the loop ends. */
  datatype Turn = Again | Quit(status: int) | Broken

  ghost predicate Turns(turn: Turn, st: State, model: StepResult) {
    match turn
    case Again => model == Next(st)
    case Quit(status) => model == Halt(st, status)
    case Broken => model.Abort?
  }

  function WithOrder(n: Notice, order: seq<int>): Notice {
    n.(env := n.env.(order := order))
  }

  class Tracer {
    const cfg: Config
    const table: TraceeTable
    const output: Output
    const stats: Statistics.StatsTable
    var rootTid: int
    var rootStatus: Option<int>
    var rootExecObserved: bool
    var eventCount: nat
    // Tags for the history: how many calls were entered and how many tasks tracked so far.
    var entryCount: nat
    var taskCount: nat
    ghost var history: History

    ghost predicate Valid()
      reads this, table, table.slots, output, stats
    {
      && table.Valid() && output.Valid() && stats.Valid()
      && output.summary == cfg.summary && output.format == cfg.format
      && entryCount == |history.entries| && taskCount == history.births
    }

    ghost function Now(): State
      requires table.Valid()
      reads this, table, table.slots, output, stats
    {
      State(table.Contents(), output.Open(), output.log, stats.Value(), eventCount,
                  Root(rootTid, rootStatus, rootExecObserved), history)
    }

    /** The TIDs in the order of the table slots. */
    ghost function Slots(): seq<int>
      reads table, table.slots
    {
      Order(table.slots[..])
    }

    constructor (cfg: Config, root: int, hash: int -> nat)
      ensures Valid() && fresh(table) && fresh(table.slots) && fresh(output) && fresh(stats) && table.slots.Length == 0
      ensures this.cfg == cfg && Now() == Nobody(root)
    {
      this.cfg := cfg;
      table := new TraceeTable(hash);
      output := new Output(cfg.summary, cfg.format);
      stats := new Statistics.StatsTable();
      rootTid, rootStatus, rootExecObserved, eventCount := root, None, false, 0;
      entryCount, taskCount, history := 0, 0, NO_HISTORY;
    }

    /** emit_event. */
    method EmitEvent(event: Event)
      requires Valid()
      modifies output
      ensures Valid() && Now() == Emit(cfg, old(Now()), event)
    {
      output.WriteEvent(event, cfg, Now());
    }

    /** flush_unfinished_syscalls: one pass over the raw slots. */
    method FlushUnfinished(except: int)
      requires Valid()
      modifies output
      ensures Valid() && Now() == Flush(cfg, old(Now()), except, Slots())
    {
      if cfg.summary {
        return;
      }
      ghost var s := table.slots[..];
      for index := 0 to table.slots.Length
        invariant Valid() && table.slots[..] == s
        invariant Now() == FlushSlots(cfg, old(Now()), except, Order(s[..index]))
      {
        OrderNext(s, index);
        ghost var before := Now();
        if table.slots[index].Occupied? {
          EntryAt(table.hash, s, table.place, index);
          assert FlushSlots(cfg, old(Now()), except, Order(s[..index + 1])) ==
                 FlushOne(cfg, before, except, s[index].tid);
          var tid, t := table.slots[index].tid, table.slots[index].tracee;
          if tid != except {
            var held := if t.pending.Some? then t.pending else t.interrupted;
            if held.Some? && Selected(cfg, held.value.number) {
              EmitEvent(Announcement(tid, t, held.value));
            }
          }
        }
      }
      assert s[..|s|] == s;
    }

    /** The line of a completed call, after the others have been flushed. */
    method WriteSyscallLine(tid: int, s: SyscallEvent)
      requires Valid() && tid in Now().tasks
      modifies output
      ensures Valid() && Now() == WriteLine(cfg, old(Now()), tid, s, Slots())
    {
      var t := table.Get(tid);
      FlushUnfinished(tid);
      EmitEvent(Event(tid, t.value.tgid, s.exitedAt, SyscallBody(s)));
    }

    /** A completed call in the statistics. */
    method CountSyscall(s: SyscallEvent) returns (ok: bool)
      requires Valid()
      modifies stats
      ensures Valid()
      ensures match Statistics.AddEvent(old(stats.Value()), s)
              case Some(summary) => ok && Now() == old(Now()).(stats := summary)
              case None => !ok
    {
      ok := stats.Record(s);
    }

    /** write_syscall. */
    method WriteSyscallEvent(tid: int, s: SyscallEvent) returns (ok: bool)
      requires Valid() && tid in Now().tasks
      modifies this, output, stats
      ensures Valid() && Realises(ok, Now(), WriteSyscall(cfg, old(Now()), tid, s, Slots()))
    {
      if !Selected(cfg, s.number) {
        return true;
      }
      eventCount := (eventCount + 1) % TWO_64;
      if cfg.summary {
        ok := CountSyscall(s);
        return;
      }
      WriteSyscallLine(tid, s);
      ok := true;
    }

    /** A store through the tracee pointer. */
    method Put(tid: int, t: Tracee)
      requires Valid() && tid in Now().tasks
      modifies table.slots
      ensures Valid() && Now() == SetTask(old(Now()), tid, t) && Slots() == old(Slots())
    {
      table.Update(tid, t);
    }

    /** Close the pending call as completed: the tail shared by the completion paths. */
    method FinishPending(tid: int, result: int, errorNumber: int, at: Timespec) returns (ok: bool)
      requires Valid() && tid in Now().tasks && Now().tasks[tid].pending.Some?
      modifies this, table.slots, output, stats
      ensures Valid() && Slots() == old(Slots())
      ensures Realises(ok, Now(), CompletePending(cfg, old(Now()), tid, result, errorNumber, at, old(Slots())))
    {
      var found := table.Get(tid);
      var t := found.value;
      var done := Finished(t.pending.value, result, errorNumber, at);
      ok := WriteSyscallEvent(tid, done);
      if ok {
        history := history.(closings := history.closings +
          [Closing(t.pending.value.serial, t.task, tid, Completed(done, LineOf(cfg, Now(), done.number)))]);
        Put(tid, t.(pending := None));
      }
    }

    method FinishInterrupted(tid: int, result: int, errorNumber: int, at: Timespec) returns (ok: bool)
      requires Valid() && tid in Now().tasks && Now().tasks[tid].interrupted.Some?
      modifies this, table.slots, output, stats
      ensures Valid() && Slots() == old(Slots())
      ensures Realises(ok, Now(), CompleteInterrupted(cfg, old(Now()), tid, result, errorNumber, at, old(Slots())))
    {
      var found := table.Get(tid);
      var t := found.value;
      var done := Finished(t.interrupted.value, result, errorNumber, at);
      ok := WriteSyscallEvent(tid, done);
      if ok {
        history := history.(closings := history.closings +
          [Closing(t.interrupted.value.serial, t.task, tid, Completed(done, LineOf(cfg, Now(), done.number)))]);
        Put(tid, t.(interrupted := None, restartReady := false));
      }
    }

    /** Release the interrupted call without reporting it. */
    method ReleaseInterrupted(tid: int, ghost reason: Reason)
      requires Valid() && tid in Now().tasks
      modifies this, table.slots
      ensures Valid() && Slots() == old(Slots()) && Now() == DropInterrupted(old(Now()), tid, reason)
    {
      var found := table.Get(tid);
      var t := found.value;
      if t.interrupted.Some? {
        history := history.(closings := history.closings + [Closing(t.interrupted.value.serial, t.task, tid, Discarded(reason))]);
        Put(tid, t.(interrupted := None, restartReady := false));
      }
    }

    /** The first part of begin_syscall: an exec that is still pending has succeeded. */
    method SettlePendingExec(tid: int, ghost env: Env, now: Timespec) returns (ok: bool)
      requires Valid() && tid in Now().tasks && env.order == Slots() && env.now == now
      modifies this, table.slots, output, stats
      ensures Valid() && Slots() == old(Slots()) && Realises(ok, Now(), SettleExec(cfg, old(Now()), tid, env))
    {
      var found := table.Get(tid);
      var pending := found.value.pending;
      if pending.None? {
        return true;
      }
      if pending.value.number != EXECVE && pending.value.number != EXECVEAT {
        return false;
      }
      ok := FinishPending(tid, 0, 0, now);
    }

    /** The restart branch of begin_syscall. */
    method RestartInterrupted(tid: int)
      requires Valid() && tid in Now().tasks
      modifies this, table.slots, output
      ensures Valid() && Slots() == old(Slots()) && Now() == Restart(cfg, old(Now()), tid, old(Slots()))
    {
      var found := table.Get(tid);
      var t := found.value;
      FlushUnfinished(tid);
      Put(tid, t.(pending := t.interrupted, interrupted := None, restartReady := false));
    }

    /** The last part of begin_syscall: a fresh pending call. */
    method EnterFresh(tid: int, number: nat, args: seq<int>, ghost env: Env, now: Timespec)
      requires Valid() && tid in Now().tasks && env.order == Slots() && env.now == now
      modifies this, table.slots, output
      ensures Valid() && Slots() == old(Slots()) && Now() == FreshEntry(cfg, old(Now()), tid, number, args, env)
    {
      var found := table.Get(tid);
      var t := found.value;
      var chosen := Selected(cfg, number);
      if chosen {
        FlushUnfinished(tid);
      }
      var call := Call(entryCount, number, args, StampOf(cfg, number, now));
      entryCount := entryCount + 1;
      history := history.(
        entries := history.entries + [Entry(t.task, number, args, |output.log|, call.enteredAt)]);
      Put(tid, t.(pending := Some(call)));
    }

    /** begin_syscall. */
    method BeginSyscall(tid: int, number: nat, args: seq<int>, ghost env: Env, now: Timespec) returns (ok: bool)
      requires Valid() && tid in Now().tasks && env.order == Slots() && env.now == now
      modifies this, table.slots, output, stats
      ensures Valid() && Slots() == old(Slots()) && Realises(ok, Now(), Begin(cfg, old(Now()), tid, number, args, env))
    {
      if number > LONG_MAX {
        return false;
      }
      ok := SettlePendingExec(tid, env, now);
      if !ok {
        return;
      }
      var found := table.Get(tid);
      var t := found.value;
      if t.interrupted.Some? && t.restartReady && (number == t.interrupted.value.number || number == RESTART_SYSCALL) {
        RestartInterrupted(tid);
        return;
      }
      if t.interrupted.Some? && t.restartReady {
        ok := FinishInterrupted(tid, -1, EINTR, now);
        if !ok {
          return;
        }
      }
      EnterFresh(tid, number, args, env, now);
    }

    /** The restart pseudo-error branch of finish_syscall. */
    method SetCallAside(tid: int)
      requires Valid() && tid in Now().tasks
      modifies this, table.slots
      ensures Valid() && Slots() == old(Slots()) && Now() == SetAside(old(Now()), tid)
    {
      ReleaseInterrupted(tid, Replaced);
      var found := table.Get(tid);
      var t := found.value;
      Put(tid, t.(interrupted := t.pending, pending := None, restartReady := false));
    }

    /** The effect of a completion on a call set aside. */
    method NoteCompletion(tid: int, number: int)
      requires Valid() && tid in Now().tasks
      modifies this, table.slots
      ensures Valid() && Slots() == old(Slots()) && Now() == AfterCompletion(old(Now()), tid, number)
    {
      var found := table.Get(tid);
      var t := found.value;
      if t.interrupted.Some? {
        if number == RT_SIGRETURN {
          Put(tid, t.(restartReady := true));
        } else if !t.restartReady && number == t.interrupted.value.number {
          ReleaseInterrupted(tid, Superseded);
        }
      }
    }

    /** finish_syscall. */
    method FinishSyscall(tid: int, rval: int, isError: bool, ghost env: Env, now: Timespec) returns (ok: bool)
      requires Valid() && tid in Now().tasks && env.order == Slots() && env.now == now
      modifies this, table.slots, output, stats
      ensures Valid() && Slots() == old(Slots())
      ensures Realises(ok, Now(), Finish(cfg, old(Now()), tid, rval, isError, env))
    {
      var found := table.Get(tid);
      var pending := found.value.pending;
      if pending.None? {
        return true;
      }
      if IsRestartResult(rval) {
        SetCallAside(tid);
        return true;
      }
      var errorNumber := ErrorNumber(rval, isError);
      var at := StampOf(cfg, pending.value.number, now);
      ok := FinishPending(tid, rval, errorNumber, at);
      if ok {
        NoteCompletion(tid, pending.value.number);
      }
    }

    /** add_tracee. */
    method AddTracee(tid: int, tgid: int, attached: bool, newborn: bool, memory: bool) returns (ok: bool)
      requires Valid()
      modifies this, table, table.slots
      ensures Valid() && (table.slots == old(table.slots) || fresh(table.slots))
      ensures table.slots.Length >= old(table.slots.Length)
      ensures ok ==> AddTask(old(Now()), tid, tgid, attached, newborn) == Fine(Now())
      ensures AddTask(old(Now()), tid, tgid, attached, newborn).Fine? && Room(memory, old(table.slots.Length)) ==> ok
      ensures table.slots.Length <= 2 * old(table.slots.Length) + INITIAL_CAPACITY
    {
      var inserted;
      ok, inserted := table.Insert(tid, NewTracee(taskCount, tgid, attached, newborn), memory);
      if ok && inserted {
        taskCount := taskCount + 1;
        history := history.(births := history.births + 1);
      }
    }

    /** sg_tracee_table_remove and release_tracee. */
    method RemoveTracee(tid: int, ghost reason: Reason)
      requires Valid() && tid in Now().tasks
      modifies this, table, table.slots
      ensures Valid() && table.slots == old(table.slots) && Now() == RemoveTask(old(Now()), tid, reason)
    {
      ghost var before := Now();
      var removed := table.Remove(tid);
      history := history.(closings := history.closings + Losses(tid, removed.value, reason));
      RemoveTaskShape(before, tid, reason);
    }

    /** The PTRACE_EVENT_EXEC branch of handle_ptrace_event. */
    method HandleExecEvent(tid: int, ghost env: Env, now: Timespec) returns (ok: bool)
      requires Valid() && tid in Now().tasks && env.order == Slots() && env.now == now
      modifies this, table.slots, output, stats
      ensures Valid() && Slots() == old(Slots()) && Realises(ok, Now(), HandleExec(cfg, old(Now()), tid, env))
    {
      if tid == rootTid {
        rootExecObserved := true;
      }
      var found := table.Get(tid);
      ok := true;
      if found.value.pending.Some? {
        ok := FinishPending(tid, 0, 0, now);
        if !ok {
          return;
        }
      }
      found := table.Get(tid);
      Put(tid, found.value.(newborn := false));
    }

    /** The fork, vfork and clone branch of handle_ptrace_event. */
    method HandleChildEvent(tid: int, kind: ChildKind, child: nat, childTgid: int, ghost env: Env, now: Timespec,
                            memory: bool)
      returns (ok: bool)
      requires Valid() && tid in Now().tasks && env.now == now
      modifies this, table, table.slots, output
      ensures Valid() && (table.slots == old(table.slots) || fresh(table.slots))
      ensures table.slots.Length >= old(table.slots.Length)
      ensures var model := HandleChild(cfg, old(Now()), tid, kind, child, childTgid, env.(order := Slots()));
              (ok ==> model == Fine(Now())) && (model.Fine? && Room(memory, old(table.slots.Length)) ==> ok)
    {
      if child == 0 || child > INT_MAX {
        return false;
      }
      var found := table.Get(tid);
      var parent := found.value;
      var tgid := if childTgid > 0 then childTgid else if kind.Clone? then parent.tgid else child;
      ok := AddTracee(child, tgid, parent.attached, true, memory);
      if ok {
        Announce(Event(tid, parent.tgid, now, StartBody(child, kind)));
      }
    }

    /** An event that is not about a call: everything is flushed before it. */
    method Announce(event: Event)
      requires Valid()
      modifies output
      ensures Valid() && Now() == Emit(cfg, Flush(cfg, old(Now()), -1, Slots()), event)
    {
      FlushUnfinished(-1);
      EmitEvent(event);
    }

    /** A stop that is neither a syscall nor a ptrace event. */
    method HandleSignalStop(tid: int, signal: int, info: SigInfo, ghost env: Env, now: Timespec)
      returns (ok: bool, delivery: int, listen: bool)
      requires Valid() && tid in Now().tasks && env.order == Slots() && env.now == now
      modifies this, table.slots, output
      ensures Valid() && Slots() == old(Slots())
      ensures HandleSignal(cfg, old(Now()), tid, signal, info, env) ==
              if ok then Handled(Now(), delivery, listen) else Unhandled
    {
      var found := table.Get(tid);
      var t := found.value;
      delivery, listen := 0, false;
      if t.newborn && signal == SIGSTOP {
        Put(tid, t.(newborn := false));
        history := history.(suppressed := history.suppressed + [t.task]);
        return true, 0, false;
      }
      if info.NoInfo? {
        ok := info.einval && IsStoppingSignal(signal);
        listen := ok && t.attached;
        return;
      }
      Put(tid, t.(newborn := false, pendingSignal := signal));
      Announce(Event(tid, t.tgid, now, SignalBody(info.signo, info.code, FaultAddress(info))));
      return true, signal, false;
    }

    /** migrate_exec_tid. */
    method MigrateExecTid(tid: int, former: int, memory: bool) returns (ok: bool)
      requires Valid()
      modifies this, table, table.slots, output
      ensures Valid() && (table.slots == old(table.slots) || fresh(table.slots))
      ensures table.slots.Length >= old(table.slots.Length)
      ensures ok ==> MigrateExec(cfg, old(Now()), tid, former) == Fine(Now())
      ensures MigrateExec(cfg, old(Now()), tid, former).Fine? && Room(memory, old(table.slots.Length)) ==> ok
      ensures table.slots.Length <= 2 * old(table.slots.Length) + INITIAL_CAPACITY
      ensures former == tid ==> table.slots == old(table.slots)
    {
      if former == tid {
        return true;
      }
      ghost var before := Now();
      var source := TakeOut(tid, former);
      MigrateShape(cfg, before, Now(), tid, former, source);
      if source.None? {
        ok := AddTracee(tid, tid, cfg.mode.Attach?, false, memory);
        if ok {
          output.MigrateTid(former, tid, Now());
        }
      } else {
        ok := PlaceTracee(tid, former, source.value, memory);
      }
    }

    /** Both TIDs are taken out of the table; the state that goes on is returned. */
    method TakeOut(tid: int, former: int) returns (source: Option<Tracee>)
      requires Valid() && former != tid
      modifies this, table, table.slots
      ensures Valid() && table.slots == old(table.slots)
      ensures TakenOut(old(Now()), Now(), tid, former, source)
    {
      source := table.Remove(former);
      var replaced := table.Remove(tid);
      if source.Some? && replaced.Some? {
        history := history.(closings := history.closings + Losses(tid, replaced.value, LostAtExec));
      } else if source.None? && replaced.Some? {
        source := replaced;
      }
    }

    /** The state of a task goes on under another TID. */
    method PlaceTracee(tid: int, former: int, source: Tracee, memory: bool) returns (ok: bool)
      requires Valid() && tid !in Now().tasks
      modifies this, table, table.slots, output
      ensures Valid() && (table.slots == old(table.slots) || fresh(table.slots))
      ensures table.slots.Length >= old(table.slots.Length)
      ensures ok ==> tid > 0 && Now() == TakeOver(old(Now()), tid, former, source)
      ensures tid > 0 && Room(memory, old(table.slots.Length)) ==> ok
      ensures table.slots.Length <= 2 * old(table.slots.Length) + INITIAL_CAPACITY
    {
      var inserted;
      ok, inserted := table.Insert(tid, source.(tgid := tid, newborn := false), memory);
      if ok {
        output.MigrateTid(former, tid, Now());
        if rootTid == former {
          rootTid := tid;
        }
      }
    }

    /** handle_syscall_stop and handle_seccomp_stop. */
    method HandleSyscallStop(n: Notice) returns (ok: bool)
      requires Valid() && n.tid in Now().tasks && (n.what.SyscallEntry? || n.what.SyscallExit? || n.what.SeccompStop?)
      modifies this, table.slots, output, stats
      ensures Valid() && Slots() == old(Slots())
      ensures HandleStop(cfg, old(Now()), WithOrder(n, old(Slots()))) ==
              if ok then Handled(Now(), 0, false) else Unhandled
    {
      var found := table.Get(n.tid);
      ghost var env := n.env.(order := Slots());
      StopShape(cfg, Now(), WithOrder(n, Slots()));
      Put(n.tid, found.value.(inStop := true));
      match n.what
      case SyscallEntry(number, args) => ok := BeginSyscall(n.tid, number, args, env, n.env.now);
      case SyscallExit(rval, isError) => ok := FinishSyscall(n.tid, rval, isError, env, n.env.now);
      case SeccompStop(number, args) =>
        if number / X32_BIT % 2 == 1 {
          ok := false;
        } else {
          ok := BeginSyscall(n.tid, number, args, env, n.env.now);
        }
    }

    /** A stop that reports a child. */
    method HandleChildStop(n: Notice, memory: bool) returns (ok: bool)
      requires Valid() && n.tid in Now().tasks && n.what.ChildStop?
      modifies this, table, table.slots, output
      ensures Valid() && (table.slots == old(table.slots) || fresh(table.slots))
      ensures table.slots.Length >= old(table.slots.Length)
      ensures var model := HandleStop(cfg, old(Now()), WithOrder(n, Slots()));
              && (ok ==> model == Handled(Now(), 0, false))
              && (model.Handled? && Room(memory, old(table.slots.Length)) ==> ok)
    {
      var found := table.Get(n.tid);
      Put(n.tid, found.value.(inStop := true));
      ok := HandleChildEvent(n.tid, n.what.kind, n.what.child, n.what.childTgid, n.env, n.env.now, memory);
      StopShape(cfg, old(Now()), WithOrder(n, Slots()));
    }

    /** PTRACE_EVENT_STOP: a group stop or the end of one. */
    method HandleEventStop(n: Notice) returns (listen: bool)
      requires Valid() && n.tid in Now().tasks && n.what.EventStop?
      modifies table.slots
      ensures Valid() && Slots() == old(Slots())
      ensures HandleStop(cfg, old(Now()), WithOrder(n, old(Slots()))) == Handled(Now(), 0, listen)
    {
      var found := table.Get(n.tid);
      var t := found.value;
      Put(n.tid, t.(inStop := true, newborn := false));
      listen := n.what.signal != SIGTRAP && t.attached;
      assert old(Now()).tasks[n.tid := t.(inStop := true)][n.tid := t.(inStop := true, newborn := false)] ==
             Now().tasks;
    }

    /** PTRACE_EVENT_EXEC. */
    method HandleExecStop(n: Notice) returns (ok: bool)
      requires Valid() && n.tid in Now().tasks && n.what.ExecStop?
      modifies this, table.slots, output, stats
      ensures Valid() && Slots() == old(Slots())
      ensures HandleStop(cfg, old(Now()), WithOrder(n, old(Slots()))) ==
              if ok then Handled(Now(), 0, false) else Unhandled
    {
      var found := table.Get(n.tid);
      ghost var env := n.env.(order := Slots());
      Put(n.tid, found.value.(inStop := true));
      ok := HandleExecEvent(n.tid, env, n.env.now);
    }

    /** A stop without a ptrace event. */
    method HandlePlainStop(n: Notice) returns (ok: bool, delivery: int, listen: bool)
      requires Valid() && n.tid in Now().tasks && n.what.SignalStop?
      modifies this, table.slots, output, stats
      ensures Valid() && Slots() == old(Slots())
      ensures HandleStop(cfg, old(Now()), WithOrder(n, old(Slots()))) ==
              if ok then Handled(Now(), delivery, listen) else Unhandled
    {
      var found := table.Get(n.tid);
      ghost var env := n.env.(order := Slots());
      Put(n.tid, found.value.(inStop := true));
      ok, delivery, listen := HandleSignalStop(n.tid, n.what.signal, n.what.info, env, n.env.now);
    }

    /** The branch of trace_loop for a stop. */
    method HandleStopNotice(n: Notice, memory: bool) returns (ok: bool, delivery: int, listen: bool)
      requires Valid() && n.tid in Now().tasks && IsStop(n.what)
      modifies this, table, table.slots, output, stats
      ensures Valid() && (table.slots == old(table.slots) || fresh(table.slots))
      ensures table.slots.Length >= old(table.slots.Length)
      ensures !n.what.ChildStop? ==> Slots() == old(Slots())
      ensures var model := HandleStop(cfg, old(Now()), WithOrder(n, Slots()));
              && (ok ==> model == Handled(Now(), delivery, listen))
              && (model.Handled? && Room(memory, old(table.slots.Length)) ==> ok)
    {
      delivery, listen := 0, false;
      if n.what.SyscallEntry? || n.what.SyscallExit? || n.what.SeccompStop? {
        ok := HandleSyscallStop(n);
      } else if n.what.ChildStop? {
        ok := HandleChildStop(n, memory);
      } else if n.what.EventStop? {
        listen := HandleEventStop(n);
        ok := true;
      } else if n.what.ExecStop? {
        ok := HandleExecStop(n);
      } else if n.what.SignalStop? {
        ok, delivery, listen := HandlePlainStop(n);
      } else {
        ok := false;
      }
    }

    /** resume_tracee or listen_tracee, and the rest of the turn. */
    method ResumeTracee(tid: int, signal: int, listen: bool, env: Env) returns (turn: Turn)
      requires Valid() && tid in Now().tasks
      modifies this, table.slots
      ensures Valid() && Slots() == old(Slots())
      ensures Turns(turn, Now(), Resume(cfg, old(Now()), tid, signal, listen, env))
    {
      var found := table.Get(tid);
      var t := found.value;
      var asked := if listen then Listen else if cfg.seccomp && t.pending.None? then Continue else UntilSyscall;
      history := history.(requests := history.requests + [Request(tid, t.task, asked, signal, env.reply.Gone?)]);
      match env.reply
      case Refused => turn := Broken;
      case Gone =>
        Put(tid, t.(asked := asked));
        turn := Again;
      case Accepted =>
        Put(tid, t.(asked := asked, inStop := false, pendingSignal := 0));
        turn := if env.shutdown != 0 then Quit(128 + env.shutdown) else Again;
    }

    /** write_exit. */
    method ReportExit(n: Notice)
      requires Valid() && n.tid in Now().tasks && (n.what.Exited? || n.what.Killed?)
      modifies output
      ensures Valid() && Now() == WriteExit(cfg, old(Now()), WithOrder(n, Slots()))
    {
      var found := table.Get(n.tid);
      var code := if n.what.Exited? then n.what.code else n.what.signal;
      Announce(Event(n.tid, found.value.tgid, n.env.now, ExitBody(code, n.what.Killed?)));
    }

    /** record_exit_status. */
    method RecordExitStatus(n: Notice)
      requires Valid() && (n.what.Exited? || n.what.Killed?)
      modifies `rootStatus
      ensures Valid() && Now() == RecordStatus(old(Now()), n)
    {
      if n.tid == rootTid {
        rootStatus := Some(if n.what.Exited? then n.what.code else 128 + n.what.signal);
      }
    }

    /** The branch of trace_loop for an exit. */
    method HandleExit(n: Notice) returns (ok: bool)
      requires Valid() && n.tid in Now().tasks && (n.what.Exited? || n.what.Killed?)
      modifies this, table, table.slots, output
      ensures Valid() && table.slots == old(table.slots)
      ensures Realises(ok, Now(), Bury(cfg, old(Now()), WithOrder(n, old(Slots()))))
    {
      if cfg.seccomp && n.tid == rootTid && !rootExecObserved && n.what == Exited(126) {
        return false;
      }
      ghost var m := WithOrder(n, Slots());
      ReportExit(n);
      ghost var written := Now();
      RecordExitStatus(n);
      assert Now() == RecordStatus(written, m);
      RemoveTracee(n.tid, LostAtExit);
      ok := true;
    }

    /** Migration at an exec, and adoption of an unknown stopped task. */
    method AdmitNotice(n: Notice, memory: bool) returns (ok: bool)
      requires Valid()
      modifies this, table, table.slots, output
      ensures Valid() && (table.slots == old(table.slots) || fresh(table.slots))
      ensures table.slots.Length >= old(table.slots.Length)
      ensures ok ==> Admit(cfg, old(Now()), n) == Fine(Now())
      ensures Admit(cfg, old(Now()), n).Fine? && Room(memory, old(table.slots.Length)) ==> ok
      ensures table.slots.Length <= 2 * old(table.slots.Length) + INITIAL_CAPACITY
    {
      ok := true;
      if n.what.ExecStop? {
        if n.what.former > INT_MAX {
          return false;
        }
        MigratedIsTracked(cfg, Now(), n.tid, n.what.former);
        ok := MigrateExecTid(n.tid, n.what.former, memory);
        if !ok {
          return;
        }
      }
      var found := table.Get(n.tid);
      if found.None? && IsStop(n.what) && cfg.follow {
        ok := AddTracee(n.tid, if n.env.tgid <= 0 then n.tid else n.env.tgid, cfg.mode.Attach?, true, memory);
      }
    }

    /** The part of a turn after the entry has been looked up. */
    method HandleAdmitted(n: Notice, memory: bool) returns (turn: Turn, ghost order: seq<int>)
      requires Valid() && !n.what.WaitInterrupted?
      modifies this, table, table.slots, output, stats
      ensures Valid() && (table.slots == old(table.slots) || fresh(table.slots))
      ensures table.slots.Length >= old(table.slots.Length)
      ensures var model := Dispatch(cfg, old(Now()), WithOrder(n, order));
              && (!turn.Broken? ==> Turns(turn, Now(), model))
              && (turn.Broken? && Room(memory, old(table.slots.Length)) ==> model.Abort?)
      ensures !turn.Broken? ==> forall tid | tid in old(Now()).tasks :: tid in order
    {
      order := Slots();
      OrderCovers(table.hash, table.slots[..], table.place);
      var found := table.Get(n.tid);
      if found.None? {
        return Again, order;
      }
      if n.what.Continued? {
        Put(n.tid, found.value.(inStop := false));
        return Again, order;
      }
      if n.what.Exited? || n.what.Killed? {
        var ok := HandleExit(n);
        return if ok then Again else Broken, order;
      }
      turn, order := AnswerStop(n, memory);
    }

    /** A stop is handled; the slot order of its flushes covers the table. */
    method HandleCovering(n: Notice, memory: bool)
      returns (ok: bool, delivery: int, listen: bool, ghost order: seq<int>)
      requires Valid() && n.tid in Now().tasks && IsStop(n.what)
      modifies this, table, table.slots, output, stats
      ensures Valid() && (table.slots == old(table.slots) || fresh(table.slots))
      ensures table.slots.Length >= old(table.slots.Length)
      ensures var model := Dispatch(cfg, old(Now()), WithOrder(n, order));
              && (ok ==> n.tid in Now().tasks && model == Resume(cfg, Now(), n.tid, delivery, listen, n.env))
              && (!ok && Room(memory, old(table.slots.Length)) ==> model.Abort?)
      ensures ok ==> forall tid | tid in old(Now()).tasks :: tid in order
    {
      ghost var before := Now();
      ok, delivery, listen := HandleStopNotice(n, memory);
      order := Slots();
      AnswerShape(cfg, before, WithOrder(n, order));
      OrderCovers(table.hash, table.slots[..], table.place);
    }

    /** A stop is handled and answered. */
    method AnswerStop(n: Notice, memory: bool) returns (turn: Turn, ghost order: seq<int>)
      requires Valid() && n.tid in Now().tasks && IsStop(n.what)
      modifies this, table, table.slots, output, stats
      ensures Valid() && (table.slots == old(table.slots) || fresh(table.slots))
      ensures table.slots.Length >= old(table.slots.Length)
      ensures var model := Dispatch(cfg, old(Now()), WithOrder(n, order));
              && (!turn.Broken? ==> Turns(turn, Now(), model))
              && (turn.Broken? && Room(memory, old(table.slots.Length)) ==> model.Abort?)
      ensures !turn.Broken? ==> forall tid | tid in old(Now()).tasks :: tid in order
    {
      var ok, delivery, listen;
      ok, delivery, listen, order := HandleCovering(n, memory);
      if !ok {
        return Broken, order;
      }
      turn := ResumeTracee(n.tid, delivery, listen, n.env);
    }

    /** One turn of trace_loop.  `order` is the order of the table slots at the flushes of this turn; it
        covers the table. */
    method HandleNotice(n: Notice, memory: bool) returns (turn: Turn, ghost order: seq<int>)
      requires Valid()
      modifies this, table, table.slots, output, stats
      ensures Valid() && (table.slots == old(table.slots) || fresh(table.slots))
      ensures table.slots.Length >= old(table.slots.Length)
      ensures var model := Step(cfg, old(Now()), WithOrder(n, order));
              && (!turn.Broken? ==> Turns(turn, Now(), model))
              && (turn.Broken? && Roomy(memory, old(table.slots.Length)) ==> model.Abort?)
      ensures !turn.Broken? && !n.what.WaitInterrupted? ==>
                && Admit(cfg, old(Now()), n).Fine?
                && forall tid | tid in Admit(cfg, old(Now()), n).st.tasks :: tid in order
    {
      if n.what.WaitInterrupted? {
        return if n.env.shutdown != 0 then Quit(128 + n.env.shutdown) else Again, [];
      }
      AdmitIgnoresOrder(cfg, Now(), n);
      var ok := AdmitNotice(n, memory);
      if !ok {
        return Broken, [];
      }
      turn, order := HandleAdmitted(n, memory);
    }

    /** The condition of the loop, and the status it leaves with. */
    method AtLoopHead() returns (ended: bool, status: int)
      requires Valid()
      ensures LoopHead(cfg, Now()) == if ended then Drained(Now(), status) else Running(Now())
      ensures !ended ==> Now().tasks != map[]
    {
      ended := table.IsEmpty();
      status := if cfg.mode.Attach? then 0 else if rootStatus.Some? then rootStatus.value else 0;
    }

    /** The turn after as many notices as there are `orders`. */
    method TakeTurn(run: seq<Notice>, index: nat, memory: bool, ghost start: State, ghost orders: seq<seq<int>>)
      returns (turn: Turn, ghost order: seq<int>)
      requires Valid() && index == |orders| < |run| && Now().tasks != map[]
      requires Leads(cfg, start, Replay(run, orders), LoopHead(cfg, Now()))
      modifies this, table, table.slots, output, stats
      ensures Valid() && (table.slots == old(table.slots) || fresh(table.slots))
      ensures table.slots.Length >= old(table.slots.Length)
      ensures !turn.Broken? ==>
                Leads(cfg, start, Replay(run, orders + [order]),
                      if turn.Again? then LoopHead(cfg, Now()) else Halted(Now(), turn.status))
      ensures turn.Broken? && Roomy(memory, old(table.slots.Length)) ==>
                After(cfg, start, Replay(run, orders + [order])) == Aborted
    {
      ghost var before := Now();
      turn, order := HandleNotice(run[index], memory);
      if !turn.Broken? {
        TurnLeads(cfg, start, run, orders, order, before, turn, Now());
      } else if Roomy(memory, old(table.slots.Length)) {
        TurnBreaks(cfg, start, run, orders, order, before);
      }
    }

    /** trace_loop over the wait events `run`: the outcome is that of the model on the same events, with
        the slot orders of each turn filled in. */
    method TraceLoop(run: seq<Notice>, memory: bool) returns (turn: Turn, ghost orders: seq<seq<int>>)
      requires Valid()
      modifies this, table, table.slots, output, stats
      ensures Valid() && |orders| <= |run|
      ensures turn.Again? ==> |orders| == |run| && Leads(cfg, old(Now()), Replay(run, orders), Running(Now()))
      ensures turn.Quit? ==>
                || Leads(cfg, old(Now()), Replay(run, orders), Drained(Now(), turn.status))
                || Leads(cfg, old(Now()), Replay(run, orders), Halted(Now(), turn.status))
      ensures table.slots.Length >= old(table.slots.Length)
      ensures turn.Broken? && Roomy(memory, table.slots.Length) ==>
                After(cfg, old(Now()), Replay(run, orders)) == Aborted
    {
      orders := [];
      ghost var start := Now();
      StartLeads(cfg, start);
      var index := 0;
      while true
        invariant Valid() && (table.slots == old(table.slots) || fresh(table.slots))
        invariant table.slots.Length >= old(table.slots.Length)
        invariant index == |orders| <= |run|
        invariant Leads(cfg, start, Replay(run, orders), LoopHead(cfg, Now()))
        decreases |run| - index
      {
        var ended, status := AtLoopHead();
        if ended {
          return Quit(status), orders;
        }
        if index == |run| {
          return Again, orders;
        }
        ghost var order;
        turn, order := TakeTurn(run, index, memory, start, orders);
        orders := orders + [order];
        if !turn.Again? {
          return;
        }
        index := index + 1;
      }
    }
  }

  /** The run leads to the result, and each of its turns flushed in an order that covers the table. */
  ghost predicate Leads(cfg: Config, start: State, ran: seq<Notice>, r: RunResult) {
    After(cfg, start, ran) == r && Interleaving.Covered(cfg, start, ran)
  }

  lemma StartLeads(cfg: Config, start: State)
    ensures Leads(cfg, start, [], LoopHead(cfg, start))
  {
  }

  /** The notices with the slot orders of their turns. */
  ghost function Replay(run: seq<Notice>, orders: seq<seq<int>>): seq<Notice>
    requires |orders| <= |run|
  {
    if orders == [] then []
    else Replay(run, orders[..|orders| - 1]) + [WithOrder(run[|orders| - 1], orders[|orders| - 1])]
  }

  /** The launch part of sg_trace_run: the root is tracked and resumed; if that is refused, the run
      fails. */
  method Launch(cfg: Config, root: int, now: Timespec, reply: Reply, memory: bool) returns (ok: bool, tracer: Tracer)
    requires root > 0
    ensures fresh(tracer) && fresh(tracer.table) && fresh(tracer.table.slots)
    ensures fresh(tracer.output) && fresh(tracer.stats)
    ensures memory && reply.Accepted? ==> ok
    ensures ok ==> reply.Accepted? && tracer.Valid() && tracer.cfg == cfg && tracer.Now() == LaunchState(cfg, root)
  {
    tracer := new Tracer(cfg, root, HashTid);
    LaunchIs(cfg, root, Env(now, [], root, Accepted, 0));
    ok := tracer.AddTracee(root, root, false, false, memory);
    if !ok {
      return;
    }
    var _ := tracer.ResumeTracee(root, 0, false, Env(now, [], root, reply, 0));
    ok := reply.Accepted?;
  }

  /** Before anything is tracked. */
  function Nobody(root: int): State {
    State(map[], {}, [], Statistics.EMPTY, 0, Root(root, None, false), NO_HISTORY)
  }

  lemma LaunchIs(cfg: Config, root: int, env: Env)
    requires root > 0 && env.reply.Accepted? && env.shutdown == 0
    ensures var o := AddTask(Nobody(root), root, root, false, false);
            o.Fine? && root in o.st.tasks && Resume(cfg, o.st, root, 0, false, env) == Next(LaunchState(cfg, root))
  {
    var o := AddTask(Nobody(root), root, root, false, false);
    assert Resume(cfg, o.st, root, 0, false, env).st.tasks == LaunchState(cfg, root).tasks;
  }

  /** A launched command, from its start through any wait events.  The table, the output and the
      statistics in memory are those of the model, and so is a failure, unless memory ran out or the
      root could not be resumed.  The printed lines are therefore what the theorems about every run say:
      they follow the unfinished/resumed protocol, show no restart pseudo-error, and, where no selected
      call was set aside, name the calls announced and stand undisturbed. */
  method TraceCommand(cfg: Config, root: int, now: Timespec, reply: Reply, run: seq<Notice>, memory: bool)
    returns (turn: Turn, tracer: Tracer, ghost orders: seq<seq<int>>)
    requires root > 0 && cfg.mode.Launch?
    ensures |orders| <= |run|
    ensures turn.Again? ==> |orders| == |run|
    ensures !turn.Broken? ==>
              tracer.Valid() && Ends(turn, tracer.Now(), After(cfg, LaunchState(cfg, root), Replay(run, orders)))
    ensures turn.Broken? && reply.Accepted? && Roomy(memory, tracer.table.slots.Length) ==>
              After(cfg, LaunchState(cfg, root), Replay(run, orders)) == Aborted
    ensures !turn.Broken? ==> Printout(cfg, LaunchState(cfg, root), Replay(run, orders), tracer.output.log)
  {
    orders := [];
    var ok;
    ok, tracer := Launch(cfg, root, now, reply, memory);
    if !ok {
      return Broken, tracer, [];
    }
    turn, orders := tracer.TraceLoop(run, memory);
    if !turn.Broken? {
      PrintoutOfRun(cfg, LaunchState(cfg, root), Replay(run, orders));
    }
  }

  /** The loop ended in this state, or is still running in it. */
  ghost predicate Ends(turn: Turn, st: State, r: RunResult) {
    match turn
    case Again => r == Running(st)
    case Quit(status) => r == Drained(st, status) || r == Halted(st, status)
    case Broken => r == Aborted
  }

  /** What the theorems about every run say about the printed lines. */
  ghost predicate Printout(cfg: Config, start: State, ran: seq<Notice>, log: seq<Record>) {
    var r := After(cfg, start, ran);
    && !r.Aborted? && r.st.log == log
    && Protocol.Legal(log)
    && (forall k :: 0 <= k < |log| && Reporting.Completes(log[k]) ==> !IsRestartResult(Reporting.ShownResult(log[k])))
    && (Interleaving.TextOutput(cfg) ==> forall u :: Naming.TameFor(cfg, start, ran, u) ==> Naming.NamesAgree(log, u))
    && (Interleaving.TextOutput(cfg) && Interleaving.TameRun(cfg, start, ran) ==>
          forall k :: 0 <= k < |log| && log[k].Printed? && log[k].line.Whole? ==> exists i: nat :: Theorems.Undisturbed(cfg, r.st, k, i))
  }

  lemma PrintoutOfRun(cfg: Config, start: State, ran: seq<Notice>)
    requires Theorems.Begins(cfg, start) && !After(cfg, start, ran).Aborted? && Interleaving.Covered(cfg, start, ran)
    ensures Printout(cfg, start, ran, After(cfg, start, ran).st.log)
  {
    Theorems.AnnouncementsBalance(cfg, start, ran);
    Theorems.NoPseudoErrorEscapes(cfg, start, ran);
    if Interleaving.TextOutput(cfg) {
      forall u | Naming.TameFor(cfg, start, ran, u) ensures Naming.NamesAgree(After(cfg, start, ran).st.log, u) {
        Theorems.ResumedNamesAnnounced(cfg, start, ran, u);
      }
      if Interleaving.TameRun(cfg, start, ran) { Theorems.UnsplitMeansUndisturbed(cfg, start, ran); }
    }
  }

  /** Syscall stops and child events, after the stop has been noted. */
  lemma StopShape(cfg: Config, st: State, n: Notice)
    requires n.tid in st.tasks
    ensures var stopped := SetTask(st, n.tid, st.tasks[n.tid].(inStop := true));
            match n.what
            case SyscallEntry(number, args) =>
              HandleStop(cfg, st, n) == Plainly(Begin(cfg, stopped, n.tid, number, args, n.env))
            case SyscallExit(rval, isError) =>
              HandleStop(cfg, st, n) == Plainly(Finish(cfg, stopped, n.tid, rval, isError, n.env))
            case SeccompStop(number, args) =>
              HandleStop(cfg, st, n) ==
              if number / X32_BIT % 2 == 1 then Unhandled else Plainly(Begin(cfg, stopped, n.tid, number, args, n.env))
            case ChildStop(kind, child, tgid) =>
              HandleStop(cfg, st, n) == Plainly(HandleChild(cfg, stopped, n.tid, kind, child, tgid, n.env))
            case _ => true
  {
  }

  /** A stop is answered in the state its handling leads to, in which nobody is missing. */
  lemma AnswerShape(cfg: Config, st: State, n: Notice)
    requires n.tid in st.tasks && IsStop(n.what)
    ensures match HandleStop(cfg, st, n)
            case Unhandled => Dispatch(cfg, st, n) == Abort
            case Handled(handled, signal, listen) =>
              && Dispatch(cfg, st, n) == Resume(cfg, handled, n.tid, signal, listen, n.env)
              && forall tid | tid in st.tasks :: tid in handled.tasks
  {
    Lifecycle.HandleStopAnswered(cfg, st, n);
  }

  /** A turn of the loop is one more notice of the run. */
  lemma TurnAdvances(cfg: Config, start: State, ran: seq<Notice>, before: State, n: Notice, turn: Turn, st: State)
    requires After(cfg, start, ran) == LoopHead(cfg, before)
    requires before.tasks != map[] && Turns(turn, st, Step(cfg, before, n))
    ensures After(cfg, start, ran + [n]) ==
            match turn case Again => LoopHead(cfg, st) case Quit(status) => Halted(st, status) case Broken => Aborted
  {
    AfterMore(cfg, start, ran, n);
  }

  lemma TurnCovers(cfg: Config, start: State, ran: seq<Notice>, before: State, n: Notice)
    requires After(cfg, start, ran) == LoopHead(cfg, before) && Interleaving.CoversTurn(cfg, before, n)
    ensures Interleaving.Covered(cfg, start, ran) ==> Interleaving.Covered(cfg, start, ran + [n])
  {
    assert (ran + [n])[..|ran|] == ran;
  }

  /** A turn that goes well. */
  lemma TurnLeads(cfg: Config, start: State, run: seq<Notice>, orders: seq<seq<int>>, order: seq<int>,
                  before: State, turn: Turn, st: State)
    requires |orders| < |run| && Leads(cfg, start, Replay(run, orders), LoopHead(cfg, before)) && before.tasks != map[]
    requires !turn.Broken? && Turns(turn, st, Step(cfg, before, WithOrder(run[|orders|], order)))
    requires var n := run[|orders|];
             !n.what.WaitInterrupted? && Admit(cfg, before, n).Fine? ==>
               forall tid | tid in Admit(cfg, before, n).st.tasks :: tid in order
    ensures Leads(cfg, start, Replay(run, orders + [order]),
                  if turn.Again? then LoopHead(cfg, st) else Halted(st, turn.status))
  {
    var n := WithOrder(run[|orders|], order);
    assert (orders + [order])[..|orders|] == orders;
    TurnAdvances(cfg, start, Replay(run, orders), before, n, turn, st);
    AdmitIgnoresOrder(cfg, before, run[|orders|]);
    TurnCovers(cfg, start, Replay(run, orders), before, n);
  }

  /** A turn that fails. */
  lemma TurnBreaks(cfg: Config, start: State, run: seq<Notice>, orders: seq<seq<int>>, order: seq<int>, before: State)
    requires |orders| < |run| && After(cfg, start, Replay(run, orders)) == LoopHead(cfg, before)
    requires before.tasks != map[] && Step(cfg, before, WithOrder(run[|orders|], order)).Abort?
    ensures After(cfg, start, Replay(run, orders + [order])) == Aborted
  {
    assert (orders + [order])[..|orders|] == orders;
    TurnAdvances(cfg, start, Replay(run, orders), before, WithOrder(run[|orders|], order), Broken, before);
  }

  /** The closings of the calls of a task that goes away. */
  ghost function Losses(tid: int, t: Tracee, reason: Reason): seq<Closing> {
    (if t.pending.Some? then [Closing(t.pending.value.serial, t.task, tid, Discarded(reason))] else []) +
    (if t.interrupted.Some? then [Closing(t.interrupted.value.serial, t.task, tid, Discarded(reason))] else [])
  }

  lemma RemoveTaskShape(st: State, tid: int, reason: Reason)
    requires tid in st.tasks
    ensures RemoveTask(st, tid, reason) ==
            st.(tasks := st.tasks - {tid},
                history := st.history.(closings := st.history.closings + Losses(tid, st.tasks[tid], reason)))
  {
  }

  ghost predicate TakenOut(st: State, x: State, tid: int, former: int, source: Option<Tracee>) {
    && x == st.(tasks := x.tasks, history := x.history)
    && x.tasks == st.tasks - {former} - {tid}
    && source == (if former in st.tasks then Some(st.tasks[former]) else if tid in st.tasks then Some(st.tasks[tid]) else None)
    && x.history == if former in st.tasks && tid in st.tasks then
                      st.history.(closings := st.history.closings + Losses(tid, st.tasks[tid], LostAtExec))
                    else st.history
  }

  /** The three cases of the migration, on the state with both TIDs taken out. */
  lemma MigrateShape(cfg: Config, st: State, x: State, tid: int, former: int, source: Option<Tracee>)
    requires former != tid && TakenOut(st, x, tid, former, source)
    ensures source.None? ==> x == st
    ensures source.Some? ==>
              MigrateExec(cfg, st, tid, former) == if tid <= 0 then Failed else Fine(TakeOver(x, tid, former, source.value))
  {
    if source.None? {
      assert x.tasks == st.tasks;
    } else {
      var t := source.value.(tgid := tid, newborn := false);
      if tid in st.tasks { RemoveTaskShape(st, tid, LostAtExec); }
      assert x.tasks[tid := t] == (st.tasks - {former})[tid := t];
      if former in st.tasks {
        var cleared := if tid in st.tasks then RemoveTask(st, tid, LostAtExec) else st;
        var moved := cleared.(tasks := cleared.tasks - {former});
        assert moved.tasks == x.tasks;
        assert moved == x;
      } else {
        assert st.tasks[tid := t] == x.tasks[tid := t];
        assert SetTask(st, tid, t) == SetTask(x, tid, t);
      }
    }
  }

  lemma MigratedIsTracked(cfg: Config, st: State, tid: int, former: int)
    ensures var o := MigrateExec(cfg, st, tid, former); o.Fine? && former != tid ==> tid in o.st.tasks
  {
  }

  lemma AdmitIgnoresOrder(cfg: Config, st: State, n: Notice)
    ensures forall order :: Admit(cfg, st, WithOrder(n, order)) == Admit(cfg, st, n)
  {
  }

  /** An occupied slot holds the entry of its TID. */
  lemma EntryAt(hash: int -> nat, slots: seq<Slot>, place: map<int, nat>, index: nat)
    requires WellPlaced(hash, slots, place) && index < |slots| && slots[index].Occupied?
    ensures slots[index].tid in Mapping(slots, place) && Mapping(slots, place)[slots[index].tid] == slots[index].tracee
  {
    assert place[slots[index].tid] == index;
  }

  lemma OrderNext(slots: seq<Slot>, index: nat)
    requires index < |slots|
    ensures Order(slots[..index + 1]) ==
            if slots[index].Occupied? then Order(slots[..index]) + [slots[index].tid] else Order(slots[..index])
    ensures slots[index].Occupied? ==>
              Order(slots[..index + 1])[..|Order(slots[..index + 1])| - 1] == Order(slots[..index])
  {
    assert slots[..index + 1][..index] == slots[..index];
    assert Order(slots[..index]) + [] == Order(slots[..index]);
  }
}
