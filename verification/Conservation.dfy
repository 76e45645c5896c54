/** Every fresh syscall entry ends in exactly one way, and what is printed or counted for it is what
    was entered. */
module Conservation {
  import opened Bits
  import opened Events
  import opened TraceModel

  ghost predicate Holds(t: Tracee, serial: nat) {
    || (t.pending.Some? && t.pending.value.serial == serial)
    || (t.interrupted.Some? && t.interrupted.value.serial == serial)
  }

  ghost predicate HeldBySome(tasks: map<int, Tracee>, serial: nat) {
    exists tid :: tid in tasks && Holds(tasks[tid], serial)
  }

  ghost predicate Closed(h: History, serial: nat) {
    exists i :: 0 <= i < |h.closings| && h.closings[i].serial == serial
  }

  /** The call is a recorded entry of that thread and has not been closed. */
  ghost predicate Outstanding(h: History, task: nat, call: Call) {
    && call.serial < |h.entries|
    && h.entries[call.serial].task == task
    && h.entries[call.serial].number == call.number
    && h.entries[call.serial].args == call.args
    && h.entries[call.serial].at == call.enteredAt
    && !Closed(h, call.serial)
  }

  ghost predicate GoodTask(h: History, t: Tracee) {
    && t.task < h.births
    && (t.restartReady ==> t.interrupted.Some? && t.pending.None?)
    && (t.pending.Some? ==> Outstanding(h, t.task, t.pending.value))
    && (t.interrupted.Some? ==> Outstanding(h, t.task, t.interrupted.value))
    && (t.pending.Some? && t.interrupted.Some? ==> t.pending.value.serial != t.interrupted.value.serial)
  }

  /** The closing agrees with the entry it closes. */
  ghost predicate Faithful(h: History, c: Closing) {
    && c.serial < |h.entries|
    && h.entries[c.serial].task == c.task
    && (c.fate.Completed? ==>
          && c.fate.syscall.number == h.entries[c.serial].number
          && c.fate.syscall.args == h.entries[c.serial].args
          && c.fate.syscall.enteredAt == h.entries[c.serial].at)
  }

  ghost predicate Books(tasks: map<int, Tracee>, h: History) {
    && (forall tid | tid in tasks :: GoodTask(h, tasks[tid]))
    && (forall a, b | a in tasks && b in tasks && a != b :: tasks[a].task != tasks[b].task)
    && (forall i :: 0 <= i < |h.closings| ==> Faithful(h, h.closings[i]))
    && (forall i, j :: 0 <= i < j < |h.closings| ==> h.closings[i].serial != h.closings[j].serial)
    && (forall s: nat :: s < |h.entries| ==> Closed(h, s) || HeldBySome(tasks, s))
  }

  ghost predicate Balanced(st: State) {
    Books(st.tasks, st.history)
  }

  // ----- the elementary changes

  lemma ClosedMore(h: History, h': History, c: Closing)
    requires h' == h.(closings := h.closings + [c])
    ensures forall s: nat :: Closed(h', s) <==> Closed(h, s) || s == c.serial
  {
    forall s: nat ensures Closed(h', s) <==> Closed(h, s) || s == c.serial {
      if Closed(h, s) {
        var i :| 0 <= i < |h.closings| && h.closings[i].serial == s;
        assert h'.closings[i].serial == s;
      }
      assert h'.closings[|h.closings|] == c;
    }
  }

  /** The calls of `t'` are those of `t` except, possibly, the one with serial `gone`. */
  ghost predicate Sheds(t: Tracee, t': Tracee, gone: nat) {
    && t'.task == t.task
    && (t'.restartReady ==> t'.interrupted.Some? && t'.pending.None?)
    && (t'.pending.Some? ==> t'.pending == t.pending || t'.pending == t.interrupted)
    && (t'.interrupted.Some? ==> t'.interrupted == t.pending || t'.interrupted == t.interrupted)
    && (t'.pending.Some? && t'.interrupted.Some? ==> t'.pending.value.serial != t'.interrupted.value.serial)
    && !Holds(t', gone)
    && forall s: nat :: Holds(t, s) ==> s == gone || Holds(t', s)
  }

  lemma CloseOne(tasks: map<int, Tracee>, h: History, tid: int, t': Tracee, c: Closing, h': History)
    requires Books(tasks, h) && tid in tasks
    requires Holds(tasks[tid], c.serial) && c.task == tasks[tid].task
    requires Sheds(tasks[tid], t', c.serial)
    requires Faithful(h, c) && h' == h.(closings := h.closings + [c])
    ensures Books(tasks[tid := t'], h')
  {
    var after := tasks[tid := t'];
    ClosedMore(h, h', c);
    forall u | u in after ensures GoodTask(h', after[u]) {
      assert GoodTask(h, tasks[u]);
      if u != tid {
        assert h.entries[c.serial].task == tasks[tid].task;
        assert !Holds(tasks[u], c.serial);
      }
    }
    forall s: nat | s < |h'.entries| ensures Closed(h', s) || HeldBySome(after, s) {
      if !Closed(h, s) && s != c.serial {
        var u :| u in tasks && Holds(tasks[u], s);
        assert Holds(after[u], s);
      }
    }
    assert !Closed(h, c.serial) by { assert GoodTask(h, tasks[tid]); }
    forall i, j | 0 <= i < j < |h'.closings| ensures h'.closings[i].serial != h'.closings[j].serial {
      if j == |h.closings| { assert h.closings[i] == h'.closings[i]; }
    }
  }

  /** The task keeps its calls, possibly in other places. */
  lemma Rearrange(tasks: map<int, Tracee>, h: History, tid: int, t': Tracee)
    requires Books(tasks, h) && tid in tasks
    requires t'.task == tasks[tid].task
    requires t'.restartReady ==> t'.interrupted.Some? && t'.pending.None?
    requires (t'.pending == tasks[tid].pending && t'.interrupted == tasks[tid].interrupted)
          || (t'.pending == tasks[tid].interrupted && t'.interrupted == tasks[tid].pending)
    ensures Books(tasks[tid := t'], h)
  {
    var after := tasks[tid := t'];
    forall u | u in after ensures GoodTask(h, after[u]) {
      assert GoodTask(h, tasks[u]);
    }
    forall s: nat | s < |h.entries| ensures Closed(h, s) || HeldBySome(after, s) {
      if !Closed(h, s) {
        var u :| u in tasks && Holds(tasks[u], s);
        assert Holds(after[u], s);
      }
    }
  }

  lemma Enter(tasks: map<int, Tracee>, h: History, tid: int, call: Call, mark: nat, h': History)
    requires Books(tasks, h) && tid in tasks
    requires tasks[tid].pending.None? && !tasks[tid].restartReady
    requires call.serial == |h.entries|
    requires h' == h.(entries := h.entries + [Entry(tasks[tid].task, call.number, call.args, mark, call.enteredAt)])
    ensures Books(tasks[tid := tasks[tid].(pending := Some(call))], h')
  {
    var after := tasks[tid := tasks[tid].(pending := Some(call))];
    assert forall s: nat :: Closed(h', s) <==> Closed(h, s);
    forall i | 0 <= i < |h.closings| ensures h.closings[i].serial != call.serial {
      assert Faithful(h, h.closings[i]);
    }
    forall u | u in after ensures GoodTask(h', after[u]) {
      assert GoodTask(h, tasks[u]);
    }
    forall i | 0 <= i < |h'.closings| ensures Faithful(h', h'.closings[i]) {
      assert Faithful(h, h.closings[i]);
    }
    forall s: nat | s < |h'.entries| ensures Closed(h', s) || HeldBySome(after, s) {
      if s == call.serial {
        assert Holds(after[tid], s);
      } else if !Closed(h, s) {
        var u :| u in tasks && Holds(tasks[u], s);
        assert Holds(after[u], s);
      }
    }
  }

  lemma Arrive(tasks: map<int, Tracee>, h: History, tid: int, t: Tracee)
    requires Books(tasks, h) && tid !in tasks
    requires t.task == h.births && t.pending.None? && t.interrupted.None? && !t.restartReady
    ensures Books(tasks[tid := t], h.(births := h.births + 1))
  {
    var after, h' := tasks[tid := t], h.(births := h.births + 1);
    assert forall s: nat :: Closed(h', s) <==> Closed(h, s);
    forall u | u in after ensures GoodTask(h', after[u]) {
      if u != tid { assert GoodTask(h, tasks[u]); }
    }
    forall a, b | a in after && b in after && a != b ensures after[a].task != after[b].task {
      assert a != tid ==> GoodTask(h, tasks[a]);
      assert b != tid ==> GoodTask(h, tasks[b]);
    }
    forall i | 0 <= i < |h'.closings| ensures Faithful(h', h'.closings[i]) {
      assert Faithful(h, h.closings[i]);
    }
    forall s: nat | s < |h'.entries| ensures Closed(h', s) || HeldBySome(after, s) {
      if !Closed(h, s) {
        var u :| u in tasks && Holds(tasks[u], s);
        assert Holds(after[u], s);
      }
    }
  }

  lemma Leave(tasks: map<int, Tracee>, h: History, tid: int)
    requires Books(tasks, h) && tid in tasks
    requires tasks[tid].pending.None? && tasks[tid].interrupted.None?
    ensures Books(tasks - {tid}, h)
  {
    var after := tasks - {tid};
    forall s: nat | s < |h.entries| ensures Closed(h, s) || HeldBySome(after, s) {
      if !Closed(h, s) {
        var u :| u in tasks && Holds(tasks[u], s);
        assert Holds(after[u], s);
      }
    }
  }

  lemma Rekey(tasks: map<int, Tracee>, h: History, former: int, tid: int, t: Tracee)
    requires Books(tasks, h) && former in tasks && tid !in tasks
    requires t == tasks[former].(tgid := tid, newborn := false)
    ensures Books((tasks - {former})[tid := t], h)
  {
    var after := (tasks - {former})[tid := t];
    assert GoodTask(h, tasks[former]);
    forall s: nat | s < |h.entries| ensures Closed(h, s) || HeldBySome(after, s) {
      if !Closed(h, s) {
        var u :| u in tasks && Holds(tasks[u], s);
        assert Holds(after[if u == former then tid else u], s);
      }
    }
  }

  // ----- the operations of the tracer

  lemma CompletePendingBalanced(cfg: Config, st: State, tid: int, result: int, errorNumber: int, at: Timespec,
                                order: seq<int>)
    requires Balanced(st) && tid in st.tasks && st.tasks[tid].pending.Some?
    ensures var o := CompletePending(cfg, st, tid, result, errorNumber, at, order);
            o.Fine? ==> Balanced(o.st) && tid in o.st.tasks && o.st.tasks[tid] == st.tasks[tid].(pending := None)
  {
    var t := st.tasks[tid];
    var done := Finished(t.pending.value, result, errorNumber, at);
    var o := WriteSyscall(cfg, st, tid, done, order);
    if o.Fine? {
      assert GoodTask(st.history, t);
      var c := Closing(t.pending.value.serial, t.task, tid, Completed(done, LineOf(cfg, o.st, done.number)));
      CloseOne(st.tasks, st.history, tid, t.(pending := None), c, AddClosing(o.st, c).history);
    }
  }

  lemma CompleteInterruptedBalanced(cfg: Config, st: State, tid: int, result: int, errorNumber: int, at: Timespec,
                                    order: seq<int>)
    requires Balanced(st) && tid in st.tasks && st.tasks[tid].interrupted.Some?
    ensures var o := CompleteInterrupted(cfg, st, tid, result, errorNumber, at, order);
            o.Fine? ==>
              && Balanced(o.st) && tid in o.st.tasks
              && o.st.tasks[tid] == st.tasks[tid].(interrupted := None, restartReady := false)
  {
    var t := st.tasks[tid];
    var done := Finished(t.interrupted.value, result, errorNumber, at);
    var o := WriteSyscall(cfg, st, tid, done, order);
    if o.Fine? {
      assert GoodTask(st.history, t);
      var c := Closing(t.interrupted.value.serial, t.task, tid, Completed(done, LineOf(cfg, o.st, done.number)));
      CloseOne(st.tasks, st.history, tid, t.(interrupted := None, restartReady := false), c,
               AddClosing(o.st, c).history);
    }
  }

  lemma DropPendingBalanced(st: State, tid: int, reason: Reason)
    requires Balanced(st) && tid in st.tasks
    ensures Balanced(DropPending(st, tid, reason))
  {
    var t := st.tasks[tid];
    assert GoodTask(st.history, t);
    if t.pending.Some? {
      var c := Closing(t.pending.value.serial, t.task, tid, Discarded(reason));
      CloseOne(st.tasks, st.history, tid, t.(pending := None), c, AddClosing(st, c).history);
    }
  }

  lemma DropInterruptedBalanced(st: State, tid: int, reason: Reason)
    requires Balanced(st) && tid in st.tasks
    ensures Balanced(DropInterrupted(st, tid, reason))
  {
    var t := st.tasks[tid];
    assert GoodTask(st.history, t);
    if t.interrupted.Some? {
      var c := Closing(t.interrupted.value.serial, t.task, tid, Discarded(reason));
      CloseOne(st.tasks, st.history, tid, t.(interrupted := None, restartReady := false), c, AddClosing(st, c).history);
    }
  }

  lemma RemoveTaskBalanced(st: State, tid: int, reason: Reason)
    requires Balanced(st) && tid in st.tasks
    ensures Balanced(RemoveTask(st, tid, reason))
    ensures RemoveTask(st, tid, reason).tasks == st.tasks - {tid}
  {
    DropPendingBalanced(st, tid, reason);
    var dropped := DropPending(st, tid, reason);
    DropInterruptedBalanced(dropped, tid, reason);
    var emptied := DropInterrupted(dropped, tid, reason);
    Leave(emptied.tasks, emptied.history, tid);
  }

  lemma BeginBalanced(cfg: Config, st: State, tid: int, number: nat, args: seq<int>, env: Env)
    requires Balanced(st) && tid in st.tasks
    ensures var o := Begin(cfg, st, tid, number, args, env); o.Fine? ==> Balanced(o.st)
  {
    if st.tasks[tid].pending.Some? {
      CompletePendingBalanced(cfg, st, tid, 0, 0, env.now, env.order);
    }
    var settled := SettleExec(cfg, st, tid, env);
    if settled.Fine? {
      var t := settled.st.tasks[tid];
      assert GoodTask(settled.st.history, t);
      if Restarts(t, number) {
        Rearrange(settled.st.tasks, settled.st.history, tid,
                  t.(pending := t.interrupted, interrupted := None, restartReady := false));
      } else {
        if t.interrupted.Some? && t.restartReady {
          CompleteInterruptedBalanced(cfg, settled.st, tid, -1, EINTR, env.now, env.order);
        }
        var exposed := ExposeEintr(cfg, settled.st, tid, env);
        if exposed.Fine? {
          FreshEntryBalanced(cfg, exposed.st, tid, number, args, env);
        }
      }
    }
  }

  lemma FreshEntryBalanced(cfg: Config, st: State, tid: int, number: int, args: seq<int>, env: Env)
    requires Balanced(st) && tid in st.tasks && st.tasks[tid].pending.None? && !st.tasks[tid].restartReady
    ensures Balanced(FreshEntry(cfg, st, tid, number, args, env))
  {
    var after := FreshEntry(cfg, st, tid, number, args, env);
    var call := after.tasks[tid].pending.value;
    Enter(st.tasks, st.history, tid, call, after.history.entries[call.serial].mark, after.history);
  }

  lemma SetAsideBalanced(st: State, tid: int)
    requires Balanced(st) && tid in st.tasks
    ensures Balanced(SetAside(st, tid))
  {
    DropInterruptedBalanced(st, tid, Replaced);
    var cleared := DropInterrupted(st, tid, Replaced);
    var t := cleared.tasks[tid];
    Rearrange(cleared.tasks, cleared.history, tid,
              t.(interrupted := t.pending, pending := None, restartReady := false));
  }

  lemma AfterCompletionBalanced(st: State, tid: int, number: int)
    requires Balanced(st) && tid in st.tasks && st.tasks[tid].pending.None?
    ensures Balanced(AfterCompletion(st, tid, number))
  {
    var t := st.tasks[tid];
    if t.interrupted.Some? {
      Rearrange(st.tasks, st.history, tid, t.(restartReady := true));
      DropInterruptedBalanced(st, tid, Superseded);
    }
  }

  lemma FinishBalanced(cfg: Config, st: State, tid: int, rval: int, isError: bool, env: Env)
    requires Balanced(st) && tid in st.tasks
    ensures var o := Finish(cfg, st, tid, rval, isError, env); o.Fine? ==> Balanced(o.st)
  {
    var t := st.tasks[tid];
    if t.pending.Some? {
      if IsRestartResult(rval) {
        SetAsideBalanced(st, tid);
      } else {
        ConcludeBalanced(cfg, st, tid, rval, isError, env);
      }
    }
  }

  lemma ConcludeBalanced(cfg: Config, st: State, tid: int, rval: int, isError: bool, env: Env)
    requires Balanced(st) && tid in st.tasks && st.tasks[tid].pending.Some?
    ensures var o := Conclude(cfg, st, tid, rval, isError, env); o.Fine? ==> Balanced(o.st)
  {
    var number := st.tasks[tid].pending.value.number;
    var errorNumber := ErrorNumber(rval, isError);
    var at := StampOf(cfg, number, env.now);
    CompletePendingBalanced(cfg, st, tid, rval, errorNumber, at, env.order);
    var o := CompletePending(cfg, st, tid, rval, errorNumber, at, env.order);
    if o.Fine? { AfterCompletionBalanced(o.st, tid, number); }
  }

  lemma AddTaskBalanced(st: State, tid: int, tgid: int, attached: bool, newborn: bool)
    requires Balanced(st)
    ensures var o := AddTask(st, tid, tgid, attached, newborn); o.Fine? ==> Balanced(o.st)
  {
    if tid > 0 && tgid > 0 && tid !in st.tasks {
      Arrive(st.tasks, st.history, tid, NewTracee(st.history.births, tgid, attached, newborn));
    }
  }

  lemma MigrateBalanced(cfg: Config, st: State, tid: int, former: int)
    requires Balanced(st)
    ensures var o := MigrateExec(cfg, st, tid, former); o.Fine? ==> Balanced(o.st)
  {
    if former != tid {
      if former in st.tasks {
        if tid in st.tasks { RemoveTaskBalanced(st, tid, LostAtExec); }
        var cleared := if tid in st.tasks then RemoveTask(st, tid, LostAtExec) else st;
        Rekey(cleared.tasks, cleared.history, former, tid, st.tasks[former].(tgid := tid, newborn := false));
      } else if tid in st.tasks {
        assert GoodTask(st.history, st.tasks[tid]);
        Rearrange(st.tasks, st.history, tid, st.tasks[tid].(tgid := tid, newborn := false));
      } else {
        AddTaskBalanced(st, tid, tid, cfg.mode.Attach?, false);
      }
    }
  }

  lemma AdmitBalanced(cfg: Config, st: State, n: Notice)
    requires Balanced(st)
    ensures var o := Admit(cfg, st, n); o.Fine? ==> Balanced(o.st)
  {
    if n.what.ExecStop? { MigrateBalanced(cfg, st, n.tid, n.what.former); }
    var known := if n.what.ExecStop? then MigrateExec(cfg, st, n.tid, n.what.former) else Fine(st);
    if known.Fine? {
      AddTaskBalanced(known.st, n.tid, if n.env.tgid <= 0 then n.tid else n.env.tgid, cfg.mode.Attach?, true);
    }
  }

  /** Changing anything but the calls of a task. */
  lemma TouchBalanced(st: State, tid: int, t': Tracee)
    requires Balanced(st) && tid in st.tasks
    requires t'.task == st.tasks[tid].task && t'.pending == st.tasks[tid].pending
    requires t'.interrupted == st.tasks[tid].interrupted && t'.restartReady == st.tasks[tid].restartReady
    ensures Balanced(SetTask(st, tid, t'))
  {
    assert GoodTask(st.history, st.tasks[tid]);
    Rearrange(st.tasks, st.history, tid, t');
  }

  /** Books do not look at the requests and suppressions. */
  lemma NotedBalanced(st: State, h: History)
    requires Balanced(st)
    requires h == st.history.(requests := h.requests, suppressed := h.suppressed)
    ensures Balanced(st.(history := h))
  {
    assert forall s: nat :: Closed(h, s) <==> Closed(st.history, s);
    forall u | u in st.tasks ensures GoodTask(h, st.tasks[u]) { assert GoodTask(st.history, st.tasks[u]); }
    forall i | 0 <= i < |h.closings|
      ensures Faithful(h, h.closings[i])
    {
      assert Faithful(st.history, st.history.closings[i]);
    }
  }

  lemma HandleExecBalanced(cfg: Config, st: State, tid: int, env: Env)
    requires Balanced(st) && tid in st.tasks
    ensures var o := HandleExec(cfg, st, tid, env); o.Fine? ==> Balanced(o.st)
  {
    var seen := if tid == st.root.tid then st.(root := st.root.(execObserved := true)) else st;
    if seen.tasks[tid].pending.Some? {
      CompletePendingBalanced(cfg, seen, tid, 0, 0, env.now, env.order);
      var o := CompletePending(cfg, seen, tid, 0, 0, env.now, env.order);
      if o.Fine? { TouchBalanced(o.st, tid, o.st.tasks[tid].(newborn := false)); }
    } else {
      TouchBalanced(seen, tid, seen.tasks[tid].(newborn := false));
    }
  }

  lemma HandleChildBalanced(cfg: Config, st: State, tid: int, kind: ChildKind, child: nat, childTgid: int, env: Env)
    requires Balanced(st) && tid in st.tasks
    ensures var o := HandleChild(cfg, st, tid, kind, child, childTgid, env); o.Fine? ==> Balanced(o.st)
  {
    if child != 0 && child <= INT_MAX {
      var t := st.tasks[tid];
      var tgid := if childTgid > 0 then childTgid else if kind.Clone? then t.tgid else child;
      AddTaskBalanced(st, child, tgid, t.attached, true);
      var o := AddTask(st, child, tgid, t.attached, true);
    }
  }

  lemma HandleSignalBalanced(cfg: Config, st: State, tid: int, signal: int, info: SigInfo, env: Env)
    requires Balanced(st) && tid in st.tasks
    ensures var r := HandleSignal(cfg, st, tid, signal, info, env); r.Handled? ==> Balanced(r.st)
  {
    var t := st.tasks[tid];
    if t.newborn && signal == SIGSTOP {
      TouchBalanced(st, tid, t.(newborn := false));
      NotedBalanced(SetTask(st, tid, t.(newborn := false)),
                    st.history.(suppressed := st.history.suppressed + [t.task]));
    } else if info.Info? {
      var marked := SetTask(st, tid, t.(newborn := false, pendingSignal := signal));
      TouchBalanced(st, tid, t.(newborn := false, pendingSignal := signal));
    }
  }

  lemma HandleStopBalanced(cfg: Config, st: State, n: Notice)
    requires Balanced(st) && n.tid in st.tasks
    ensures var r := HandleStop(cfg, st, n); r.Handled? ==> Balanced(r.st)
  {
    var t := st.tasks[n.tid].(inStop := true);
    TouchBalanced(st, n.tid, t);
    var stopped := SetTask(st, n.tid, t);
    match n.what
    case SyscallEntry(number, args) => BeginBalanced(cfg, stopped, n.tid, number, args, n.env);
    case SyscallExit(rval, isError) => FinishBalanced(cfg, stopped, n.tid, rval, isError, n.env);
    case EventStop(signal) => TouchBalanced(stopped, n.tid, t.(newborn := false));
    case SeccompStop(number, args) => BeginBalanced(cfg, stopped, n.tid, number, args, n.env);
    case ExecStop(_) => HandleExecBalanced(cfg, stopped, n.tid, n.env);
    case ChildStop(kind, child, childTgid) =>
      HandleChildBalanced(cfg, stopped, n.tid, kind, child, childTgid, n.env);
    case SignalStop(signal, info) => HandleSignalBalanced(cfg, stopped, n.tid, signal, info, n.env);
    case _ =>
  }

  lemma BuryBalanced(cfg: Config, st: State, n: Notice)
    requires Balanced(st) && n.tid in st.tasks && (n.what.Exited? || n.what.Killed?)
    ensures var o := Bury(cfg, st, n); o.Fine? ==> Balanced(o.st)
  {
    RemoveTaskBalanced(RecordStatus(WriteExit(cfg, st, n), n), n.tid, LostAtExit);
  }

  lemma ResumeBalanced(cfg: Config, st: State, tid: int, signal: int, listen: bool, env: Env)
    requires Balanced(st)
    ensures var r := Resume(cfg, st, tid, signal, listen, env); !r.Abort? ==> Balanced(r.st)
  {
    if tid in st.tasks {
      var t := st.tasks[tid];
      var asked := RequestFor(cfg, t, listen);
      var noted := st.history.(requests := st.history.requests + [Request(tid, t.task, asked, signal, env.reply.Gone?)]);
      TouchBalanced(st, tid, t.(asked := asked));
      NotedBalanced(SetTask(st, tid, t.(asked := asked)), noted);
      TouchBalanced(st, tid, t.(asked := asked, inStop := false, pendingSignal := 0));
      NotedBalanced(SetTask(st, tid, t.(asked := asked, inStop := false, pendingSignal := 0)), noted);
    }
  }

  lemma StepBalanced(cfg: Config, st: State, n: Notice)
    requires Balanced(st)
    ensures var r := Step(cfg, st, n); !r.Abort? ==> Balanced(r.st)
  {
    if !n.what.WaitInterrupted? {
      AdmitBalanced(cfg, st, n);
      var o := Admit(cfg, st, n);
      if o.Fine? && n.tid in o.st.tasks {
        if n.what.Continued? {
          TouchBalanced(o.st, n.tid, o.st.tasks[n.tid].(inStop := false));
        } else if n.what.Exited? || n.what.Killed? {
          BuryBalanced(cfg, o.st, n);
        } else {
          HandleStopBalanced(cfg, o.st, n);
          var r := HandleStop(cfg, o.st, n);
          if r.Handled? { ResumeBalanced(cfg, r.st, n.tid, r.signal, r.listen, n.env); }
        }
      }
    }
  }

  // ----- whole runs

  lemma LaunchBalanced(cfg: Config, root: int)
    ensures Balanced(LaunchState(cfg, root))
  {
  }

  lemma {:induction false} AttachBalanced(pid: int, tids: seq<int>)
    ensures AttachState(pid, tids).Fine? ==> Balanced(AttachState(pid, tids).st)
  {
    if tids != [] {
      AttachBalanced(pid, tids[..|tids| - 1]);
      var o := AttachState(pid, tids[..|tids| - 1]);
      if o.Fine? { AddTaskBalanced(o.st, tids[|tids| - 1], pid, true, true); }
    }
  }

  /** Over every run, with arbitrary exit values: the books stay balanced. */
  lemma {:induction false} RunBalanced(cfg: Config, st: State, run: seq<Notice>)
    requires Balanced(st)
    ensures var r := After(cfg, st, run); !r.Aborted? ==> Balanced(r.st)
  {
    if run != [] {
      RunBalanced(cfg, st, run[..|run| - 1]);
      var r := After(cfg, st, run[..|run| - 1]);
      if r.Running? { StepBalanced(cfg, r.st, run[|run| - 1]); }
    }
  }

  // ----- what balanced books say

  ghost function HeldSerials(st: State): set<nat> {
    set s: nat | s < |st.history.entries| && HeldBySome(st.tasks, s)
  }

  ghost function ClosedSerials(closings: seq<Closing>): set<nat> {
    set i | 0 <= i < |closings| :: closings[i].serial
  }

  lemma {:induction false} DistinctSerials(closings: seq<Closing>)
    requires forall i, j :: 0 <= i < j < |closings| ==> closings[i].serial != closings[j].serial
    ensures |ClosedSerials(closings)| == |closings|
  {
    if closings != [] {
      var n := |closings| - 1;
      var front := closings[..n];
      DistinctSerials(front);
      forall s: nat ensures s in ClosedSerials(closings) <==> s in ClosedSerials(front) + {closings[n].serial} {
        if s in ClosedSerials(front) {
          var i :| 0 <= i < n && front[i].serial == s;
          assert closings[i].serial == s;
        }
        if s in ClosedSerials(closings) {
          var i :| 0 <= i < |closings| && closings[i].serial == s;
          assert i < n ==> front[i].serial == s;
        }
      }
      assert ClosedSerials(closings) == ClosedSerials(front) + {closings[n].serial};
    }
  }

  /** The first `n` serials. */
  ghost function Range(n: nat): (all: set<nat>)
    ensures |all| == n && forall s: nat :: s in all <==> s < n
  {
    if n == 0 then {} else Range(n - 1) + {n - 1}
  }

  /** Fresh entries = completed + discarded + still held: no serial is in two of these classes, none
      is closed twice, and none is held in two places. */
  lemma EntriesConserved(st: State)
    requires Balanced(st)
    ensures |st.history.entries| == |st.history.closings| + |HeldSerials(st)|
    ensures HeldSerials(st) !! ClosedSerials(st.history.closings)
    ensures forall a, b, s: nat :: a in st.tasks && b in st.tasks && Holds(st.tasks[a], s) && Holds(st.tasks[b], s) ==> a == b
  {
    var h := st.history;
    var all := Range(|h.entries|);
    DistinctSerials(h.closings);
    var held, closed := HeldSerials(st), ClosedSerials(h.closings);
    forall a, b, s: nat | a in st.tasks && b in st.tasks && Holds(st.tasks[a], s) && Holds(st.tasks[b], s)
      ensures a == b
    {
      assert GoodTask(h, st.tasks[a]) && GoodTask(h, st.tasks[b]);
    }
    forall s: nat | s in held ensures s !in closed {
      var u :| u in st.tasks && Holds(st.tasks[u], s);
      assert GoodTask(h, st.tasks[u]);
      assert !Closed(h, s);
    }
    forall s: nat ensures s in all <==> s in held + closed {
      if s in closed {
        var i :| 0 <= i < |h.closings| && h.closings[i].serial == s;
        assert Faithful(h, h.closings[i]);
      }
      if s in all && s !in held {
        assert Closed(h, s);
      }
    }
    assert all == held + closed;
  }
}
