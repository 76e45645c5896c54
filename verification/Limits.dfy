/** Concrete runs, each one a kernel can produce, that show what the conditions of the interleaving,
    naming and fast-path theorems are for. */
module Limits {
  import opened Bits
  import opened Events
  import opened TraceModel
  import opened Visibility
  import Interleaving
  import Naming
  import Protocol
  import Bpf

  const READ: nat := 0
  const WRITE: nat := 1
  const NANOSLEEP: nat := 35
  const GETPID: nat := 39
  const CLONE: nat := 56

  const NOW := Timespec(1, 0)
  const ENV := Env(NOW, [1, 2], 1, Accepted, 0)

  /** Text output for a launched command. */
  ghost predicate Textual(cfg: Config) { cfg.mode.Launch? && cfg.format.Text? && !cfg.summary }

  function Enter(tid: int, number: nat): Notice { Notice(tid, SyscallEntry(number, []), ENV) }
  function Trap(tid: int, number: nat): Notice { Notice(tid, SeccompStop(number, []), ENV) }
  function Leave(tid: int, rval: int): Notice { Notice(tid, SyscallExit(rval, false), ENV) }
  function Signal(tid: int): Notice { Notice(tid, SignalStop(14, Info(14, 0, 0)), ENV) }
  function Kill(tid: int): Notice { Notice(tid, Killed(9), ENV) }
  function Spawn(): Notice { Notice(1, ChildStop(ChildKind.Clone, 2, 1), ENV) }
  function Birth(): Notice { Notice(2, SignalStop(SIGSTOP, Info(SIGSTOP, 0, 0)), ENV) }
  function ExecDone(): Notice { Notice(1, ExecStop(2), ENV) }

  const ALARM := Body.SignalBody(14, 0, 0)
  const SPAWNED := Body.StartBody(2, ChildKind.Clone)

  // ----- single steps

  datatype Calls = Calls(pending: Option<Call>, interrupted: Option<Call>, ready: bool)

  const IDLE := Calls(None, None, false)

  function CallsOf(t: Tracee): Calls { Calls(t.pending, t.interrupted, t.restartReady) }

  /** The task, no longer a newborn, holds these calls. */
  ghost predicate Holds(st: State, tid: int, c: Calls) {
    tid in st.tasks && CallsOf(st.tasks[tid]) == c && !st.tasks[tid].newborn
  }

  /** The step leads to a state in which only `tid` changed, with these calls, announcements and lines,
      and with these entries and closings noted. */
  ghost predicate Moves(st: State, r: StepResult, tid: int, c: Calls, open: set<int>, lines: seq<Record>,
                        entries: seq<Entry>, closings: seq<Closing>) {
    && tid in st.tasks && r.Next? && Holds(r.st, tid, c)
    && r.st.tasks == st.tasks[tid := r.st.tasks[tid]] && r.st.tasks[tid].task == st.tasks[tid].task
    && r.st.open == open && r.st.log == st.log + lines
    && r.st.history.entries == st.history.entries + entries && r.st.history.closings == st.history.closings + closings
  }

  function Stopped(st: State, tid: int): State
    requires tid in st.tasks
  {
    SetTask(st, tid, st.tasks[tid].(inStop := true))
  }

  lemma StoppedIdle(cfg: Config, st: State, tid: int)
    requires tid in st.tasks && FlushIdle(cfg, st, tid)
    ensures FlushIdle(cfg, Stopped(st, tid), tid)
  {
    forall u | u in Stopped(st, tid).tasks && u != tid ensures Shown(cfg, Stopped(st, tid), u) == Shown(cfg, st, u) {}
  }

  function Entered(cfg: Config, st: State, number: int): Call {
    Call(|st.history.entries|, number, [], StampOf(cfg, number, NOW))
  }

  /** A fresh entry, at a syscall stop or at a seccomp stop. */
  lemma EnterStep(cfg: Config, st: State, n: Notice, tid: int, number: nat, i: Option<Call>)
    requires Textual(cfg) && Holds(st, tid, Calls(None, i, false)) && number < 512
    requires (n == Enter(tid, number) || n == Trap(tid, number))
    requires Selected(cfg, number) ==> FlushIdle(cfg, st, tid)
    ensures var r := Step(cfg, st, n);
            && Moves(st, r, tid, Calls(Some(Entered(cfg, st, number)), i, false), st.open, [],
                     [Entry(st.tasks[tid].task, number, [], |st.log|, Entered(cfg, st, number).enteredAt)], [])
            && r.st.tasks[tid].asked.UntilSyscall?
  {
    var stopped := Stopped(st, tid);
    if Selected(cfg, number) {
      StoppedIdle(cfg, st, tid);
      IdleFlush(cfg, stopped, tid, [1, 2]);
    }
    assert number / X32_BIT == 0;
    assert Begin(cfg, stopped, tid, number, [], ENV) == Fine(FreshEntry(cfg, stopped, tid, number, [], ENV));
    assert st.log + [] == st.log && st.history.closings + [] == st.history.closings;
  }

  lemma InterruptStep(cfg: Config, st: State, tid: int, call: Call)
    requires Textual(cfg) && Holds(st, tid, Calls(Some(call), None, false))
    ensures Moves(st, Step(cfg, st, Leave(tid, -512)), tid, Calls(None, Some(call), false), st.open, [], [], [])
  {
    assert st.log + [] == st.log && st.history.closings + [] == st.history.closings;
    assert st.history.entries + [] == st.history.entries;
  }

  /** The line of a completed call. */
  function FinishLine(cfg: Config, st: State, tid: int, call: Call, rval: int): seq<Record> {
    if !Selected(cfg, call.number) then []
    else if tid in st.open then [Printed(Resumed(tid, call.number, rval, 0))]
    else [Printed(Whole(tid, Finished(call, rval, 0, NOW)))]
  }

  function Done(cfg: Config, st: State, tid: int, call: Call, rval: int): Closing
    requires tid in st.tasks
  {
    Closing(call.serial, st.tasks[tid].task, tid,
            Completed(Finished(call, rval, 0, StampOf(cfg, call.number, NOW)),
                      if Selected(cfg, call.number) then Some(|st.log|) else None))
  }

  /** A call returns, while nobody else has anything to announce. */
  lemma LeaveStep(cfg: Config, st: State, tid: int, call: Call, i: Option<Call>, rval: nat)
    requires Textual(cfg) && Holds(st, tid, Calls(Some(call), i, false)) && (i.Some? ==> i.value.number != call.number)
    requires Selected(cfg, call.number) ==> FlushIdle(cfg, st, tid)
    ensures Moves(st, Step(cfg, st, Leave(tid, rval)), tid, Calls(None, i, i.Some? && call.number == RT_SIGRETURN),
                  if Selected(cfg, call.number) then st.open - {tid} else st.open, FinishLine(cfg, st, tid, call, rval), [],
                  [Done(cfg, st, tid, call, rval)])
  {
    var stopped := Stopped(st, tid);
    var counted := stopped.(events := (st.events + 1) % TWO_64);
    if Selected(cfg, call.number) {
      StoppedIdle(cfg, st, tid);
      assert FlushIdle(cfg, counted, tid) by {
        forall u | u in counted.tasks && u != tid ensures Shown(cfg, counted, u) == Shown(cfg, stopped, u) {}
      }
      IdleFlush(cfg, counted, tid, [1, 2]);
    }
    Concludes(cfg, stopped, tid, call, i, rval);
  }

  /** The completion itself. */
  lemma Concludes(cfg: Config, st: State, tid: int, call: Call, i: Option<Call>, rval: nat)
    requires Textual(cfg) && Holds(st, tid, Calls(Some(call), i, false)) && (i.Some? ==> i.value.number != call.number)
    requires Selected(cfg, call.number) ==>
               Flush(cfg, st.(events := (st.events + 1) % TWO_64), tid, [1, 2]) == st.(events := (st.events + 1) % TWO_64)
    ensures var o := Finish(cfg, st, tid, rval, false, ENV);
            && o.Fine? && Holds(o.st, tid, Calls(None, i, i.Some? && call.number == RT_SIGRETURN))
            && o.st.tasks == st.tasks[tid := o.st.tasks[tid]] && o.st.tasks[tid].task == st.tasks[tid].task
            && o.st.open == (if Selected(cfg, call.number) then st.open - {tid} else st.open)
            && o.st.log == st.log + FinishLine(cfg, st, tid, call, rval)
            && o.st.history == st.history.(closings := st.history.closings + [Done(cfg, st, tid, call, rval)])
  {
    assert st.log + [] == st.log;
  }

  /** The call a flush would show, if it has not been announced. */
  function Unfinish(cfg: Config, st: State, tid: int): seq<Record>
    requires tid in st.tasks
  {
    var held := Held(st.tasks[tid]);
    if held.Some? && Selected(cfg, held.value.number) && tid !in st.open then
      [Printed(Unfinished(tid, held.value.number, held.value.args))]
    else []
  }

  /** A flush in which only `tid` can have something to announce. */
  lemma FlushOnly(cfg: Config, st: State, tid: int)
    requires Textual(cfg) && tid in st.tasks && (tid == 1 || tid == 2) && FlushIdle(cfg, st, tid)
    ensures var lines := Unfinish(cfg, st, tid);
            Flush(cfg, st, -1, [1, 2]) == st.(log := st.log + lines,
                                              open := if lines == [] then st.open else st.open + {tid})
  {
    FlushPair(cfg, st, -1);
    assert st.log + [] == st.log;
    var other := 3 - tid;
    assert other in st.tasks ==> (Shown(cfg, st, other).Some? ==> other in st.open);
  }

  lemma FlushPair(cfg: Config, st: State, except: int)
    ensures FlushSlots(cfg, st, except, [1, 2]) == FlushOne(cfg, FlushOne(cfg, st, except, 1), except, 2)
  {
    var both, one := [1, 2], [1];
    assert both[..1] == one && one[..0] == [];
    assert FlushSlots(cfg, st, except, []) == st;
    assert FlushSlots(cfg, st, except, one) == FlushOne(cfg, st, except, 1);
    assert FlushSlots(cfg, st, except, both) == FlushOne(cfg, FlushSlots(cfg, st, except, one), except, 2);
  }

  /** A signal-delivery stop announces what is held and prints the signal. */
  lemma SignalStep(cfg: Config, st: State, tid: int, c: Calls)
    requires Textual(cfg) && Holds(st, tid, c) && (tid == 1 || tid == 2) && FlushIdle(cfg, st, tid)
    ensures var lines := Unfinish(cfg, st, tid);
            Moves(st, Step(cfg, st, Signal(tid)), tid, c, if lines == [] then st.open else st.open + {tid},
                  lines + [Printed(Plain(tid, ALARM))], [], [])
  {
    var lines := Unfinish(cfg, st, tid);
    var marked := SetTask(Stopped(st, tid), tid, st.tasks[tid].(inStop := true, newborn := false, pendingSignal := 14));
    assert FlushIdle(cfg, marked, tid) by {
      forall u | u in marked.tasks && u != tid ensures Shown(cfg, marked, u) == Shown(cfg, st, u) {}
    }
    FlushOnly(cfg, marked, tid);
    Associate(st.log, lines, [Printed(Plain(tid, ALARM))]);
    assert st.history.closings + [] == st.history.closings && st.history.entries + [] == st.history.entries;
  }

  lemma Associate(a: seq<Record>, b: seq<Record>, c: seq<Record>)
    ensures (a + b) + c == a + (b + c)
  {
  }

  /** Entering the interrupted call again, or restart_syscall, restarts it. */
  lemma RestartStep(cfg: Config, st: State, tid: int, call: Call, number: nat)
    requires Textual(cfg) && Holds(st, tid, Calls(None, Some(call), true)) && FlushIdle(cfg, st, tid)
    requires number < 512 && (number == call.number || number == RESTART_SYSCALL)
    ensures Moves(st, Step(cfg, st, Enter(tid, number)), tid, Calls(Some(call), None, false), st.open, [], [], [])
  {
    StoppedIdle(cfg, st, tid);
    IdleFlush(cfg, Stopped(st, tid), tid, [1, 2]);
    assert Begin(cfg, Stopped(st, tid), tid, number, [], ENV) == Fine(Restart(cfg, Stopped(st, tid), tid, [1, 2]));
    assert st.log + [] == st.log && st.history.closings + [] == st.history.closings;
    assert st.history.entries + [] == st.history.entries;
  }

  /** Entering another call that is not shown exposes EINTR for the interrupted one. */
  lemma ExposeStep(cfg: Config, st: State, tid: int, call: Call, number: nat)
    requires Textual(cfg) && Holds(st, tid, Calls(None, Some(call), true))
    requires Selected(cfg, call.number) && tid in st.open
    requires number < 512 && number != call.number && number != RESTART_SYSCALL
    requires !Selected(cfg, number) && FlushIdle(cfg, st, tid)
    ensures var r := Step(cfg, st, Enter(tid, number));
            r.Next? && r.st.tasks.Keys == st.tasks.Keys && r.st.log == st.log + [Printed(Resumed(tid, call.number, -1, EINTR))]
  {
    var stopped := Stopped(st, tid);
    var counted := stopped.(events := (st.events + 1) % TWO_64);
    StoppedIdle(cfg, st, tid);
    assert FlushIdle(cfg, counted, tid) by {
      forall u | u in counted.tasks && u != tid ensures Shown(cfg, counted, u) == Shown(cfg, stopped, u) {}
    }
    IdleFlush(cfg, counted, tid, [1, 2]);
    var o := ExposeEintr(cfg, stopped, tid, ENV);
    assert o.Fine? && o.st.log == st.log + [Printed(Resumed(tid, call.number, -1, EINTR))];
    assert Begin(cfg, stopped, tid, number, [], ENV) == Fine(FreshEntry(cfg, o.st, tid, number, [], ENV));
  }

  /** The last task is killed: what it holds is announced before the exit is printed. */
  lemma KillStep(cfg: Config, st: State, tid: int, c: Calls)
    requires Textual(cfg) && Holds(st, tid, c) && (tid == 1 || tid == 2) && st.tasks.Keys == {tid}
    ensures var r := Step(cfg, st, Kill(tid));
            && r.Next? && r.st.tasks == map[]
            && r.st.log == st.log + Unfinish(cfg, st, tid) + [Printed(Plain(tid, ExitBody(9, true)))]
  {
    assert FlushIdle(cfg, st, tid);
    FlushOnly(cfg, st, tid);
    var written := RecordStatus(WriteExit(cfg, st, Kill(tid)), Kill(tid));
    Interleaving.RemovedFrame(written, tid, LostAtExit);
    assert st.tasks - {tid} == map[];
  }

  /** Task 1 reports a new thread, task 2. */
  lemma SpawnStep(cfg: Config, st: State, c: Calls)
    requires Textual(cfg) && cfg.follow && Holds(st, 1, c) && st.tasks.Keys == {1} && Unfinish(cfg, st, 1) == []
    ensures var r := Step(cfg, st, Spawn());
            && r.Next? && r.st.tasks.Keys == {1, 2} && Holds(r.st, 1, c)
            && CallsOf(r.st.tasks[2]) == IDLE && r.st.tasks[2].newborn
            && r.st.tasks[1].asked == RequestFor(cfg, st.tasks[1], false)
            && r.st.open == st.open && r.st.log == st.log + [Printed(Plain(1, SPAWNED))]
  {
    var stopped := Stopped(st, 1);
    var added := AddTask(stopped, 2, 1, st.tasks[1].attached, true).st;
    assert FlushIdle(cfg, added, 1);
    FlushOnly(cfg, added, 1);
    assert added.(log := st.log + [], open := st.open) == added by { assert st.log + [] == st.log; }
  }

  /** Its first SIGSTOP is swallowed. */
  lemma BirthStep(cfg: Config, st: State)
    requires Textual(cfg) && st.tasks.Keys == {1, 2} && CallsOf(st.tasks[2]) == IDLE && st.tasks[2].newborn
    ensures Moves(st, Step(cfg, st, Birth()), 2, IDLE, st.open, [], [], [])
  {
    assert st.log + [] == st.log && st.history.closings + [] == st.history.closings;
    assert st.history.entries + [] == st.history.entries;
  }

  // ----- steps in which another task has something to announce

  /** A flush on behalf of `tid` announces the call of the other task. */
  lemma FlushOther(cfg: Config, st: State, tid: int, call: Call)
    requires Textual(cfg) && (tid == 1 || tid == 2) && st.tasks.Keys == {1, 2} && 3 - tid !in st.open
    requires Held(st.tasks[3 - tid]) == Some(call) && Selected(cfg, call.number)
    ensures Flush(cfg, st, tid, [1, 2]) ==
            st.(log := st.log + [Printed(Unfinished(3 - tid, call.number, call.args))], open := st.open + {3 - tid})
  {
    FlushPair(cfg, st, tid);
  }

  /** A selected call is entered. */
  lemma EnterFlushing(cfg: Config, st: State, tid: int, number: nat, call: Call)
    requires Textual(cfg) && (tid == 1 || tid == 2) && st.tasks.Keys == {1, 2} && 3 - tid !in st.open
    requires Holds(st, tid, IDLE) && number < 512 && Selected(cfg, number)
    requires Held(st.tasks[3 - tid]) == Some(call) && Selected(cfg, call.number)
    ensures var r := Step(cfg, st, Enter(tid, number));
            && r.Next? && Holds(r.st, tid, Calls(Some(Entered(cfg, st, number)), None, false))
            && r.st.tasks == st.tasks[tid := r.st.tasks[tid]] && r.st.open == st.open + {3 - tid}
            && r.st.log == st.log + [Printed(Unfinished(3 - tid, call.number, call.args))]
  {
    var stopped := Stopped(st, tid);
    FlushOther(cfg, stopped, tid, call);
    assert Begin(cfg, stopped, tid, number, [], ENV) == Fine(FreshEntry(cfg, stopped, tid, number, [], ENV));
  }

  /** A selected call that was not announced returns. */
  lemma LeaveFlushing(cfg: Config, st: State, tid: int, done: Call, rval: nat, call: Call)
    requires Textual(cfg) && (tid == 1 || tid == 2) && st.tasks.Keys == {1, 2} && 3 - tid !in st.open && tid !in st.open
    requires Holds(st, tid, Calls(Some(done), None, false)) && Selected(cfg, done.number)
    requires Held(st.tasks[3 - tid]) == Some(call) && Selected(cfg, call.number)
    ensures var r := Step(cfg, st, Leave(tid, rval));
            && r.Next? && r.st.tasks.Keys == {1, 2} && r.st.history.entries == st.history.entries
            && r.st.log == st.log + [Printed(Unfinished(3 - tid, call.number, call.args)),
                                     Printed(Whole(tid, Finished(done, rval, 0, NOW)))]
            && r.st.history.closings == st.history.closings +
                 [Closing(done.serial, st.tasks[tid].task, tid,
                          Completed(Finished(done, rval, 0, NOW), Some(|st.log| + 1)))]
  {
    var stopped := Stopped(st, tid);
    FlushOther(cfg, stopped.(events := (st.events + 1) % TWO_64), tid, call);
    var o := Finish(cfg, stopped, tid, rval, false, ENV);
    assert o.Fine?;
    assert o.st.log ==
           st.log + [Printed(Unfinished(3 - tid, call.number, call.args))] + [Printed(Whole(tid, Finished(done, rval, 0, NOW)))];
  }

  /** A call that is not shown is restarted: the flush is made all the same. */
  lemma RestartFlushing(cfg: Config, st: State, tid: int, again: Call, call: Call)
    requires Textual(cfg) && (tid == 1 || tid == 2) && st.tasks.Keys == {1, 2} && 3 - tid !in st.open
    requires Holds(st, tid, Calls(None, Some(again), true)) && 0 <= again.number < 512
    requires Held(st.tasks[3 - tid]) == Some(call) && Selected(cfg, call.number)
    ensures var r := Step(cfg, st, Enter(tid, again.number));
            && r.Next? && r.st.tasks.Keys == {1, 2}
            && r.st.log == st.log + [Printed(Unfinished(3 - tid, call.number, call.args))]
  {
    var stopped := Stopped(st, tid);
    FlushOther(cfg, stopped, tid, call);
    assert Begin(cfg, stopped, tid, again.number, [], ENV) == Fine(Restart(cfg, stopped, tid, [1, 2]));
  }

  /** The exec of thread 2 goes on as task 1, whose call is dropped and whose announcement it takes over. */
  lemma ExecStep(cfg: Config, st: State, exec: Call)
    requires Textual(cfg) && st.tasks.Keys == {1, 2}
    requires Holds(st, 2, Calls(Some(exec), None, false)) && Selected(cfg, exec.number)
    requires st.open == {1}
    ensures var r := Step(cfg, st, ExecDone());
            r.Next? && r.st.tasks.Keys == {1} && r.st.log == st.log + [Printed(Resumed(1, exec.number, 0, 0))]
  {
    Migrates(cfg, st, exec);
    var o := Admit(cfg, st, ExecDone());
    var stopped := Stopped(o.st, 1);
    ExecCompletes(cfg, stopped, exec);
    assert HandleStop(cfg, o.st, ExecDone()) == Plainly(HandleExec(cfg, stopped, 1, ENV));
  }

  lemma Migrates(cfg: Config, st: State, exec: Call)
    requires Textual(cfg) && st.tasks.Keys == {1, 2} && Holds(st, 2, Calls(Some(exec), None, false)) && st.open == {1}
    ensures var o := Admit(cfg, st, ExecDone());
            o.Fine? && o.st.tasks.Keys == {1} && o.st.tasks[1].pending == Some(exec) && o.st.open == {1} && o.st.log == st.log
  {
    Interleaving.RemovedFrame(st, 1, LostAtExec);
  }

  lemma ExecCompletes(cfg: Config, st: State, exec: Call)
    requires Textual(cfg) && st.tasks.Keys == {1} && st.tasks[1].pending == Some(exec)
    requires st.open == {1} && Selected(cfg, exec.number)
    ensures var o := HandleExec(cfg, st, 1, ENV);
            o.Fine? && o.st.tasks.Keys == {1} && o.st.log == st.log + [Printed(Resumed(1, exec.number, 0, 0))]
  {
    var seen := if 1 == st.root.tid then st.(root := st.root.(execObserved := true)) else st;
    var counted := seen.(events := (seen.events + 1) % TWO_64);
    assert FlushIdle(cfg, counted, 1);
    IdleFlush(cfg, counted, 1, [1, 2]);
  }

  // ----- runs

  /** Reads, writes and execs are selected, the other calls of the runs are not, and threads are followed. */
  ghost predicate Chooses(cfg: Config) {
    && Textual(cfg) && cfg.follow && !cfg.seccomp && cfg.filter.active && Bpf.InRange(cfg.filter.numbers)
    && READ in cfg.filter.numbers && WRITE in cfg.filter.numbers && EXECVE in cfg.filter.numbers
    && RT_SIGRETURN !in cfg.filter.numbers && GETPID !in cfg.filter.numbers
    && NANOSLEEP !in cfg.filter.numbers && CLONE !in cfg.filter.numbers
  }

  lemma SomeChoose()
    ensures Chooses(Config(Launch, Text, true, false, false, Selection(true, {READ, WRITE, EXECVE})))
    ensures Chooses(Config(Launch, Text, true, false, false, Selection(true, {READ, WRITE, EXECVE, RESTART_SYSCALL})))
  {
  }

  function Start(cfg: Config): State { LaunchState(cfg, 1) }

  ghost predicate Reached(cfg: Config, run: seq<Notice>, st: State) { After(cfg, Start(cfg), run) == Running(st) }

  /** One more notice. */
  lemma Goes(cfg: Config, start: State, run: seq<Notice>, st: State, n: Notice)
    requires After(cfg, start, run) == Running(st) && Step(cfg, st, n).Next? && 1 in Step(cfg, st, n).st.tasks
    ensures After(cfg, start, run + [n]) == Running(Step(cfg, st, n).st)
  {
    AfterMore(cfg, start, run, n);
  }

  lemma Extend(cfg: Config, run: seq<Notice>, st: State, n: Notice) returns (longer: seq<Notice>, r: State)
    requires Reached(cfg, run, st) && Step(cfg, st, n).Next? && 1 in Step(cfg, st, n).st.tasks
    ensures longer == run + [n] && r == Step(cfg, st, n).st && Reached(cfg, longer, r)
  {
    Goes(cfg, Start(cfg), run, st, n);
    longer, r := run + [n], Step(cfg, st, n).st;
  }

  /** What other tasks have to announce does not depend on `tid`. */
  lemma IdleKept(cfg: Config, a: State, b: State, tid: int)
    requires FlushIdle(cfg, a, tid) && tid in b.tasks
    requires b.tasks == a.tasks[tid := b.tasks[tid]] && a.open - {tid} == b.open - {tid}
    ensures FlushIdle(cfg, b, tid)
  {
    forall u | u in b.tasks && u != tid ensures Shown(cfg, b, u) == Shown(cfg, a, u) && (u in a.open ==> u in b.open) {
      assert u in a.open ==> u in a.open - {tid};
    }
  }

  /** Task 1 is idle and nobody else has anything to announce. */
  ghost predicate Ready(cfg: Config, st: State) { Holds(st, 1, IDLE) && FlushIdle(cfg, st, 1) && 1 !in st.open }

  function Begun(cfg: Config, st: State): Call { Entered(cfg, st, READ) }

  /** A read of task 1 is interrupted by a signal. */
  lemma Interrupted(cfg: Config, run: seq<Notice>, st: State) returns (longer: seq<Notice>, r: State)
    requires Chooses(cfg)
    requires Reached(cfg, run, st) && Ready(cfg, st)
    ensures longer == run + [Enter(1, READ)] + [Leave(1, -512)] + [Signal(1)] && Reached(cfg, longer, r)
    ensures Holds(r, 1, Calls(None, Some(Begun(cfg, st)), false)) && r.tasks == st.tasks[1 := r.tasks[1]]
    ensures r.open == st.open + {1} && FlushIdle(cfg, r, 1)
    ensures r.log == st.log + [Printed(Unfinished(1, READ, [])), Printed(Plain(1, ALARM))]
    ensures r.history.closings == st.history.closings
    ensures r.history.entries == st.history.entries + [Entry(st.tasks[1].task, READ, [], |st.log|, Begun(cfg, st).enteredAt)]
  {
    EnterStep(cfg, st, Enter(1, READ), 1, READ, None);
    longer, r := Extend(cfg, run, st, Enter(1, READ));
    InterruptStep(cfg, r, 1, Begun(cfg, st));
    longer, r := Extend(cfg, longer, r, Leave(1, -512));
    IdleKept(cfg, st, r, 1);
    SignalStep(cfg, r, 1, Calls(None, Some(Begun(cfg, st)), false));
    longer, r := Extend(cfg, longer, r, Signal(1));
    IdleKept(cfg, st, r, 1);
  }

  /** Its handler writes: the line of the write closes the announcement of the read. */
  lemma Handled(cfg: Config, run: seq<Notice>, st: State) returns (longer: seq<Notice>, r: State)
    requires Chooses(cfg)
    requires Reached(cfg, run, st) && Ready(cfg, st)
    ensures longer == run + [Enter(1, READ)] + [Leave(1, -512)] + [Signal(1)] + [Enter(1, WRITE)] + [Leave(1, 5)]
    ensures Reached(cfg, longer, r)
    ensures Holds(r, 1, Calls(None, Some(Begun(cfg, st)), false)) && r.tasks == st.tasks[1 := r.tasks[1]]
    ensures r.open == st.open && FlushIdle(cfg, r, 1)
    ensures r.log ==
            st.log + [Printed(Unfinished(1, READ, [])), Printed(Plain(1, ALARM)), Printed(Resumed(1, WRITE, 5, 0))]
    ensures |r.history.closings| == |st.history.closings| + 1 && |r.history.entries| == |st.history.entries| + 2
    ensures r.history.entries[|st.history.entries|].mark == |st.log|
  {
    longer, r := Interrupted(cfg, run, st);
    var was := r;
    EnterStep(cfg, r, Enter(1, WRITE), 1, WRITE, Some(Begun(cfg, st)));
    longer, r := Extend(cfg, longer, r, Enter(1, WRITE));
    IdleKept(cfg, was, r, 1);
    LeaveStep(cfg, r, 1, Entered(cfg, was, WRITE), Some(Begun(cfg, st)), 5);
    longer, r := Extend(cfg, longer, r, Leave(1, 5));
    IdleKept(cfg, was, r, 1);
    assert st.open + {1} - {1} == st.open;
  }

  lemma Launched(cfg: Config) returns (st: State)
    requires Chooses(cfg)
    ensures st == Start(cfg) && Reached(cfg, [], st) && Ready(cfg, st)
    ensures st.log == [] && st.open == {} && st.tasks.Keys == {1}
    ensures st.history.entries == [] && st.history.closings == []
  {
    st := Start(cfg);
    assert 1 in st.tasks;
  }

  /** With restarts, a resumed line can name another call than its unfinished line. */
  lemma RestartMisnames(cfg: Config) returns (run: seq<Notice>)
    requires Chooses(cfg)
    ensures run == [] + [Enter(1, READ)] + [Leave(1, -512)] + [Signal(1)] + [Enter(1, WRITE)] + [Leave(1, 5)]
    ensures var r := After(cfg, Start(cfg), run);
            && r.Running?
            && r.st.log == [Printed(Unfinished(1, READ, [])), Printed(Plain(1, ALARM)),
                            Printed(Resumed(1, WRITE, 5, 0))]
            && !Naming.NamesAgree(r.st.log, 1)
  {
    var st := Launched(cfg);
    var r;
    run, r := Handled(cfg, [], st);
    assert r.log == [Printed(Unfinished(1, READ, [])), Printed(Plain(1, ALARM)), Printed(Resumed(1, WRITE, 5, 0))];
    Misnamed(r.log, 0, 2);
  }

  /** A log in which the announcement of a read is followed by the resumption of another call. */
  lemma Misnamed(log: seq<Record>, a: nat, k: nat)
    requires a < k < |log| && log[a] == Printed(Unfinished(1, READ, []))
    requires forall j :: a < j < k ==> !Naming.Concerns(log[j], 1)
    requires log[k].Printed? && log[k].line.Resumed? && log[k].line.tid == 1 && log[k].line.number != READ
    ensures !Naming.NamesAgree(log, 1)
  {
    StillAnnounced(log, a, k);
    assert !Naming.ResumesByName(Protocol.Outstanding(log[..k]), log[k]);
  }

  lemma {:induction false} StillAnnounced(log: seq<Record>, a: nat, k: nat)
    requires a < k <= |log| && log[a] == Printed(Unfinished(1, READ, []))
    requires forall j :: a < j < k ==> !Naming.Concerns(log[j], 1)
    ensures 1 in Protocol.Outstanding(log[..k]) && Protocol.Outstanding(log[..k])[1].number == READ
  {
    assert log[..k][..k - 1] == log[..k - 1];
    if k > a + 1 { StillAnnounced(log, a, k - 1); }
  }

  /** The lines of a handler stand between the entry of the interrupted call and its unsplit line. */
  lemma RestartSplits(cfg: Config) returns (run: seq<Notice>)
    requires Chooses(cfg)
    ensures run == [] + [Enter(1, READ)] + [Leave(1, -512)] + [Signal(1)] + [Enter(1, WRITE)] + [Leave(1, 5)]
                      + [Enter(1, RT_SIGRETURN)] + [Leave(1, 0)] + [Enter(1, READ)] + [Leave(1, 3)]
    ensures var r := After(cfg, Start(cfg), run);
            && r.Running? && |r.st.log| == 4 && r.st.log[3].Printed? && r.st.log[3].line.Whole?
            && |r.st.history.closings| == 3 && r.st.history.closings[2].serial == 0
            && r.st.history.closings[2].fate == Completed(r.st.log[3].line.syscall, Some(3))
            && !Interleaving.Unsplit(r.st, r.st.history.closings[2])
  {
    var st := Launched(cfg);
    var r, read := st, Begun(cfg, st);
    run, r := Handled(cfg, [], st);
    var was := r;
    EnterStep(cfg, r, Enter(1, RT_SIGRETURN), 1, RT_SIGRETURN, Some(read));
    run, r := Extend(cfg, run, r, Enter(1, RT_SIGRETURN));
    LeaveStep(cfg, r, 1, Entered(cfg, was, RT_SIGRETURN), Some(read), 0);
    run, r := Extend(cfg, run, r, Leave(1, 0));
    IdleKept(cfg, was, r, 1);
    RestartStep(cfg, r, 1, read, READ);
    run, r := Extend(cfg, run, r, Enter(1, READ));
    IdleKept(cfg, was, r, 1);
    LeaveStep(cfg, r, 1, read, None, 3);
    run, r := Extend(cfg, run, r, Leave(1, 3));
    NotQuiet(r.log, 0, 3);
  }

  lemma NotQuiet(log: seq<Record>, mark: nat, k: nat)
    requires mark < k <= |log| && log[mark].Printed?
    ensures !Interleaving.QuietSince(log[..k], mark)
  {
    assert log[..k][mark].Printed?;
  }

  // ----- two threads

  /** Task 1 clones thread 2. */
  lemma TwoThreads(cfg: Config) returns (run: seq<Notice>, r: State)
    requires Chooses(cfg)
    ensures run == [] + [Enter(1, CLONE)] + [Spawn()] + [Birth()] + [Leave(1, 2)] && Reached(cfg, run, r)
    ensures r.tasks.Keys == {1, 2} && Holds(r, 1, IDLE) && Holds(r, 2, IDLE)
    ensures r.open == {} && r.log == [Printed(Plain(1, SPAWNED))]
  {
    var st := Launched(cfg);
    EnterStep(cfg, st, Enter(1, CLONE), 1, CLONE, None);
    run, r := Extend(cfg, [], st, Enter(1, CLONE));
    var clone := Calls(Some(Entered(cfg, st, CLONE)), None, false);
    SpawnStep(cfg, r, clone);
    run, r := Extend(cfg, run, r, Spawn());
    BirthStep(cfg, r);
    run, r := Extend(cfg, run, r, Birth());
    LeaveStep(cfg, r, 1, Entered(cfg, st, CLONE), None, 2);
    run, r := Extend(cfg, run, r, Leave(1, 2));
  }

  /** One of two threads has handled a signal that interrupted its read. */
  lemma ThreadHandled(cfg: Config) returns (run: seq<Notice>, r: State, read: Call)
    requires Chooses(cfg)
    ensures run == [] + [Enter(1, CLONE)] + [Spawn()] + [Birth()] + [Leave(1, 2)]
                      + [Enter(1, READ)] + [Leave(1, -512)] + [Signal(1)] + [Enter(1, WRITE)] + [Leave(1, 5)]
    ensures Reached(cfg, run, r) && r.tasks.Keys == {1, 2} && r.open == {} && |r.log| == 4
    ensures Holds(r, 1, Calls(None, Some(read), false)) && read.number == READ && read.args == [] && Holds(r, 2, IDLE)
  {
    run, r := TwoThreads(cfg);
    read := Begun(cfg, r);
    run, r := Handled(cfg, run, r);
  }

  /** A restart of one task disturbs the unsplit line of another that was never interrupted. */
  lemma RestartDisturbs(cfg: Config) returns (run: seq<Notice>)
    requires Chooses(cfg)
    ensures run == [] + [Enter(1, CLONE)] + [Spawn()] + [Birth()] + [Leave(1, 2)]
                      + [Enter(1, READ)] + [Leave(1, -512)] + [Signal(1)] + [Enter(1, WRITE)] + [Leave(1, 5)]
                      + [Enter(1, GETPID)] + [Enter(2, WRITE)] + [Leave(1, 7)] + [Leave(2, 9)]
    ensures var r := After(cfg, Start(cfg), run); r.Running? && DisturbedWrite(r.st)
  {
    var r, read;
    run, r, read := ThreadHandled(cfg);
    var getpid := Entered(cfg, r, GETPID);
    EnterStep(cfg, r, Enter(1, GETPID), 1, GETPID, Some(read));
    run, r := Extend(cfg, run, r, Enter(1, GETPID));
    var write := Entered(cfg, r, WRITE);
    run, r := Overtaken(cfg, run, r, getpid, read);
    run, r := Disturbed(cfg, run, r, write, read);
  }

  /** The last line is the unsplit one of a write of task 2, and the announcement of the read of task 1
      stands between it and the entry of the write. */
  ghost predicate DisturbedWrite(st: State) {
    && |st.log| == 6 && st.history.closings != []
    && st.log[4] == Printed(Unfinished(1, READ, [])) && st.log[5].Printed?
    && st.log[5].line.Whole? && st.log[5].line.tid == 2
    && var c := st.history.closings[|st.history.closings| - 1];
    && c.fate == Completed(st.log[5].line.syscall, Some(5)) && !Interleaving.Unsplit(st, c)
  }

  /** While task 1, with a call set aside, is in a call that is not shown, task 2 enters a write. */
  lemma Overtaken(cfg: Config, run: seq<Notice>, st: State, getpid: Call, read: Call)
    returns (longer: seq<Notice>, r: State)
    requires Chooses(cfg)
    requires Reached(cfg, run, st) && st.tasks.Keys == {1, 2} && st.open == {} && Holds(st, 2, IDLE)
    requires Holds(st, 1, Calls(Some(getpid), Some(read), false)) && getpid.number == GETPID && read.number == READ
    ensures longer == run + [Enter(2, WRITE)] + [Leave(1, 7)] && Reached(cfg, longer, r)
    ensures r.tasks.Keys == {1, 2} && r.open == {} && r.log == st.log
    ensures Holds(r, 1, Calls(None, Some(read), false))
    ensures Holds(r, 2, Calls(Some(Entered(cfg, st, WRITE)), None, false))
    ensures r.history.entries == st.history.entries + [Entry(st.tasks[2].task, WRITE, [], |st.log|, Entered(cfg, st, WRITE).enteredAt)]
  {
    EnterStep(cfg, st, Enter(2, WRITE), 2, WRITE, None);
    longer, r := Extend(cfg, run, st, Enter(2, WRITE));
    LeaveStep(cfg, r, 1, getpid, Some(read), 7);
    longer, r := Extend(cfg, longer, r, Leave(1, 7));
  }

  /** The write returns after the call of task 1 has: that is announced first. */
  lemma Disturbed(cfg: Config, run: seq<Notice>, st: State, write: Call, read: Call)
    returns (longer: seq<Notice>, r: State)
    requires Chooses(cfg)
    requires Reached(cfg, run, st) && st.tasks.Keys == {1, 2} && st.open == {} && |st.log| == 4
    requires Holds(st, 1, Calls(None, Some(read), false)) && read.number == READ && read.args == []
    requires Holds(st, 2, Calls(Some(write), None, false)) && write.number == WRITE
    requires write.serial < |st.history.entries| && st.history.entries[write.serial].mark == 4
    ensures longer == run + [Leave(2, 9)] && Reached(cfg, longer, r) && DisturbedWrite(r)
  {
    LeaveFlushing(cfg, st, 2, write, 9, read);
    longer, r := Extend(cfg, run, st, Leave(2, 9));
    NotQuiet(r.log, 4, 5);
  }

  /** The leader is in a read when thread 2 calls exec: the read is announced. */
  lemma ExecEntered(cfg: Config) returns (run: seq<Notice>, r: State, exec: Call)
    requires Chooses(cfg)
    ensures run ==
            [] + [Enter(1, CLONE)] + [Spawn()] + [Birth()] + [Leave(1, 2)] + [Enter(1, READ)] + [Enter(2, EXECVE)]
    ensures Reached(cfg, run, r) && r.tasks.Keys == {1, 2} && r.open == {1} && exec.number == EXECVE
    ensures Holds(r, 2, Calls(Some(exec), None, false))
    ensures r.log == [Printed(Plain(1, SPAWNED)), Printed(Unfinished(1, READ, []))]
  {
    run, r := TwoThreads(cfg);
    var read := Begun(cfg, r);
    EnterStep(cfg, r, Enter(1, READ), 1, READ, None);
    run, r := Extend(cfg, run, r, Enter(1, READ));
    exec := Entered(cfg, r, EXECVE);
    EnterFlushing(cfg, r, 2, EXECVE, read);
    run, r := Extend(cfg, run, r, Enter(2, EXECVE));
  }

  /** The exec of a thread that is not the leader ends the unfinished line of the leader's call. */
  lemma ExecMisnames(cfg: Config) returns (run: seq<Notice>)
    requires Chooses(cfg)
    ensures run ==
            [] + [Enter(1, CLONE)] + [Spawn()] + [Birth()] + [Leave(1, 2)] + [Enter(1, READ)] + [Enter(2, EXECVE)]
               + [ExecDone()]
    ensures var r := After(cfg, Start(cfg), run);
            && r.Running?
            && r.st.log == [Printed(Plain(1, SPAWNED)), Printed(Unfinished(1, READ, [])),
                            Printed(Resumed(1, EXECVE, 0, 0))]
            && !Naming.NamesAgree(r.st.log, 1)
  {
    var r, exec;
    run, r, exec := ExecEntered(cfg);
    ExecStep(cfg, r, exec);
    run, r := Extend(cfg, run, r, ExecDone());
    Misnamed(r.log, 1, 2);
  }
}
