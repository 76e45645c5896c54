/** What each turn does to the table of tasks, to the root and to the kernel's requests, told from the
    notice; and what that makes of the status in the end. */
module Turns {
  import opened Bits
  import opened Events
  import opened TraceModel
  import opened Ledger
  import Lifecycle

  // ----- what a stop is answered with

  /** A group stop of a task that was seized: it is left stopped and only listened to. */
  predicate GroupStop(t: Tracee, what: What) {
    match what
    case EventStop(signal) => t.attached && signal != 5
    case SignalStop(signal, NoInfo(einval)) =>
      && t.attached && einval && !(t.newborn && signal == 19)
      && (signal == 19 || signal == 20 || signal == 21 || signal == 22)
    case _ => false
  }

  /** A stop that shows a newborn to be settled: its own SIGSTOP, an event stop, an exec, a signal. */
  predicate Settles(t: Tracee, what: What) {
    match what
    case EventStop(_) => true
    case ExecStop(_) => true
    case SignalStop(signal, info) => info.Info? || signal == 19
    case _ => false
  }

  /** The stop is about a genuine signal, not a newborn's SIGSTOP. */
  predicate Delivers(t: Tracee, what: What) {
    what.SignalStop? && what.info.Info? && !(t.newborn && what.signal == 19)
  }

  /** The genuine signal the stop is about, and 0 for none. */
  function Genuine(t: Tracee, what: What): int {
    if Delivers(t, what) then what.signal else 0
  }

  /** With the seccomp program installed a task outside any call runs on to the next traced one. */
  function Asking(cfg: Config, t: Tracee, what: What, hold: Hold): Asked {
    if GroupStop(t, what) then Listen else if cfg.seccomp && hold.pending.None? then Continue else UntilSyscall
  }

  function ChildTgid(t: Tracee, what: What): int
    requires what.ChildStop?
  {
    if what.childTgid > 0 then what.childTgid else if what.kind.Clone? then t.tgid else what.child
  }

  // ----- the state after the notice

  /** The births up to and including that of the subject. */
  function Births(cfg: Config, st: State, n: Notice): nat {
    var former := if n.what.ExecStop? then n.what.former else n.tid;
    if Subject(cfg, st, n).Some? && n.tid !in st.tasks && former !in st.tasks then st.history.births + 1
    else st.history.births
  }

  /** The subject after its stop has been answered. */
  function Resumed(cfg: Config, t: Tracee, hold: Hold, n: Notice): Tracee {
    var signal := Genuine(t, n.what);
    WithHold(t, hold).(
      newborn := t.newborn && !Settles(t, n.what),
      inStop := n.env.reply.Gone?,
      pendingSignal := if n.env.reply.Accepted? then 0
                       else if Delivers(t, n.what) then n.what.signal
                       else t.pendingSignal,
      asked := Asking(cfg, t, n.what, hold))
  }

  /** The other tasks: those of before, without the TID an exec gave up, and with a new child. */
  function Others(cfg: Config, st: State, n: Notice): map<int, Tracee> {
    var kept := if n.what.ExecStop? && n.what.former != n.tid then st.tasks - {n.what.former} else st.tasks;
    match Subject(cfg, st, n)
    case None => kept
    case Some(t) =>
      if n.what.ChildStop? && n.what.child != n.tid && n.what.child !in st.tasks then
        kept[n.what.child := NewTracee(Births(cfg, st, n), ChildTgid(t, n.what), t.attached, true)]
      else kept
  }

  function TableAfter(cfg: Config, st: State, n: Notice): map<int, Tracee> {
    match Subject(cfg, st, n)
    case None => Others(cfg, st, n)
    case Some(t) =>
      if n.what.Exited? || n.what.Killed? then Others(cfg, st, n) - {n.tid}
      else if n.what.Continued? then Others(cfg, st, n)[n.tid := t.(inStop := false)]
      else Others(cfg, st, n)[n.tid := Resumed(cfg, t, HoldNow(cfg, t, |st.history.entries|, n), n)]
  }

  /** The root keeps its identity through an exec, and a status is recorded when it ends: the code of an
      exit, 128 more than the signal that killed it. */
  function RootAfter(cfg: Config, st: State, n: Notice): Root {
    var moved := n.what.ExecStop? && n.what.former == st.root.tid && (n.what.former in st.tasks || n.tid in st.tasks);
    var root := if moved then st.root.(tid := n.tid) else st.root;
    if Subject(cfg, st, n).None? || n.tid != root.tid then root
    else
      match n.what
      case ExecStop(_) => root.(execObserved := true)
      case Exited(code) => root.(status := Some(code))
      case Killed(signal) => root.(status := Some(128 + signal))
      case _ => root
  }

  /** The request that answers a stop. */
  function Requesting(cfg: Config, st: State, n: Notice): seq<Request> {
    match Subject(cfg, st, n)
    case None => []
    case Some(t) =>
      if !IsStop(n.what) then []
      else
        [Request(n.tid, t.task, Asking(cfg, t, n.what, HoldNow(cfg, t, |st.history.entries|, n)),
                 Genuine(t, n.what), n.env.reply.Gone?)]
  }

  /** The tasks whose first SIGSTOP is swallowed. */
  function Swallowing(cfg: Config, st: State, n: Notice): seq<nat> {
    match Subject(cfg, st, n)
    case None => []
    case Some(t) => if n.what.SignalStop? && t.newborn && n.what.signal == 19 then [t.task] else []
  }

  // ----- a stop

  /** What handling a stop leaves for the request. */
  ghost predicate Shaped(st: State, r: Handled, n: Notice)
    requires n.tid in st.tasks
  {
    var t := st.tasks[n.tid];
    r.Handled? ==>
      && n.tid in r.st.tasks
      && r.st.tasks[n.tid] ==
           WithHold(t, HoldOf(r.st.tasks[n.tid])).(
             inStop := true, newborn := t.newborn && !Settles(t, n.what),
             pendingSignal := if Delivers(t, n.what) then n.what.signal
                              else t.pendingSignal)
      && r.listen == GroupStop(t, n.what) && r.signal == Genuine(t, n.what)
      && r.st.root == st.root.(execObserved := st.root.execObserved || (n.what.ExecStop? && n.tid == st.root.tid))
      && r.st.history.requests == st.history.requests
      && r.st.history.suppressed ==
           st.history.suppressed + (if n.what.SignalStop? && t.newborn && n.what.signal == 19 then [t.task] else [])
      && OthersShaped(st, r.st, n)
  }

  ghost predicate OthersShaped(st: State, r: State, n: Notice)
    requires n.tid in st.tasks
  {
    forall u | u in r.tasks && u != n.tid ::
      r.tasks[u] ==
        if u in st.tasks then st.tasks[u]
        else NewTracee(st.history.births, if n.what.ChildStop? then ChildTgid(st.tasks[n.tid], n.what) else 0,
                       st.tasks[n.tid].attached, true)
  }

  lemma CallsShaped(st: State, stopped: State, o: Outcome, n: Notice)
    requires n.tid in st.tasks && stopped == SetTask(st, n.tid, st.tasks[n.tid].(inStop := true))
    requires Enters(n.what) || n.what.SyscallExit?
    requires o.Fine? ==> Lifecycle.Steady(stopped, o.st, n.tid)
    ensures Shaped(st, Plainly(o), n)
  {
  }

  lemma ExecShaped(cfg: Config, st: State, n: Notice)
    requires n.tid in st.tasks && n.what.ExecStop?
    ensures Shaped(st, HandleStop(cfg, st, n), n)
  {
    var stopped := SetTask(st, n.tid, st.tasks[n.tid].(inStop := true));
    HandleExecAdds(cfg, stopped, n.tid, n.env);
    HandleExecRoot(cfg, stopped, n.tid, n.env);
  }

  lemma HandleExecRoot(cfg: Config, st: State, tid: int, env: Env)
    requires tid in st.tasks
    ensures var o := HandleExec(cfg, st, tid, env);
            o.Fine? ==>
              && o.st.root == st.root.(execObserved := st.root.execObserved || tid == st.root.tid)
              && o.st.history == st.history.(closings := o.st.history.closings)
  {
    var seen := if tid == st.root.tid then st.(root := st.root.(execObserved := true)) else st;
    Lifecycle.CompletionsSteady(cfg, seen, tid, 0, 0, env.now, env.order);
  }

  lemma ChildShaped(cfg: Config, st: State, n: Notice)
    requires n.tid in st.tasks && n.what.ChildStop?
    ensures Shaped(st, HandleStop(cfg, st, n), n)
  {
    var stopped := SetTask(st, n.tid, st.tasks[n.tid].(inStop := true));
    HandleChildParts(cfg, stopped, n.tid, n.what.kind, n.what.child, n.what.childTgid, n.env);
  }

  lemma HandleChildParts(cfg: Config, st: State, tid: int, kind: ChildKind, child: nat, childTgid: int, env: Env)
    requires tid in st.tasks
    ensures var o := HandleChild(cfg, st, tid, kind, child, childTgid, env);
            var t := st.tasks[tid];
            o.Fine? ==>
              && o.st.root == st.root && o.st.history.requests == st.history.requests
              && o.st.history.suppressed == st.history.suppressed
              && o.st.tasks ==
                   if child in st.tasks then st.tasks
                   else
                     st.tasks[child := NewTracee(st.history.births, if childTgid > 0 then childTgid else
                                                 if kind.Clone? then t.tgid else child, t.attached, true)]
  {
  }

  lemma SignalShaped(cfg: Config, st: State, n: Notice)
    requires n.tid in st.tasks && (n.what.SignalStop? || n.what.EventStop?)
    ensures Shaped(st, HandleStop(cfg, st, n), n)
  {
  }

  lemma HandleStopShaped(cfg: Config, st: State, n: Notice)
    requires n.tid in st.tasks
    ensures Shaped(st, HandleStop(cfg, st, n), n)
  {
    var stopped := SetTask(st, n.tid, st.tasks[n.tid].(inStop := true));
    match n.what
    case SyscallEntry(number, args) =>
      Lifecycle.BeginSteady(cfg, stopped, n.tid, number, args, n.env);
      CallsShaped(st, stopped, Begin(cfg, stopped, n.tid, number, args, n.env), n);
    case SeccompStop(number, args) =>
      Lifecycle.BeginSteady(cfg, stopped, n.tid, number, args, n.env);
      CallsShaped(st, stopped, Begin(cfg, stopped, n.tid, number, args, n.env), n);
    case SyscallExit(rval, isError) =>
      Lifecycle.FinishSteady(cfg, stopped, n.tid, rval, isError, n.env);
      CallsShaped(st, stopped, Finish(cfg, stopped, n.tid, rval, isError, n.env), n);
    case ExecStop(_) => ExecShaped(cfg, st, n);
    case ChildStop(_, _, _) => ChildShaped(cfg, st, n);
    case SignalStop(_, _) => SignalShaped(cfg, st, n);
    case EventStop(_) => SignalShaped(cfg, st, n);
    case _ =>
  }

  // ----- whole turns

  /** The root once an exec has been migrated. */
  function MovedRoot(st: State, n: Notice): Root {
    if n.what.ExecStop? && n.what.former == st.root.tid && (n.what.former in st.tasks || n.tid in st.tasks) then
      st.root.(tid := n.tid)
    else st.root
  }

  lemma AdmitMoved(cfg: Config, st: State, n: Notice)
    requires !n.what.WaitInterrupted?
    ensures var o := Admit(cfg, st, n);
            o.Fine? ==>
              && o.st.root == MovedRoot(st, n) && o.st.history.births == Births(cfg, st, n)
              && o.st.history.requests == st.history.requests && o.st.history.suppressed == st.history.suppressed
  {
    if n.what.ExecStop? && n.what.former != n.tid && n.tid > 0 {
      Lifecycle.MigrationSpec(cfg, st, n.tid, n.what.former);
    }
  }

  /** One turn, told from its notice. */
  ghost predicate Turned(cfg: Config, st: State, n: Notice, r: State) {
    && r.tasks == TableAfter(cfg, st, n) && r.root == RootAfter(cfg, st, n)
    && r.history.requests == st.history.requests + Requesting(cfg, st, n)
    && r.history.suppressed == st.history.suppressed + Swallowing(cfg, st, n)
  }

  /** The subject's own entry after the request. */
  lemma SubjectResumed(cfg: Config, t: Tracee, u: Tracee, hold: Hold, n: Notice, asked: Asked)
    requires HoldOf(u) == hold && asked == Asking(cfg, t, n.what, hold) && !n.env.reply.Refused?
    requires u == WithHold(t, hold).(
               inStop := true, newborn := t.newborn && !Settles(t, n.what),
               pendingSignal := if Delivers(t, n.what) then n.what.signal
                                else t.pendingSignal)
    ensures (if n.env.reply.Gone? then u.(asked := asked)
             else u.(asked := asked, inStop := false, pendingSignal := 0)) ==
            Resumed(cfg, t, hold, n)
  {
  }

  /** The entries of the others, already there when the stop was admitted or born by it. */
  lemma OthersResumed(cfg: Config, st: State, admitted: State, h: State, n: Notice, u: int)
    requires IsStop(n.what) && Subject(cfg, st, n).Some?
    requires admitted.tasks == Admitted(cfg, st, n) && admitted.history.births == Births(cfg, st, n)
    requires OthersShaped(admitted, h, n) && h.tasks.Keys == admitted.tasks.Keys + Born(n.what)
    ensures u != n.tid ==> (u in h.tasks <==> u in Others(cfg, st, n))
    ensures u != n.tid && u in h.tasks ==> h.tasks[u] == Others(cfg, st, n)[u]
  {
  }

  lemma ResumeTable(cfg: Config, st: State, admitted: State, h: Handled, n: Notice, r: map<int, Tracee>)
    requires IsStop(n.what) && Subject(cfg, st, n).Some? && h.Handled? && n.tid in admitted.tasks
    requires admitted.tasks == Admitted(cfg, st, n) && admitted.history.births == Births(cfg, st, n)
    requires OthersShaped(admitted, h.st, n) && h.st.tasks.Keys == admitted.tasks.Keys + Born(n.what)
    requires r == h.st.tasks[n.tid := Resumed(cfg, Subject(cfg, st, n).value,
                                              HoldNow(cfg, Subject(cfg, st, n).value, |st.history.entries|, n), n)]
    ensures r == TableAfter(cfg, st, n)
  {
    var after := TableAfter(cfg, st, n);
    forall u: int ensures (u in r <==> u in after) && (u in r ==> r[u] == after[u]) {
      OthersResumed(cfg, st, admitted, h.st, n, u);
    }
  }

  /** What resuming does, whatever the state. */
  lemma ResumeParts(cfg: Config, st: State, tid: int, signal: int, listen: bool, env: Env)
    requires tid in st.tasks && !env.reply.Refused?
    ensures var r, u := Resume(cfg, st, tid, signal, listen, env), st.tasks[tid];
            var asked := RequestFor(cfg, u, listen);
            && !r.Abort? && r.st.root == st.root && r.st.history.suppressed == st.history.suppressed
            && r.st.tasks == st.tasks[tid :=
                 if env.reply.Gone? then u.(asked := asked)
                 else u.(asked := asked, inStop := false, pendingSignal := 0)]
            && r.st.history.requests == st.history.requests + [Request(tid, u.task, asked, signal, env.reply.Gone?)]
            && (r.Halt? <==> env.reply.Accepted? && env.shutdown != 0) && (r.Halt? ==> r.status == 128 + env.shutdown)
  {
  }

  lemma RootShaped(cfg: Config, st: State, n: Notice, h: State)
    requires IsStop(n.what) && Subject(cfg, st, n).Some?
    requires h.root == MovedRoot(st, n).(execObserved := MovedRoot(st, n).execObserved ||
                                                        (n.what.ExecStop? && n.tid == MovedRoot(st, n).tid))
    ensures h.root == RootAfter(cfg, st, n)
  {
  }

  lemma ResumeTurned(cfg: Config, st: State, admitted: State, h: Handled, n: Notice)
    requires IsStop(n.what) && Subject(cfg, st, n).Some? && h.Handled? && n.tid in admitted.tasks
    requires admitted.tasks == Admitted(cfg, st, n) && admitted.history.births == Births(cfg, st, n)
    requires admitted.root == MovedRoot(st, n) && admitted.history.entries == st.history.entries
    requires admitted.history.requests == st.history.requests && admitted.history.suppressed == st.history.suppressed
    requires Booked(cfg, admitted, h, n) && Shaped(admitted, h, n) && !n.env.reply.Refused?
    ensures var r := Resume(cfg, h.st, n.tid, h.signal, h.listen, n.env);
            && !r.Abort? && Turned(cfg, st, n, r.st)
            && (r.Halt? <==> n.env.reply.Accepted? && n.env.shutdown != 0)
            && (r.Halt? ==> r.status == 128 + n.env.shutdown)
  {
    var t, u := admitted.tasks[n.tid], h.st.tasks[n.tid];
    var hold := HoldNow(cfg, t, |st.history.entries|, n);
    SubjectResumed(cfg, t, u, hold, n, RequestFor(cfg, u, h.listen));
    ResumeParts(cfg, h.st, n.tid, h.signal, h.listen, n.env);
    ResumeTable(cfg, st, admitted, h, n, h.st.tasks[n.tid := Resumed(cfg, t, hold, n)]);
    RootShaped(cfg, st, n, h.st);
  }

  /** The notices after which the loop is left: a shutdown signal is pending when waiting is interrupted
      or when the subject has been resumed. */
  predicate Stopping(cfg: Config, st: State, n: Notice) {
    && n.env.shutdown != 0
    && (n.what.WaitInterrupted? || (IsStop(n.what) && Subject(cfg, st, n).Some? && n.env.reply.Accepted?))
  }

  lemma StopTurned(cfg: Config, st: State, admitted: State, n: Notice)
    requires IsStop(n.what) && Subject(cfg, st, n).Some? && Admit(cfg, st, n) == Fine(admitted)
    ensures var r := Dispatch(cfg, admitted, n);
            !r.Abort? ==>
              && Turned(cfg, st, n, r.st)
              && (r.Halt? <==> Stopping(cfg, st, n)) && (r.Halt? ==> r.status == 128 + n.env.shutdown)
  {
    AdmitAdds(cfg, st, n);
    AdmitMoved(cfg, st, n);
    HandleStopBooked(cfg, admitted, n);
    HandleStopShaped(cfg, admitted, n);
    var h := HandleStop(cfg, admitted, n);
    if h.Handled? && !n.env.reply.Refused? { ResumeTurned(cfg, st, admitted, h, n); }
  }

  lemma BuryTurned(cfg: Config, st: State, n: Notice)
    requires n.tid in st.tasks && (n.what.Exited? || n.what.Killed?)
    ensures var o := Bury(cfg, st, n); o.Fine? ==> Turned(cfg, st, n, o.st)
  {
    Lifecycle.RemoveTaskLocal(RecordStatus(WriteExit(cfg, st, n), n), n.tid, LostAtExit);
  }

  lemma OtherTurned(cfg: Config, st: State, n: Notice)
    requires !n.what.WaitInterrupted? && Admit(cfg, st, n).Fine?
    requires !IsStop(n.what) || n.tid !in Admit(cfg, st, n).st.tasks
    ensures var r := Step(cfg, st, n);
            !r.Abort? ==> Turned(cfg, st, n, r.st) && !r.Halt? && !Stopping(cfg, st, n)
  {
    AdmitAdds(cfg, st, n);
    assert Admit(cfg, st, n) == Fine(st);
    if n.tid in st.tasks && !n.what.Continued? { BuryTurned(cfg, st, n); }
  }

  /** One turn does to the table, the root, the requests and the swallowed signals what its notice tells,
      and the loop is left exactly on a shutdown signal, with 128 more than that signal. */
  lemma StepTurned(cfg: Config, st: State, n: Notice)
    ensures var r := Step(cfg, st, n);
            !r.Abort? ==>
              && Turned(cfg, st, n, r.st)
              && (r.Halt? <==> Stopping(cfg, st, n)) && (r.Halt? ==> r.status == 128 + n.env.shutdown)
  {
    if !n.what.WaitInterrupted? {
      AdmitAdds(cfg, st, n);
      var o := Admit(cfg, st, n);
      if o.Fine? {
        if IsStop(n.what) && n.tid in o.st.tasks {
          StopTurned(cfg, st, o.st, n);
        } else {
          OtherTurned(cfg, st, n);
        }
      }
    }
  }

  // ----- whole runs

  lemma LastTurned(cfg: Config, st: State, run: seq<Notice>)
    requires run != [] && !After(cfg, st, run).Aborted?
    ensures var r, s := After(cfg, st, run[..|run| - 1]), After(cfg, st, run);
            && !r.Aborted? && (!r.Running? ==> s == r)
            && (r.Running? ==>
                  && Turned(cfg, r.st, run[|run| - 1], s.st)
                  && (s.Halted? <==> Stopping(cfg, r.st, run[|run| - 1]))
                  && (s.Halted? ==> s.status == 128 + run[|run| - 1].env.shutdown))
  {
    var r := After(cfg, st, run[..|run| - 1]);
    if r.Running? { StepTurned(cfg, r.st, run[|run| - 1]); }
  }

  /** The requests that answer the stops of the run, in order. */
  function AllRequests(cfg: Config, st: State, run: seq<Notice>): seq<Request> {
    if run == [] then []
    else
      var front := run[..|run| - 1];
      var r := After(cfg, st, front);
      AllRequests(cfg, st, front) + if r.Running? then Requesting(cfg, r.st, run[|run| - 1]) else []
  }

  ghost predicate Requested(cfg: Config, st: State, run: seq<Notice>, r: RunResult) {
    !r.Aborted? ==> r.st.history.requests == st.history.requests + AllRequests(cfg, st, run)
  }

  lemma RequestedMore(cfg: Config, st: State, run: seq<Notice>, r: RunResult, s: RunResult)
    requires run != [] && r == After(cfg, st, run[..|run| - 1]) && s == After(cfg, st, run) && !s.Aborted?
    requires Requested(cfg, st, run[..|run| - 1], r)
    ensures Requested(cfg, st, run, s)
  {
    LastTurned(cfg, st, run);
    var more := if r.Running? then Requesting(cfg, r.st, run[|run| - 1]) else [];
    Joined(st.history.requests, r.st.history.requests, s.st.history.requests,
           AllRequests(cfg, st, run[..|run| - 1]), more, AllRequests(cfg, st, run));
  }

  /** Over every run: each stop of a tracked task is answered once, in order, by the request its kind
      calls for, with the genuine signal or none. */
  lemma {:induction false} RunRequested(cfg: Config, st: State, run: seq<Notice>)
    ensures Requested(cfg, st, run, After(cfg, st, run))
  {
    if run != [] && !After(cfg, st, run).Aborted? {
      RunRequested(cfg, st, run[..|run| - 1]);
      LastTurned(cfg, st, run);
      RequestedMore(cfg, st, run, After(cfg, st, run[..|run| - 1]), After(cfg, st, run));
    }
  }

  // ----- the status in the end

  /** Turn `k` is the death of the task that is the root at that moment. */
  ghost predicate RootDies(cfg: Config, start: State, run: seq<Notice>, k: nat) {
    && k < |run| && (run[k].what.Exited? || run[k].what.Killed?)
    && var r := After(cfg, start, run[..k]);
    && r.Running? && run[k].tid == r.st.root.tid && run[k].tid in r.st.tasks
  }

  /** What a shell reports for such an end. */
  ghost predicate Reports(what: What, status: int) {
    || what == Exited(status)
    || (what.Killed? && status == 128 + what.signal)
  }

  /** The root does not die after turn `k`. */
  ghost predicate LastOne(cfg: Config, start: State, run: seq<Notice>, k: nat) {
    forall j :: k < j < |run| ==> !RootDies(cfg, start, run, j)
  }

  lemma DeathsBefore(cfg: Config, start: State, run: seq<Notice>, n: nat, k: nat)
    requires k < n <= |run|
    ensures RootDies(cfg, start, run[..n], k) <==> RootDies(cfg, start, run, k)
  {
    assert run[..n][..k] == run[..k];
  }

  lemma LastDeath(cfg: Config, start: State, run: seq<Notice>)
    requires run != [] && !After(cfg, start, run).Aborted?
    ensures var n := |run| - 1;
            var r, s := After(cfg, start, run[..n]), After(cfg, start, run);
            && !r.Aborted?
            && (if RootDies(cfg, start, run, n) then
                  s.st.root.status.Some? && Reports(run[n].what, s.st.root.status.value)
                else s.st.root.status == r.st.root.status)
  {
    LastTurned(cfg, start, run);
  }

  lemma NoDeathSince(cfg: Config, start: State, run: seq<Notice>, k: nat)
    requires k < |run| - 1 && !RootDies(cfg, start, run, |run| - 1)
    requires LastOne(cfg, start, run[..|run| - 1], k)
    ensures LastOne(cfg, start, run, k)
  {
    forall j | k < j < |run| ensures !RootDies(cfg, start, run, j) {
      if j < |run| - 1 { DeathsBefore(cfg, start, run, |run| - 1, j); }
    }
  }

  /** A recorded status is that of the last death of the root. */
  lemma {:induction false} RootDeath(cfg: Config, start: State, run: seq<Notice>) returns (k: nat)
    requires start.root.status.None? && !After(cfg, start, run).Aborted? && After(cfg, start, run).st.root.status.Some?
    ensures RootDies(cfg, start, run, k) && Reports(run[k].what, After(cfg, start, run).st.root.status.value)
    ensures LastOne(cfg, start, run, k)
  {
    var n := |run| - 1;
    LastDeath(cfg, start, run);
    if RootDies(cfg, start, run, n) {
      k := n;
    } else {
      k := RootDeath(cfg, start, run[..n]);
      DeathsBefore(cfg, start, run, n, k);
      NoDeathSince(cfg, start, run, k);
    }
  }

  /** The loop is left as drained exactly when no task is tracked any more; an attached tracer then
      reports 0. */
  lemma {:induction false} LoopDrains(cfg: Config, start: State, run: seq<Notice>)
    ensures var r := After(cfg, start, run);
            && (r.Drained? ==> r.st.tasks == map[]) && (r.Running? ==> r.st.tasks != map[])
            && (r.Drained? && cfg.mode.Attach? ==> r.status == 0)
  {
    if run != [] { LoopDrains(cfg, start, run[..|run| - 1]); }
  }

  /** A run that is halted was halted by the shutdown signal of its last live turn. */
  lemma {:induction false} HaltingTurn(cfg: Config, start: State, run: seq<Notice>) returns (k: nat)
    requires After(cfg, start, run).Halted?
    ensures k < |run| && After(cfg, start, run[..k]).Running?
    ensures Stopping(cfg, After(cfg, start, run[..k]).st, run[k])
    ensures After(cfg, start, run).status == 128 + run[k].env.shutdown
  {
    var n := |run| - 1;
    LastTurned(cfg, start, run);
    if After(cfg, start, run[..n]).Running? {
      k := n;
    } else {
      k := HaltingTurn(cfg, start, run[..n]);
      assert run[..n][..k] == run[..k];
    }
  }

  /** A launched command whose loop drains is reported with its own end: the last death of the task that
      was the root at that moment. */
  lemma DrainedStatus(cfg: Config, root: int, run: seq<Notice>) returns (k: nat)
    requires root > 0 && cfg.mode.Launch? && After(cfg, LaunchState(cfg, root), run).Drained?
    ensures var start := LaunchState(cfg, root);
            var status := After(cfg, start, run).status;
            && RootDies(cfg, start, run, k) && LastOne(cfg, start, run, k)
            && (run[k].what == Exited(status) || (run[k].what.Killed? && status == 128 + run[k].what.signal))
  {
    Lifecycle.DrainedStatusIsRecorded(cfg, root, run);
    k := RootDeath(cfg, LaunchState(cfg, root), run);
  }
}
