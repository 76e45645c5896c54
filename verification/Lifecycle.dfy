/** What every turn of the loop does to the table of tasks: nobody is left stuck, signals are
    passed on faithfully, exec migrates one task, and the root's status is never lost. */
module Lifecycle {
  import opened Bits
  import opened Events
  import opened TraceModel

  // ----- frames

  /** Everything about a task except its calls. */
  ghost predicate SameButCalls(t: Tracee, u: Tracee) {
    u == t.(pending := u.pending, interrupted := u.interrupted, restartReady := u.restartReady)
  }

  /** Only the calls of `tid`, the output, the statistics and the books may differ. */
  ghost predicate Steady(a: State, b: State, tid: int) {
    && tid in a.tasks && tid in b.tasks
    && b.tasks == a.tasks[tid := b.tasks[tid]]
    && SameButCalls(a.tasks[tid], b.tasks[tid])
    && b.root == a.root
    && b.history == a.history.(entries := b.history.entries, closings := b.history.closings)
  }

  lemma SteadyTwice(a: State, b: State, c: State, tid: int)
    requires Steady(a, b, tid) && Steady(b, c, tid)
    ensures Steady(a, c, tid)
  {
  }

  lemma CompletionsSteady(cfg: Config, st: State, tid: int, result: int, errorNumber: int, at: Timespec,
                          order: seq<int>)
    requires tid in st.tasks
    ensures st.tasks[tid].pending.Some? ==>
              var o := CompletePending(cfg, st, tid, result, errorNumber, at, order);
              o.Fine? ==> Steady(st, o.st, tid) && o.st.tasks[tid] == st.tasks[tid].(pending := None)
    ensures st.tasks[tid].interrupted.Some? ==>
              var o := CompleteInterrupted(cfg, st, tid, result, errorNumber, at, order);
              o.Fine? ==> Steady(st, o.st, tid)
  {
  }

  lemma DropsSteady(st: State, tid: int, reason: Reason)
    requires tid in st.tasks
    ensures Steady(st, DropPending(st, tid, reason), tid)
    ensures Steady(st, DropInterrupted(st, tid, reason), tid)
    ensures DropInterrupted(st, tid, reason).tasks[tid].pending == st.tasks[tid].pending
  {
  }

  lemma SetAsideSteady(st: State, tid: int)
    requires tid in st.tasks
    ensures Steady(st, SetAside(st, tid), tid) && SetAside(st, tid).tasks[tid].pending.None?
  {
    DropsSteady(st, tid, Replaced);
    SteadyTwice(st, DropInterrupted(st, tid, Replaced), SetAside(st, tid), tid);
  }

  lemma AfterCompletionSteady(st: State, tid: int, number: int)
    requires tid in st.tasks
    ensures Steady(st, AfterCompletion(st, tid, number), tid)
    ensures AfterCompletion(st, tid, number).tasks[tid].pending == st.tasks[tid].pending
  {
    DropsSteady(st, tid, Superseded);
  }

  lemma EntriesSteady(cfg: Config, st: State, tid: int, number: int, args: seq<int>, env: Env)
    requires tid in st.tasks
    ensures Steady(st, FreshEntry(cfg, st, tid, number, args, env), tid)
    ensures FreshEntry(cfg, st, tid, number, args, env).tasks[tid].pending.Some?
    ensures Steady(st, Restart(cfg, st, tid, env.order), tid)
    ensures Restart(cfg, st, tid, env.order).tasks[tid].pending == st.tasks[tid].interrupted
  {
  }

  lemma BeginSteady(cfg: Config, st: State, tid: int, number: nat, args: seq<int>, env: Env)
    requires tid in st.tasks
    ensures var o := Begin(cfg, st, tid, number, args, env);
            o.Fine? ==> Steady(st, o.st, tid) && o.st.tasks[tid].pending.Some?
  {
    CompletionsSteady(cfg, st, tid, 0, 0, env.now, env.order);
    var settled := SettleExec(cfg, st, tid, env);
    if settled.Fine? {
      assert Steady(st, settled.st, tid);
      EntriesSteady(cfg, settled.st, tid, number, args, env);
      if Restarts(settled.st.tasks[tid], number) {
        SteadyTwice(st, settled.st, Restart(cfg, settled.st, tid, env.order), tid);
      } else {
        CompletionsSteady(cfg, settled.st, tid, -1, EINTR, env.now, env.order);
        var exposed := ExposeEintr(cfg, settled.st, tid, env);
        if exposed.Fine? {
          SteadyTwice(st, settled.st, exposed.st, tid);
          EntriesSteady(cfg, exposed.st, tid, number, args, env);
          SteadyTwice(st, exposed.st, FreshEntry(cfg, exposed.st, tid, number, args, env), tid);
        }
      }
    }
  }

  lemma ConcludeSteady(cfg: Config, st: State, tid: int, rval: int, isError: bool, env: Env)
    requires tid in st.tasks && st.tasks[tid].pending.Some?
    ensures var o := Conclude(cfg, st, tid, rval, isError, env);
            o.Fine? ==> Steady(st, o.st, tid) && o.st.tasks[tid].pending.None?
  {
    var call := st.tasks[tid].pending.value;
    var errorNumber := ErrorNumber(rval, isError);
    var at := StampOf(cfg, call.number, env.now);
    CompletionsSteady(cfg, st, tid, rval, errorNumber, at, env.order);
    ConcludingSteady(st, CompletePending(cfg, st, tid, rval, errorNumber, at, env.order), tid, call.number);
  }

  lemma ConcludingSteady(st: State, o: Outcome, tid: int, number: int)
    requires o.Fine? ==> Steady(st, o.st, tid) && o.st.tasks[tid].pending.None?
    ensures var c := Concluding(o, tid, number); c.Fine? ==> Steady(st, c.st, tid) && c.st.tasks[tid].pending.None?
  {
    if o.Fine? {
      AfterCompletionSteady(o.st, tid, number);
      SteadyTwice(st, o.st, AfterCompletion(o.st, tid, number), tid);
    }
  }

  lemma FinishSteady(cfg: Config, st: State, tid: int, rval: int, isError: bool, env: Env)
    requires tid in st.tasks
    ensures var o := Finish(cfg, st, tid, rval, isError, env);
            o.Fine? ==> Steady(st, o.st, tid) && o.st.tasks[tid].pending.None?
  {
    if st.tasks[tid].pending.Some? {
      SetAsideSteady(st, tid);
      ConcludeSteady(cfg, st, tid, rval, isError, env);
    } else {
      assert st.tasks == st.tasks[tid := st.tasks[tid]];
    }
  }

  /** Handling a stop of `tid` touches that task and may track one newborn child, nothing else. */
  ghost predicate Local(a: State, b: State, tid: int) {
    && tid in a.tasks && tid in b.tasks
    && b.tasks[tid].task == a.tasks[tid].task && b.tasks[tid].tgid == a.tasks[tid].tgid
    && b.tasks[tid].attached == a.tasks[tid].attached && b.tasks[tid].asked == a.tasks[tid].asked
    && (forall u | u in a.tasks && u != tid :: u in b.tasks && b.tasks[u] == a.tasks[u])
    && (forall u | u in b.tasks && u !in a.tasks ::
          && u > 0 && b.history.births == a.history.births + 1
          && b.tasks[u] == NewTracee(a.history.births, b.tasks[u].tgid, a.tasks[tid].attached, true))
    && (forall u, v | u in b.tasks && u !in a.tasks && v in b.tasks && v !in a.tasks :: u == v)
    && a.history.births <= b.history.births
    && b.root.tid == a.root.tid && b.root.status == a.root.status
    && b.history.requests == a.history.requests
  }

  lemma HandleExecLocal(cfg: Config, st: State, tid: int, env: Env)
    requires tid in st.tasks
    ensures var o := HandleExec(cfg, st, tid, env);
            o.Fine? ==>
              && Local(st, o.st, tid) && o.st.history.suppressed == st.history.suppressed
              && !o.st.tasks[tid].newborn && o.st.tasks[tid].inStop == st.tasks[tid].inStop
              && o.st.tasks[tid].pending.None?
  {
    var seen := if tid == st.root.tid then st.(root := st.root.(execObserved := true)) else st;
    CompletionsSteady(cfg, seen, tid, 0, 0, env.now, env.order);
  }

  lemma HandleChildLocal(cfg: Config, st: State, tid: int, kind: ChildKind, child: nat, childTgid: int, env: Env)
    requires tid in st.tasks
    ensures var o := HandleChild(cfg, st, tid, kind, child, childTgid, env);
            o.Fine? ==> Local(st, o.st, tid) && o.st.history.suppressed == st.history.suppressed &&
                        o.st.tasks[tid] == st.tasks[tid]
  {
  }

  /** The signal a stop is answered with: the genuine signal-delivery stops, and nothing else. */
  function Delivered(newborn: bool, what: What): int {
    if what.SignalStop? && what.info.Info? && !(newborn && what.signal == SIGSTOP) then what.signal else 0
  }

  /** A SIGSTOP that is swallowed because its thread has just been born. */
  predicate Swallowed(newborn: bool, what: What) {
    what.SignalStop? && newborn && what.signal == SIGSTOP
  }

  ghost predicate Answered(st: State, r: Handled, n: Notice)
    requires n.tid in st.tasks
  {
    var newborn := st.tasks[n.tid].newborn;
    r.Handled? ==>
      && Local(st, r.st, n.tid) && r.st.tasks[n.tid].inStop
      && r.signal == Delivered(newborn, n.what)
      && (r.listen ==> st.tasks[n.tid].attached)
      && (r.st.tasks[n.tid].newborn ==> newborn && r.signal == 0 && !Swallowed(newborn, n.what))
      && r.st.history.suppressed ==
           if Swallowed(newborn, n.what) then st.history.suppressed + [st.tasks[n.tid].task] else st.history.suppressed
  }

  lemma PlainlyAnswered(st: State, stopped: State, o: Outcome, n: Notice)
    requires n.tid in st.tasks && stopped == SetTask(st, n.tid, st.tasks[n.tid].(inStop := true))
    requires !n.what.SignalStop?
    requires o.Fine? ==>
              Local(stopped, o.st, n.tid) && o.st.tasks[n.tid].inStop && o.st.history.suppressed == st.history.suppressed
    requires o.Fine? ==> (o.st.tasks[n.tid].newborn ==> st.tasks[n.tid].newborn)
    ensures Answered(st, Plainly(o), n)
  {
  }

  lemma SignalAnswered(cfg: Config, st: State, stopped: State, n: Notice)
    requires n.tid in st.tasks && stopped == SetTask(st, n.tid, st.tasks[n.tid].(inStop := true)) && n.what.SignalStop?
    ensures Answered(st, HandleSignal(cfg, stopped, n.tid, n.what.signal, n.what.info, n.env), n)
  {
  }

  lemma SteadyIsLocal(a: State, b: State, tid: int)
    requires Steady(a, b, tid)
    ensures Local(a, b, tid)
  {
  }

  lemma HandleStopAnswered(cfg: Config, st: State, n: Notice)
    requires n.tid in st.tasks
    ensures Answered(st, HandleStop(cfg, st, n), n)
  {
    var stopped := SetTask(st, n.tid, st.tasks[n.tid].(inStop := true));
    match n.what
    case SyscallEntry(number, args) =>
      BeginSteady(cfg, stopped, n.tid, number, args, n.env);
      var o := Begin(cfg, stopped, n.tid, number, args, n.env);
      if o.Fine? { SteadyIsLocal(stopped, o.st, n.tid); }
      PlainlyAnswered(st, stopped, o, n);
    case SyscallExit(rval, isError) =>
      FinishSteady(cfg, stopped, n.tid, rval, isError, n.env);
      var o := Finish(cfg, stopped, n.tid, rval, isError, n.env);
      if o.Fine? { SteadyIsLocal(stopped, o.st, n.tid); }
      PlainlyAnswered(st, stopped, o, n);
    case SeccompStop(number, args) =>
      BeginSteady(cfg, stopped, n.tid, number, args, n.env);
      var o := Begin(cfg, stopped, n.tid, number, args, n.env);
      if o.Fine? { SteadyIsLocal(stopped, o.st, n.tid); }
      PlainlyAnswered(st, stopped, o, n);
    case ExecStop(_) =>
      HandleExecLocal(cfg, stopped, n.tid, n.env);
      PlainlyAnswered(st, stopped, HandleExec(cfg, stopped, n.tid, n.env), n);
    case ChildStop(kind, child, childTgid) =>
      HandleChildLocal(cfg, stopped, n.tid, kind, child, childTgid, n.env);
      PlainlyAnswered(st, stopped, HandleChild(cfg, stopped, n.tid, kind, child, childTgid, n.env), n);
    case SignalStop(_, _) => SignalAnswered(cfg, st, stopped, n);
    case _ =>
  }

  // ----- exec migration

  lemma RemoveTaskLocal(st: State, tid: int, reason: Reason)
    requires tid in st.tasks
    ensures var r := RemoveTask(st, tid, reason);
            r == st.(tasks := st.tasks - {tid}, history := st.history.(closings := r.history.closings))
  {
  }

  /** The former TID disappears, the surviving TID has the state of the exec'ing thread (or, when that
      thread was not tracked, its own), every other entry is unchanged, and the root follows. */
  lemma MigrationSpec(cfg: Config, st: State, tid: int, former: int)
    requires former != tid && tid > 0
    ensures MigrateExec(cfg, st, tid, former).Fine?
    ensures var r := MigrateExec(cfg, st, tid, former).st;
            && r.tasks.Keys == st.tasks.Keys - {former} + {tid}
            && (forall u | u in st.tasks && u != tid && u != former :: r.tasks[u] == st.tasks[u])
            && r.tasks[tid] ==
                 (if former in st.tasks then st.tasks[former].(tgid := tid, newborn := false)
                  else if tid in st.tasks then st.tasks[tid].(tgid := tid, newborn := false)
                  else NewTracee(st.history.births, tid, cfg.mode.Attach?, false))
            && r.root.tid == (if st.root.tid == former && (former in st.tasks || tid in st.tasks) then tid else st.root.tid)
            && r.root.status == st.root.status && r.root.execObserved == st.root.execObserved
            && r.history.requests == st.history.requests && r.history.suppressed == st.history.suppressed
            && r.history.births == st.history.births + (if former in st.tasks || tid in st.tasks then 0 else 1)
  {
    if former in st.tasks && tid in st.tasks { RemoveTaskLocal(st, tid, LostAtExec); }
  }

  // ----- the invariant of the loop head

  function LastFor(requests: seq<Request>, tid: int): Option<Request> {
    if requests == [] then None
    else if requests[|requests| - 1].tid == tid then Some(requests[|requests| - 1])
    else LastFor(requests[..|requests| - 1], tid)
  }

  /** The last stop of a task has been answered: it was resumed or listened to, or the kernel said
      that it is gone.  A task never seen stopped has nothing to be answered. */
  ghost predicate Attended(h: History, tid: int, t: Tracee) {
    if t.asked.Nothing? then !t.inStop
    else
      var last := LastFor(h.requests, tid);
      last.Some? && last.value.asked == t.asked && last.value.task == t.task && (t.inStop ==> last.value.gone)
  }

  /** A newborn has had no SIGSTOP swallowed and no signal delivered. */
  ghost predicate Untouched(h: History, t: Tracee) {
    t.newborn ==>
      && t.task !in h.suppressed
      && forall k :: 0 <= k < |h.requests| && h.requests[k].task == t.task ==> h.requests[k].signal == 0
  }

  ghost predicate GoodEntry(cfg: Config, h: History, tid: int, t: Tracee) {
    tid > 0 && t.attached == cfg.mode.Attach? && t.task < h.births && Untouched(h, t)
  }

  /** Everything at the loop head, except that the stop of `except` may still be unanswered. */
  ghost predicate SoundBut(cfg: Config, st: State, except: int) {
    && (cfg.mode.Launch? ==> st.root.tid in st.tasks || st.root.status.Some?)
    && (forall tid | tid in st.tasks :: GoodEntry(cfg, st.history, tid, st.tasks[tid]))
    && (forall tid | tid in st.tasks && tid != except :: Attended(st.history, tid, st.tasks[tid]))
    && (forall a, b | a in st.tasks && b in st.tasks && a != b :: st.tasks[a].task != st.tasks[b].task)
    && (forall i, j :: 0 <= i < j < |st.history.suppressed| ==> st.history.suppressed[i] != st.history.suppressed[j])
    && (forall task | task in st.history.suppressed :: task < st.history.births)
    && (forall k :: 0 <= k < |st.history.requests| ==> st.history.requests[k].task < st.history.births)
  }

  /** -1 is nobody's TID. */
  ghost predicate Sound(cfg: Config, st: State) { SoundBut(cfg, st, -1) }

  lemma AddTaskSound(cfg: Config, st: State, tid: int, tgid: int, newborn: bool)
    requires Sound(cfg, st)
    ensures var o := AddTask(st, tid, tgid, cfg.mode.Attach?, newborn); o.Fine? ==> Sound(cfg, o.st)
  {
    var o := AddTask(st, tid, tgid, cfg.mode.Attach?, newborn);
    if o.Fine? && tid !in st.tasks {
      forall u | u in o.st.tasks && u != tid
        ensures GoodEntry(cfg, o.st.history, u, o.st.tasks[u]) && Attended(o.st.history, u, o.st.tasks[u])
      {
        assert GoodEntry(cfg, st.history, u, st.tasks[u]) && Attended(st.history, u, st.tasks[u]);
      }
      forall a, b | a in o.st.tasks && b in o.st.tasks && a != b ensures o.st.tasks[a].task != o.st.tasks[b].task {
        assert a != tid ==> GoodEntry(cfg, st.history, a, st.tasks[a]);
        assert b != tid ==> GoodEntry(cfg, st.history, b, st.tasks[b]);
      }
    }
  }

  lemma MigrateSound(cfg: Config, st: State, tid: int, former: int)
    requires Sound(cfg, st)
    ensures var o := MigrateExec(cfg, st, tid, former); o.Fine? ==> SoundBut(cfg, o.st, tid)
  {
    if former != tid && tid > 0 {
      MigrationSpec(cfg, st, tid, former);
      var r := MigrateExec(cfg, st, tid, former).st;
      forall u | u in r.tasks
        ensures GoodEntry(cfg, r.history, u, r.tasks[u]) && (u != tid ==> Attended(r.history, u, r.tasks[u]))
      {
        if u != tid {
          assert GoodEntry(cfg, st.history, u, st.tasks[u]) && Attended(st.history, u, st.tasks[u]);
        } else if former in st.tasks {
          assert GoodEntry(cfg, st.history, former, st.tasks[former]);
        } else if tid in st.tasks {
          assert GoodEntry(cfg, st.history, tid, st.tasks[tid]);
        }
      }
      forall a, b | a in r.tasks && b in r.tasks && a != b ensures r.tasks[a].task != r.tasks[b].task {
        assert a in st.tasks ==> GoodEntry(cfg, st.history, a, st.tasks[a]);
        assert b in st.tasks ==> GoodEntry(cfg, st.history, b, st.tasks[b]);
      }
    }
  }

  lemma AdmitSound(cfg: Config, st: State, n: Notice)
    requires Sound(cfg, st)
    ensures var o := Admit(cfg, st, n); o.Fine? ==> SoundBut(cfg, o.st, if n.what.ExecStop? then n.tid else -1)
  {
    if n.what.ExecStop? {
      MigrateSound(cfg, st, n.tid, n.what.former);
      var known := MigrateExec(cfg, st, n.tid, n.what.former);
      if known.Fine? && n.what.former == n.tid {
        AddTaskSound(cfg, st, n.tid, if n.env.tgid <= 0 then n.tid else n.env.tgid, true);
      }
    } else {
      AddTaskSound(cfg, st, n.tid, if n.env.tgid <= 0 then n.tid else n.env.tgid, true);
    }
  }

  lemma HandledSound(cfg: Config, st: State, n: Notice, r: Handled)
    requires SoundBut(cfg, st, n.tid) && n.tid in st.tasks && Answered(st, r, n) && r.Handled?
    ensures SoundBut(cfg, r.st, n.tid)
  {
    var t, h := st.tasks[n.tid], r.st.history;
    assert GoodEntry(cfg, st.history, n.tid, t);
    forall u | u in r.st.tasks
      ensures GoodEntry(cfg, h, u, r.st.tasks[u]) && (u != n.tid ==> Attended(h, u, r.st.tasks[u]))
    {
      if u in st.tasks {
        assert GoodEntry(cfg, st.history, u, st.tasks[u]);
        assert u != n.tid ==> Attended(st.history, u, st.tasks[u]);
      } else {
        assert forall task | task in h.suppressed :: task < st.history.births;
      }
    }
    forall a, b | a in r.st.tasks && b in r.st.tasks && a != b ensures r.st.tasks[a].task != r.st.tasks[b].task {
      assert a in st.tasks ==> GoodEntry(cfg, st.history, a, st.tasks[a]);
      assert b in st.tasks ==> GoodEntry(cfg, st.history, b, st.tasks[b]);
    }
  }

  lemma LastForMore(requests: seq<Request>, r: Request, tid: int)
    ensures LastFor(requests + [r], tid) == if r.tid == tid then Some(r) else LastFor(requests, tid)
  {
    assert (requests + [r])[..|requests|] == requests;
  }

  lemma ResumeSound(cfg: Config, st: State, tid: int, signal: int, listen: bool, env: Env)
    requires SoundBut(cfg, st, tid) && tid in st.tasks && (st.tasks[tid].newborn ==> signal == 0)
    ensures var r := Resume(cfg, st, tid, signal, listen, env); !r.Abort? ==> Sound(cfg, r.st)
  {
    var r := Resume(cfg, st, tid, signal, listen, env);
    if !r.Abort? {
      var t := st.tasks[tid];
      var request := Request(tid, t.task, RequestFor(cfg, t, listen), signal, env.reply.Gone?);
      assert r.st.history == st.history.(requests := st.history.requests + [request]);
      assert GoodEntry(cfg, st.history, tid, t);
      forall u | u in r.st.tasks
        ensures GoodEntry(cfg, r.st.history, u, r.st.tasks[u]) && Attended(r.st.history, u, r.st.tasks[u])
      {
        LastForMore(st.history.requests, request, u);
        assert GoodEntry(cfg, st.history, u, st.tasks[u]);
        if u != tid { assert Attended(st.history, u, st.tasks[u]); }
      }
    }
  }

  lemma BurySound(cfg: Config, st: State, n: Notice)
    requires Sound(cfg, st) && n.tid in st.tasks && (n.what.Exited? || n.what.Killed?)
    ensures var o := Bury(cfg, st, n); o.Fine? ==> Sound(cfg, o.st)
  {
    var o := Bury(cfg, st, n);
    if o.Fine? {
      BuryFrame(cfg, st, n);
      forall u | u in o.st.tasks
        ensures GoodEntry(cfg, o.st.history, u, o.st.tasks[u]) && Attended(o.st.history, u, o.st.tasks[u])
      {
        assert GoodEntry(cfg, st.history, u, st.tasks[u]) && Attended(st.history, u, st.tasks[u]);
      }
    }
  }

  /** The task is gone; if it was the root, its status is recorded. */
  lemma BuryFrame(cfg: Config, st: State, n: Notice)
    requires n.tid in st.tasks && (n.what.Exited? || n.what.Killed?)
    ensures var o := Bury(cfg, st, n);
            o.Fine? ==>
              && o.st.tasks == st.tasks - {n.tid}
              && o.st.history == st.history.(closings := o.st.history.closings)
              && (n.tid != st.root.tid ==> o.st.root == st.root)
              && (n.tid == st.root.tid && n.what.Exited? ==> o.st.root == st.root.(status := Some(n.what.code)))
              && (n.tid == st.root.tid && n.what.Killed? ==> o.st.root == st.root.(status := Some(128 + n.what.signal)))
  {
    RemoveTaskLocal(RecordStatus(WriteExit(cfg, st, n), n), n.tid, LostAtExit);
  }

  lemma StepSound(cfg: Config, st: State, n: Notice)
    requires Sound(cfg, st)
    ensures var r := Step(cfg, st, n); !r.Abort? ==> Sound(cfg, r.st)
  {
    if !n.what.WaitInterrupted? {
      AdmitSound(cfg, st, n);
      var o := Admit(cfg, st, n);
      if o.Fine? {
        if n.what.ExecStop? && n.tid !in o.st.tasks {
          assert Sound(cfg, o.st);
        }
        if n.tid in o.st.tasks {
          if n.what.Continued? {
            ContinuedSound(cfg, o.st, n.tid);
          } else if n.what.Exited? || n.what.Killed? {
            BurySound(cfg, o.st, n);
          } else {
            HandleStopAnswered(cfg, o.st, n);
            var h := HandleStop(cfg, o.st, n);
            if h.Handled? {
              HandledSound(cfg, o.st, n, h);
              ResumeSound(cfg, h.st, n.tid, h.signal, h.listen, n.env);
            }
          }
        }
      }
    }
  }

  lemma ContinuedSound(cfg: Config, st: State, tid: int)
    requires Sound(cfg, st) && tid in st.tasks
    ensures Sound(cfg, SetTask(st, tid, st.tasks[tid].(inStop := false)))
  {
    var r := SetTask(st, tid, st.tasks[tid].(inStop := false));
    forall u | u in r.tasks ensures GoodEntry(cfg, r.history, u, r.tasks[u]) && Attended(r.history, u, r.tasks[u]) {
      assert GoodEntry(cfg, st.history, u, st.tasks[u]) && Attended(st.history, u, st.tasks[u]);
    }
  }

  lemma {:induction false} RunSound(cfg: Config, st: State, run: seq<Notice>)
    requires Sound(cfg, st)
    ensures var r := After(cfg, st, run); !r.Aborted? ==> Sound(cfg, r.st)
  {
    if run != [] {
      RunSound(cfg, st, run[..|run| - 1]);
      var r := After(cfg, st, run[..|run| - 1]);
      if r.Running? { StepSound(cfg, r.st, run[|run| - 1]); }
    }
  }

  lemma LaunchSound(cfg: Config, root: int)
    requires root > 0 && cfg.mode.Launch?
    ensures Sound(cfg, LaunchState(cfg, root))
  {
  }

  lemma {:induction false} AttachSound(cfg: Config, pid: int, tids: seq<int>)
    requires cfg.mode.Attach?
    ensures AttachState(pid, tids).Fine? ==> Sound(cfg, AttachState(pid, tids).st)
  {
    if tids != [] {
      AttachSound(cfg, pid, tids[..|tids| - 1]);
      var o := AttachState(pid, tids[..|tids| - 1]);
      if o.Fine? { AddTaskSound(cfg, o.st, tids[|tids| - 1], pid, true); }
    }
  }

  // ----- the theorems

  /** A launched command whose loop drains always has its own status reported: the fallback 0 is
      never used. */
  lemma DrainedStatusIsRecorded(cfg: Config, root: int, run: seq<Notice>)
    requires root > 0 && cfg.mode.Launch?
    ensures var r := After(cfg, LaunchState(cfg, root), run);
            r.Drained? ==> r.st.root.status.Some? && r.status == r.st.root.status.value
  {
    LaunchSound(cfg, root);
    RunSound(cfg, LaunchState(cfg, root), run);
  }

  /** What each stop of a tracked task is answered with, in order. */
  ghost function Answers(cfg: Config, st: State, run: seq<Notice>): seq<(int, int)> {
    if run == [] then []
    else
      var front, n := run[..|run| - 1], run[|run| - 1];
      var before := Answers(cfg, st, front);
      var r := After(cfg, st, front);
      if r.Running? && IsStop(n.what) && Admit(cfg, r.st, n).Fine? && n.tid in Admit(cfg, r.st, n).st.tasks then
        before + [(n.tid, Delivered(Admit(cfg, r.st, n).st.tasks[n.tid].newborn, n.what))]
      else before
  }

  ghost function Injected(requests: seq<Request>): seq<(int, int)> {
    seq(|requests|, i requires 0 <= i < |requests| => (requests[i].tid, requests[i].signal))
  }

  lemma AdmitRequests(cfg: Config, st: State, n: Notice)
    ensures var o := Admit(cfg, st, n); o.Fine? ==> o.st.history.requests == st.history.requests
  {
    if n.what.ExecStop? && n.what.former != n.tid && n.tid > 0 { MigrationSpec(cfg, st, n.tid, n.what.former); }
  }

  lemma StepRequests(cfg: Config, st: State, n: Notice)
    ensures var r, o := Step(cfg, st, n), Admit(cfg, st, n);
            !r.Abort? ==>
              Injected(r.st.history.requests) ==
                if IsStop(n.what) && o.Fine? && n.tid in o.st.tasks then
                  Injected(st.history.requests) + [(n.tid, Delivered(o.st.tasks[n.tid].newborn, n.what))]
                else Injected(st.history.requests)
  {
    AdmitRequests(cfg, st, n);
    var o := Admit(cfg, st, n);
    if o.Fine? && n.tid in o.st.tasks && !n.what.WaitInterrupted? {
      if IsStop(n.what) {
        HandleStopAnswered(cfg, o.st, n);
      } else if !n.what.Continued? {
        BuryFrame(cfg, o.st, n);
      }
    }
  }

  /** Signal faithfulness: over every run, the requests answer the stops of tracked tasks one for one
      and in order, with the genuine signals and otherwise with none. */
  lemma {:induction false} SignalsFaithful(cfg: Config, st: State, run: seq<Notice>)
    ensures var r := After(cfg, st, run);
            !r.Aborted? ==> Injected(r.st.history.requests) == Injected(st.history.requests) + Answers(cfg, st, run)
  {
    if run != [] {
      var front, n := run[..|run| - 1], run[|run| - 1];
      SignalsFaithful(cfg, st, front);
      var r := After(cfg, st, front);
      if r.Running? { StepRequests(cfg, r.st, n); }
    }
  }
}
