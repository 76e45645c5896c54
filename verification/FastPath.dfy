/** The fast path refines the simple one: the stops that the seccomp program lets through silently
    make no visible difference. */
module FastPath {
  import opened Bits
  import opened Events
  import opened TraceModel
  import opened Visibility
  import Statistics
  import Lifecycle
  import Bpf

  function Simple(cfg: Config): Config { cfg.(seccomp := false) }
  function Fast(cfg: Config): Config { cfg.(seccomp := true) }

  /** What the command line demands of --seccomp-bpf. */
  ghost predicate SeccompConfig(cfg: Config) {
    cfg.mode.Launch? && cfg.filter.active && Bpf.InRange(cfg.filter.numbers)
  }

  /** The kernel runs the compiled program on a native call. */
  ghost predicate Silent(cfg: Config, number: nat) {
    Bpf.Run(Bpf.Program(cfg.filter.numbers), Bpf.Data(number, Bpf.AUDIT_ARCH_X86_64)) == Some(Bpf.RET_ALLOW)
  }

  lemma SilentMeans(cfg: Config, number: nat)
    requires SeccompConfig(cfg) && number < X32_BIT
    ensures Silent(cfg, number) <==> !Bpf.Traced(cfg.filter.numbers, number)
    ensures Selected(cfg, number) ==> !Silent(cfg, number)
  {
    Bpf.ProgramMeansFilter(cfg.filter.numbers, Bpf.Data(number, Bpf.AUDIT_ARCH_X86_64));
  }

  // ----- the relation between the two tracers

  ghost predicate SameCall(a: Option<Call>, b: Option<Call>) {
    if a.None? then b.None?
    else
      && b.Some? && a.value.number == b.value.number
      && a.value.args == b.value.args && a.value.enteredAt == b.value.enteredAt
  }

  ghost predicate Traces(cfg: Config, number: int) { Bpf.Traced(cfg.filter.numbers, number) }

  /** A call that the program lets through silently. */
  ghost predicate Quiet(cfg: Config, call: Option<Call>) {
    call.Some? && !Traces(cfg, call.value.number)
  }

  /** `f` is `s` without the calls that the program lets through silently.  A silent call never hides
      one set aside that is not. */
  ghost predicate AlikeTask(cfg: Config, s: Tracee, f: Tracee) {
    && s.tgid == f.tgid && s.attached == f.attached && s.newborn == f.newborn
    && (s.restartReady ==> s.interrupted.Some?) && (f.restartReady ==> f.interrupted.Some?)
    && (if Quiet(cfg, s.interrupted) then f.interrupted.None?
        else SameCall(s.interrupted, f.interrupted) && s.restartReady == f.restartReady)
    && (if Quiet(cfg, s.pending) then f.pending.None? && (s.interrupted.Some? ==> Quiet(cfg, s.interrupted))
        else SameCall(s.pending, f.pending))
  }

  ghost predicate Alike(cfg: Config, s: State, f: State) {
    && SameOutput(s, f) && s.stats == f.stats && s.events == f.events && s.root == f.root
    && s.tasks.Keys == f.tasks.Keys
    && forall tid | tid in s.tasks :: AlikeTask(cfg, s.tasks[tid], f.tasks[tid])
  }

  lemma AlikeShown(cfg: Config, s: State, f: State)
    requires SeccompConfig(cfg) && Alike(cfg, s, f)
    ensures forall tid :: Shown(Simple(cfg), s, tid) == Shown(Fast(cfg), f, tid)
  {
    forall tid ensures Shown(Simple(cfg), s, tid) == Shown(Fast(cfg), f, tid) {
      if tid in s.tasks { assert AlikeTask(cfg, s.tasks[tid], f.tasks[tid]); }
    }
  }

  /** Both sides flush and print the same event. */
  lemma NoticeAlike(cfg: Config, s: State, f: State, except: int, order: seq<int>, event: Event)
    requires SeccompConfig(cfg) && Alike(cfg, s, f)
    ensures Alike(cfg, Flush(Simple(cfg), s, except, order), Flush(Fast(cfg), f, except, order))
    ensures Alike(cfg, Emit(Simple(cfg), Flush(Simple(cfg), s, except, order), event),
                  Emit(Fast(cfg), Flush(Fast(cfg), f, except, order), event))
  {
    AlikeShown(cfg, s, f);
    FlushAlike(Simple(cfg), Fast(cfg), s, f, except, order);
    EmitAlike(Simple(cfg), Fast(cfg), Flush(Simple(cfg), s, except, order), Flush(Fast(cfg), f, except, order), event);
  }

  /** Replacing alike tasks by alike tasks. */
  lemma SetAlike(cfg: Config, s: State, f: State, tid: int, t: Tracee, u: Tracee)
    requires Alike(cfg, s, f) && AlikeTask(cfg, t, u)
    ensures Alike(cfg, SetTask(s, tid, t), SetTask(f, tid, u))
  {
  }

  /** The relation does not look at the history. */
  lemma HistoryAlike(cfg: Config, s: State, f: State, h: History, i: History)
    requires Alike(cfg, s, f)
    ensures Alike(cfg, s.(history := h), f.(history := i))
  {
  }

  // ----- operations both sides perform

  lemma WriteAlike(cfg: Config, s: State, f: State, tid: int, done: SyscallEvent, order: seq<int>)
    requires SeccompConfig(cfg) && Alike(cfg, s, f) && tid in s.tasks
    ensures var p, q := WriteSyscall(Simple(cfg), s, tid, done, order), WriteSyscall(Fast(cfg), f, tid, done, order);
            p.Fine? == q.Fine? && (p.Fine? ==> Alike(cfg, p.st, q.st))
  {
    assert AlikeTask(cfg, s.tasks[tid], f.tasks[tid]);
    var a, b := s.(events := (s.events + 1) % TWO_64), f.(events := (f.events + 1) % TWO_64);
    assert Alike(cfg, a, b);
    NoticeAlike(cfg, a, b, tid, order, Event(tid, s.tasks[tid].tgid, done.exitedAt, SyscallBody(done)));
  }

  lemma CompleteAlike(cfg: Config, s: State, f: State, tid: int, result: int, errorNumber: int, at: Timespec,
                      order: seq<int>)
    requires SeccompConfig(cfg) && Alike(cfg, s, f) && tid in s.tasks && f.tasks[tid].pending.Some?
    ensures s.tasks[tid].pending.Some?
    ensures var p, q := CompletePending(Simple(cfg), s, tid, result, errorNumber, at, order),
                        CompletePending(Fast(cfg), f, tid, result, errorNumber, at, order);
            p.Fine? == q.Fine? && (p.Fine? ==> Alike(cfg, p.st, q.st))
  {
    assert AlikeTask(cfg, s.tasks[tid], f.tasks[tid]);
    var done := Finished(s.tasks[tid].pending.value, result, errorNumber, at);
    assert done == Finished(f.tasks[tid].pending.value, result, errorNumber, at);
    WriteAlike(cfg, s, f, tid, done, order);
    var p, q := WriteSyscall(Simple(cfg), s, tid, done, order), WriteSyscall(Fast(cfg), f, tid, done, order);
    if p.Fine? {
      var x := CompletePending(Simple(cfg), s, tid, result, errorNumber, at, order).st;
      var y := CompletePending(Fast(cfg), f, tid, result, errorNumber, at, order).st;
      HistoryAlike(cfg, p.st, q.st, x.history, y.history);
      SetAlike(cfg, p.st.(history := x.history), q.st.(history := y.history), tid,
               s.tasks[tid].(pending := None), f.tasks[tid].(pending := None));
    }
  }

  lemma CompleteInterruptedAlike(cfg: Config, s: State, f: State, tid: int, result: int, errorNumber: int,
                                 at: Timespec, order: seq<int>)
    requires SeccompConfig(cfg) && Alike(cfg, s, f) && tid in s.tasks && f.tasks[tid].interrupted.Some?
    ensures s.tasks[tid].interrupted.Some?
    ensures var p, q := CompleteInterrupted(Simple(cfg), s, tid, result, errorNumber, at, order),
                        CompleteInterrupted(Fast(cfg), f, tid, result, errorNumber, at, order);
            p.Fine? == q.Fine? && (p.Fine? ==> Alike(cfg, p.st, q.st))
  {
    assert AlikeTask(cfg, s.tasks[tid], f.tasks[tid]);
    var done := Finished(s.tasks[tid].interrupted.value, result, errorNumber, at);
    assert done == Finished(f.tasks[tid].interrupted.value, result, errorNumber, at);
    WriteAlike(cfg, s, f, tid, done, order);
    var p, q := WriteSyscall(Simple(cfg), s, tid, done, order), WriteSyscall(Fast(cfg), f, tid, done, order);
    if p.Fine? {
      var x := CompleteInterrupted(Simple(cfg), s, tid, result, errorNumber, at, order).st;
      var y := CompleteInterrupted(Fast(cfg), f, tid, result, errorNumber, at, order).st;
      HistoryAlike(cfg, p.st, q.st, x.history, y.history);
      SetAlike(cfg, p.st.(history := x.history), q.st.(history := y.history), tid,
               s.tasks[tid].(interrupted := None, restartReady := false), f.tasks[tid].(interrupted := None, restartReady := false));
    }
  }

  lemma DropAlike(cfg: Config, s: State, f: State, tid: int, reason: Reason)
    requires Alike(cfg, s, f) && tid in s.tasks
    ensures Alike(cfg, DropInterrupted(s, tid, reason), DropInterrupted(f, tid, reason))
  {
    var t, u := s.tasks[tid], f.tasks[tid];
    assert AlikeTask(cfg, t, u);
    var x, y := DropInterrupted(s, tid, reason), DropInterrupted(f, tid, reason);
    HistoryAlike(cfg, s, f, x.history, y.history);
    SetAlike(cfg, s.(history := x.history), f.(history := y.history), tid,
             t.(interrupted := None, restartReady := false), u.(interrupted := None, restartReady := false));
  }

  /** A traced call is set aside on both sides. */
  lemma SetAsideAlike(cfg: Config, s: State, f: State, tid: int)
    requires Alike(cfg, s, f) && tid in s.tasks && f.tasks[tid].pending.Some?
    ensures Alike(cfg, SetAside(s, tid), SetAside(f, tid))
  {
    assert AlikeTask(cfg, s.tasks[tid], f.tasks[tid]);
    DropAlike(cfg, s, f, tid, Replaced);
    var a, b := DropInterrupted(s, tid, Replaced), DropInterrupted(f, tid, Replaced);
    var t, u := a.tasks[tid], b.tasks[tid];
    assert t.pending == s.tasks[tid].pending && u.pending == f.tasks[tid].pending;
    SetAlike(cfg, a, b, tid, t.(interrupted := t.pending, pending := None, restartReady := false),
             u.(interrupted := u.pending, pending := None, restartReady := false));
  }

  /** Whatever happens to a silent call set aside is of no account to the fast tracer. */
  lemma AsideSilently(cfg: Config, s: State, f: State, tid: int, t: Tracee, h: History)
    requires Alike(cfg, s, f) && tid in s.tasks && Quiet(cfg, s.tasks[tid].interrupted)
    requires t == s.tasks[tid].(interrupted := t.interrupted, restartReady := t.restartReady)
    requires (t.interrupted.Some? ==> Quiet(cfg, t.interrupted)) && (t.restartReady ==> t.interrupted.Some?)
    ensures Alike(cfg, SetTask(s, tid, t).(history := h), f)
  {
    assert AlikeTask(cfg, s.tasks[tid], f.tasks[tid]);
    assert f.tasks[tid := f.tasks[tid]] == f.tasks;
    SetAlike(cfg, s, f, tid, t, f.tasks[tid]);
    HistoryAlike(cfg, SetTask(s, tid, t), f, h, f.history);
  }

  lemma DropSilently(cfg: Config, s: State, f: State, tid: int, reason: Reason)
    requires Alike(cfg, s, f) && tid in s.tasks && Quiet(cfg, s.tasks[tid].interrupted)
    ensures Alike(cfg, DropInterrupted(s, tid, reason), f)
  {
    var r := DropInterrupted(s, tid, reason);
    AsideSilently(cfg, s, f, tid, r.tasks[tid], r.history);
  }

  /** After the completion of a traced call, on both sides. */
  lemma AfterCompletionAlike(cfg: Config, s: State, f: State, tid: int, number: int)
    requires Alike(cfg, s, f) && tid in s.tasks
    ensures Alike(cfg, AfterCompletion(s, tid, number), AfterCompletion(f, tid, number))
  {
    var t, u := s.tasks[tid], f.tasks[tid];
    assert AlikeTask(cfg, t, u);
    if Quiet(cfg, t.interrupted) {
      AfterCompletionSilently(cfg, s, f, tid, number);
    } else if t.interrupted.Some? {
      DropAlike(cfg, s, f, tid, Superseded);
      SetAlike(cfg, s, f, tid, t.(restartReady := true), u.(restartReady := true));
    }
  }

  /** After the completion of a call, with a silent one set aside. */
  lemma AfterCompletionSilently(cfg: Config, s: State, f: State, tid: int, number: int)
    requires Alike(cfg, s, f) && tid in s.tasks
    requires (s.tasks[tid].interrupted.Some? ==> Quiet(cfg, s.tasks[tid].interrupted))
    ensures Alike(cfg, AfterCompletion(s, tid, number), f)
  {
    if s.tasks[tid].interrupted.Some? {
      DropSilently(cfg, s, f, tid, Superseded);
      AsideSilently(cfg, s, f, tid, s.tasks[tid].(restartReady := true), s.history);
    }
  }

  /** A traced call set aside goes on, on both sides. */
  lemma RestartAlike(cfg: Config, s: State, f: State, tid: int, order: seq<int>)
    requires SeccompConfig(cfg) && Alike(cfg, s, f) && tid in s.tasks
    requires s.tasks[tid].pending.None? && f.tasks[tid].interrupted.Some?
    ensures Alike(cfg, Restart(Simple(cfg), s, tid, order), Restart(Fast(cfg), f, tid, order))
  {
    var t, u := s.tasks[tid], f.tasks[tid];
    assert AlikeTask(cfg, t, u);
    AlikeShown(cfg, s, f);
    FlushAlike(Simple(cfg), Fast(cfg), s, f, tid, order);
    SetAlike(cfg, Flush(Simple(cfg), s, tid, order), Flush(Fast(cfg), f, tid, order), tid,
             t.(pending := t.interrupted, interrupted := None, restartReady := false),
             u.(pending := u.interrupted, interrupted := None, restartReady := false));
  }

  /** A silent call set aside is closed without a trace. */
  lemma ExposeSilently(cfg: Config, s: State, f: State, tid: int, env: Env)
    requires SeccompConfig(cfg) && Alike(cfg, s, f) && tid in s.tasks && Quiet(cfg, s.tasks[tid].interrupted)
    ensures var p := ExposeEintr(Simple(cfg), s, tid, env);
            && p.Fine? && Alike(cfg, p.st, f) && tid in p.st.tasks && p.st.tasks[tid].pending == s.tasks[tid].pending
            && (p.st.tasks[tid].interrupted.Some? ==> Quiet(cfg, p.st.tasks[tid].interrupted))
  {
    var r := ExposeEintr(Simple(cfg), s, tid, env).st;
    assert r == SetTask(s, tid, r.tasks[tid]).(history := r.history);
    AsideSilently(cfg, s, f, tid, r.tasks[tid], r.history);
  }

  lemma ExposeAlike(cfg: Config, s: State, f: State, tid: int, env: Env)
    requires SeccompConfig(cfg) && Alike(cfg, s, f) && tid in s.tasks
    ensures var p, q := ExposeEintr(Simple(cfg), s, tid, env), ExposeEintr(Fast(cfg), f, tid, env);
            p.Fine? == q.Fine? && (p.Fine? ==> Alike(cfg, p.st, q.st) && tid in p.st.tasks && p.st.tasks[tid].pending == s.tasks[tid].pending)
  {
    assert AlikeTask(cfg, s.tasks[tid], f.tasks[tid]);
    if Quiet(cfg, s.tasks[tid].interrupted) {
      ExposeSilently(cfg, s, f, tid, env);
    } else if f.tasks[tid].interrupted.Some? {
      CompleteInterruptedAlike(cfg, s, f, tid, -1, EINTR, env.now, env.order);
    }
  }

  /** The simple tracer closes a silent call without a trace. */
  lemma CompleteSilently(cfg: Config, s: State, f: State, tid: int, result: int, errorNumber: int, at: Timespec,
                         order: seq<int>)
    requires SeccompConfig(cfg) && Alike(cfg, s, f) && tid in s.tasks
    requires s.tasks[tid].pending.Some? && f.tasks[tid].pending.None?
    ensures var p := CompletePending(Simple(cfg), s, tid, result, errorNumber, at, order);
            p.Fine? && Alike(cfg, p.st, f)
  {
    assert AlikeTask(cfg, s.tasks[tid], f.tasks[tid]);
    var p := CompletePending(Simple(cfg), s, tid, result, errorNumber, at, order);
    assert p.st == SetTask(s, tid, s.tasks[tid].(pending := None)).(history := p.st.history);
  }

  /** A traced call is entered on both sides. */
  lemma EnteredAlike(cfg: Config, s: State, f: State, tid: int, x: Call, y: Call, h: History, i: History)
    requires Alike(cfg, s, f) && tid in s.tasks && s.tasks[tid].pending.None?
    requires Traces(cfg, x.number) && SameCall(Some(x), Some(y))
    ensures Alike(cfg, SetTask(s, tid, s.tasks[tid].(pending := Some(x))).(history := h),
                  SetTask(f, tid, f.tasks[tid].(pending := Some(y))).(history := i))
  {
    assert AlikeTask(cfg, s.tasks[tid], f.tasks[tid]);
    SetAlike(cfg, s, f, tid, s.tasks[tid].(pending := Some(x)), f.tasks[tid].(pending := Some(y)));
    HistoryAlike(cfg, SetTask(s, tid, s.tasks[tid].(pending := Some(x))),
                 SetTask(f, tid, f.tasks[tid].(pending := Some(y))), h, i);
  }

  lemma FlushedAlike(cfg: Config, s: State, f: State, except: int, order: seq<int>)
    requires SeccompConfig(cfg) && Alike(cfg, s, f)
    ensures Alike(cfg, Flush(Simple(cfg), s, except, order), Flush(Fast(cfg), f, except, order))
  {
    AlikeShown(cfg, s, f);
    FlushAlike(Simple(cfg), Fast(cfg), s, f, except, order);
  }

  lemma FreshAlike(cfg: Config, s: State, f: State, tid: int, number: int, args: seq<int>, env: Env)
    requires SeccompConfig(cfg) && Alike(cfg, s, f) && tid in s.tasks && s.tasks[tid].pending.None?
    requires Traces(cfg, number)
    ensures Alike(cfg, FreshEntry(Simple(cfg), s, tid, number, args, env),
                  FreshEntry(Fast(cfg), f, tid, number, args, env))
  {
    FlushedAlike(cfg, s, f, tid, env.order);
    var a := if Selected(cfg, number) then Flush(Simple(cfg), s, tid, env.order) else s;
    var b := if Selected(cfg, number) then Flush(Fast(cfg), f, tid, env.order) else f;
    var x := Call(|s.history.entries|, number, args, StampOf(cfg, number, env.now));
    var y := Call(|f.history.entries|, number, args, StampOf(cfg, number, env.now));
    EnteredAlike(cfg, a, b, tid, x, y, FreshEntry(Simple(cfg), s, tid, number, args, env).history,
                 FreshEntry(Fast(cfg), f, tid, number, args, env).history);
  }

  /** The simple tracer enters a silent call without a trace. */
  lemma FreshSilently(cfg: Config, s: State, f: State, tid: int, number: int, args: seq<int>, env: Env)
    requires SeccompConfig(cfg) && Alike(cfg, s, f) && tid in s.tasks && s.tasks[tid].pending.None?
    requires !Traces(cfg, number) && (s.tasks[tid].interrupted.Some? ==> Quiet(cfg, s.tasks[tid].interrupted))
    ensures Alike(cfg, FreshEntry(Simple(cfg), s, tid, number, args, env), f)
  {
    var t := s.tasks[tid];
    assert AlikeTask(cfg, t, f.tasks[tid]);
    assert !Selected(Simple(cfg), number);
    var r := FreshEntry(Simple(cfg), s, tid, number, args, env);
    assert r == SetTask(s, tid, r.tasks[tid]).(history := r.history);
    assert AlikeTask(cfg, r.tasks[tid], f.tasks[tid]);
    assert f.tasks[tid := f.tasks[tid]] == f.tasks;
    SetAlike(cfg, s, f, tid, r.tasks[tid], f.tasks[tid]);
    HistoryAlike(cfg, SetTask(s, tid, r.tasks[tid]), f, r.history, f.history);
  }

  // ----- handling a stop that both sides see

  /** The exec completes the pending call, which the fast tracer may not know of. */
  lemma SettleAlike(cfg: Config, s: State, f: State, tid: int, env: Env)
    requires SeccompConfig(cfg) && Alike(cfg, s, f) && tid in s.tasks
    ensures var p := if s.tasks[tid].pending.Some? then CompletePending(Simple(cfg), s, tid, 0, 0, env.now, env.order)
                     else Fine(s);
            var q := if f.tasks[tid].pending.Some? then CompletePending(Fast(cfg), f, tid, 0, 0, env.now, env.order)
                     else Fine(f);
            p.Fine? ==> q.Fine? && Alike(cfg, p.st, q.st) && tid in p.st.tasks
  {
    assert AlikeTask(cfg, s.tasks[tid], f.tasks[tid]);
    if f.tasks[tid].pending.Some? {
      CompleteAlike(cfg, s, f, tid, 0, 0, env.now, env.order);
    } else if s.tasks[tid].pending.Some? {
      CompleteSilently(cfg, s, f, tid, 0, 0, env.now, env.order);
    }
  }

  /** A field that the relation compares is changed alike. */
  lemma WeanAlike(cfg: Config, s: State, f: State, tid: int)
    requires Alike(cfg, s, f) && tid in s.tasks
    ensures Alike(cfg, SetTask(s, tid, s.tasks[tid].(newborn := false)),
                  SetTask(f, tid, f.tasks[tid].(newborn := false)))
  {
    assert AlikeTask(cfg, s.tasks[tid], f.tasks[tid]);
    SetAlike(cfg, s, f, tid, s.tasks[tid].(newborn := false), f.tasks[tid].(newborn := false));
  }

  lemma ExecAlike(cfg: Config, s: State, f: State, tid: int, env: Env)
    requires SeccompConfig(cfg) && Alike(cfg, s, f) && tid in s.tasks && HandleExec(Simple(cfg), s, tid, env).Fine?
    ensures var p, q := HandleExec(Simple(cfg), s, tid, env), HandleExec(Fast(cfg), f, tid, env);
            q.Fine? && Alike(cfg, p.st, q.st)
  {
    var a := if tid == s.root.tid then s.(root := s.root.(execObserved := true)) else s;
    var b := if tid == f.root.tid then f.(root := f.root.(execObserved := true)) else f;
    assert Alike(cfg, a, b);
    SettleAlike(cfg, a, b, tid, env);
    var p := if a.tasks[tid].pending.Some? then CompletePending(Simple(cfg), a, tid, 0, 0, env.now, env.order)
             else Fine(a);
    var q := if b.tasks[tid].pending.Some? then CompletePending(Fast(cfg), b, tid, 0, 0, env.now, env.order)
             else Fine(b);
    WeanAlike(cfg, p.st, q.st, tid);
  }

  lemma AddAlike(cfg: Config, s: State, f: State, tid: int, tgid: int, attached: bool, newborn: bool)
    requires Alike(cfg, s, f)
    ensures var p, q := AddTask(s, tid, tgid, attached, newborn), AddTask(f, tid, tgid, attached, newborn);
            p.Fine? == q.Fine? && (p.Fine? ==> Alike(cfg, p.st, q.st))
  {
  }

  lemma ChildAlike(cfg: Config, s: State, f: State, tid: int, kind: ChildKind, child: nat, childTgid: int, env: Env)
    requires SeccompConfig(cfg) && Alike(cfg, s, f) && tid in s.tasks
    ensures var p, q := HandleChild(Simple(cfg), s, tid, kind, child, childTgid, env),
                        HandleChild(Fast(cfg), f, tid, kind, child, childTgid, env);
            p.Fine? == q.Fine? && (p.Fine? ==> Alike(cfg, p.st, q.st))
  {
    assert AlikeTask(cfg, s.tasks[tid], f.tasks[tid]);
    var t := s.tasks[tid];
    var tgid := if childTgid > 0 then childTgid else if kind.Clone? then t.tgid else child;
    AddAlike(cfg, s, f, child, tgid, t.attached, true);
    var p, q := AddTask(s, child, tgid, t.attached, true), AddTask(f, child, tgid, t.attached, true);
    if p.Fine? { NoticeAlike(cfg, p.st, q.st, -1, env.order, Event(tid, t.tgid, env.now, StartBody(child, kind))); }
  }

  ghost predicate AlikeHandled(cfg: Config, p: Handled, q: Handled) {
    p.Handled? ==> q.Handled? && Alike(cfg, p.st, q.st) && q.signal == p.signal && q.listen == p.listen
  }

  /** The signal is noted. */
  lemma MarkAlike(cfg: Config, s: State, f: State, tid: int, signal: int)
    requires Alike(cfg, s, f) && tid in s.tasks
    ensures Alike(cfg, SetTask(s, tid, s.tasks[tid].(newborn := false, pendingSignal := signal)),
                  SetTask(f, tid, f.tasks[tid].(newborn := false, pendingSignal := signal)))
  {
    assert AlikeTask(cfg, s.tasks[tid], f.tasks[tid]);
    SetAlike(cfg, s, f, tid, s.tasks[tid].(newborn := false, pendingSignal := signal),
             f.tasks[tid].(newborn := false, pendingSignal := signal));
  }

  lemma SwallowAlike(cfg: Config, s: State, f: State, tid: int, info: SigInfo, env: Env)
    requires Alike(cfg, s, f) && tid in s.tasks && s.tasks[tid].newborn
    ensures AlikeHandled(cfg, HandleSignal(Simple(cfg), s, tid, SIGSTOP, info, env),
                         HandleSignal(Fast(cfg), f, tid, SIGSTOP, info, env))
  {
    assert AlikeTask(cfg, s.tasks[tid], f.tasks[tid]);
    WeanAlike(cfg, s, f, tid);
    var p, q := HandleSignal(Simple(cfg), s, tid, SIGSTOP, info, env),
                HandleSignal(Fast(cfg), f, tid, SIGSTOP, info, env);
    HistoryAlike(cfg, SetTask(s, tid, s.tasks[tid].(newborn := false)), SetTask(f, tid, f.tasks[tid].(newborn := false)),
                 p.st.history, q.st.history);
  }

  lemma SignalAlike(cfg: Config, s: State, f: State, tid: int, signal: int, info: SigInfo, env: Env)
    requires SeccompConfig(cfg) && Alike(cfg, s, f) && tid in s.tasks
    ensures AlikeHandled(cfg, HandleSignal(Simple(cfg), s, tid, signal, info, env),
                         HandleSignal(Fast(cfg), f, tid, signal, info, env))
  {
    var t, u := s.tasks[tid], f.tasks[tid];
    assert t.newborn == u.newborn && t.attached == u.attached && t.tgid == u.tgid by { assert AlikeTask(cfg, t, u); }
    if t.newborn && signal == SIGSTOP {
      SwallowAlike(cfg, s, f, tid, info, env);
    } else if info.Info? {
      MarkAlike(cfg, s, f, tid, signal);
      NoticeAlike(cfg, SetTask(s, tid, t.(newborn := false, pendingSignal := signal)),
                  SetTask(f, tid, u.(newborn := false, pendingSignal := signal)), -1, env.order,
                  Event(tid, t.tgid, env.now, SignalBody(info.signo, info.code, FaultAddress(info))));
    }
  }

  /** The entry of a call the program traces arrives as a seccomp stop. */
  lemma EntryAlike(cfg: Config, s: State, f: State, tid: int, number: nat, args: seq<int>, env: Env)
    requires SeccompConfig(cfg) && Alike(cfg, s, f) && tid in s.tasks && s.tasks[tid].pending.None?
    requires Traces(cfg, number) && (Quiet(cfg, s.tasks[tid].interrupted) ==> !Restarts(s.tasks[tid], number))
    ensures var p, q := Begin(Simple(cfg), s, tid, number, args, env), Begin(Fast(cfg), f, tid, number, args, env);
            p.Fine? == q.Fine? && (p.Fine? ==> Alike(cfg, p.st, q.st))
  {
    assert AlikeTask(cfg, s.tasks[tid], f.tasks[tid]);
    if Restarts(s.tasks[tid], number) {
      RestartAlike(cfg, s, f, tid, env.order);
    } else {
      ExposeAlike(cfg, s, f, tid, env);
      var p, q := ExposeEintr(Simple(cfg), s, tid, env), ExposeEintr(Fast(cfg), f, tid, env);
      if p.Fine? { FreshAlike(cfg, p.st, q.st, tid, number, args, env); }
    }
  }

  lemma ExitAlike(cfg: Config, s: State, f: State, tid: int, rval: int, isError: bool, env: Env)
    requires SeccompConfig(cfg) && Alike(cfg, s, f) && tid in s.tasks && f.tasks[tid].pending.Some?
    ensures var p, q := Finish(Simple(cfg), s, tid, rval, isError, env), Finish(Fast(cfg), f, tid, rval, isError, env);
            p.Fine? == q.Fine? && (p.Fine? ==> Alike(cfg, p.st, q.st))
  {
    assert AlikeTask(cfg, s.tasks[tid], f.tasks[tid]);
    if IsRestartResult(rval) {
      SetAsideAlike(cfg, s, f, tid);
    } else {
      ConcludeAlike(cfg, s, f, tid, rval, isError, env);
    }
  }

  lemma ConcludeAlike(cfg: Config, s: State, f: State, tid: int, rval: int, isError: bool, env: Env)
    requires SeccompConfig(cfg) && Alike(cfg, s, f) && tid in s.tasks
    requires f.tasks[tid].pending.Some? && s.tasks[tid].pending.Some?
    ensures var p, q := Conclude(Simple(cfg), s, tid, rval, isError, env),
                        Conclude(Fast(cfg), f, tid, rval, isError, env);
            p.Fine? == q.Fine? && (p.Fine? ==> Alike(cfg, p.st, q.st))
  {
    assert AlikeTask(cfg, s.tasks[tid], f.tasks[tid]);
    var number := s.tasks[tid].pending.value.number;
    var errorNumber, at := ErrorNumber(rval, isError), StampOf(Simple(cfg), number, env.now);
    CompleteAlike(cfg, s, f, tid, rval, errorNumber, at, env.order);
    var p := CompletePending(Simple(cfg), s, tid, rval, errorNumber, at, env.order);
    var q := CompletePending(Fast(cfg), f, tid, rval, errorNumber, at, env.order);
    if p.Fine? { AfterCompletionAlike(cfg, p.st, q.st, tid, number); }
  }

  lemma PlainlyAlike(cfg: Config, p: Outcome, q: Outcome)
    requires p.Fine? ==> q.Fine? && Alike(cfg, p.st, q.st)
    ensures AlikeHandled(cfg, Plainly(p), Plainly(q))
  {
  }

  /** What the fast tracer's kernel reports for a stop of the simple one: a silent entry is not
      reported, another arrives as a seccomp stop, and an exit is reported only to a task that was
      last resumed up to its next syscall stop. */
  ghost function Report(cfg: Config, f: State, n: Notice): Option<Notice> {
    match n.what
    case SyscallEntry(number, args) => if Silent(cfg, number) then None else Some(n.(what := SeccompStop(number, args)))
    case SyscallExit(_, _) => if n.tid in f.tasks && f.tasks[n.tid].asked.UntilSyscall? then Some(n) else None
    case _ => Some(n)
  }

  /** The entry of a task that has a call set aside.  While that is a traced call, only traced calls are
      entered; a silent one is not restarted by a traced call, nor when that makes the simple tracer
      print something. */
  ghost predicate Paired(cfg: Config, s: State, tid: int, number: int)
    requires tid in s.tasks && s.tasks[tid].interrupted.Some?
  {
    if Quiet(cfg, s.tasks[tid].interrupted) then
      Restarts(s.tasks[tid], number) ==> !Traces(cfg, number) && FlushIdle(Simple(cfg), s, tid)
    else Traces(cfg, number)
  }

  /** A well-formed stop of a native task: entries and exits alternate, and the first stop of a task is
      not a syscall stop.  Any call may be interrupted. */
  ghost predicate Native(cfg: Config, s: State, n: Notice) {
    && (n.what.SyscallEntry? ==>
          && n.what.number < X32_BIT
          && (if n.tid in s.tasks then
                && s.tasks[n.tid].pending.None?
                && (s.tasks[n.tid].interrupted.Some? ==> Paired(cfg, s, n.tid, n.what.number))
              else !cfg.follow))
    && (n.what.SyscallExit? ==> n.tid in s.tasks || !cfg.follow)
    && !n.what.SeccompStop?
    && (n.what == Exited(126) && n.tid == s.root.tid ==> s.root.execObserved)
  }

  /** The stop itself. */
  lemma StoppedAlike(cfg: Config, s: State, f: State, tid: int)
    requires Alike(cfg, s, f) && tid in s.tasks
    ensures Alike(cfg, SetTask(s, tid, s.tasks[tid].(inStop := true)), SetTask(f, tid, f.tasks[tid].(inStop := true)))
  {
    RequestAlike(cfg, s, f, tid, s.tasks[tid].(inStop := true), f.tasks[tid].(inStop := true), s.history, f.history);
  }

  lemma EntryStopAlike(cfg: Config, s: State, f: State, n: Notice, m: Notice)
    requires SeccompConfig(cfg) && Alike(cfg, s, f) && n.tid in s.tasks
    requires Native(cfg, s, n) && Report(cfg, f, n) == Some(m)
    requires n.what.SyscallEntry?
    ensures AlikeHandled(cfg, HandleStop(Simple(cfg), s, n), HandleStop(Fast(cfg), f, m))
  {
    var tid, number, args := n.tid, n.what.number, n.what.args;
    var a, b := SetTask(s, tid, s.tasks[tid].(inStop := true)), SetTask(f, tid, f.tasks[tid].(inStop := true));
    StoppedAlike(cfg, s, f, tid);
    SilentMeans(cfg, number);
    EntryAlike(cfg, a, b, tid, number, args, n.env);
    PlainlyAlike(cfg, Begin(Simple(cfg), a, tid, number, args, n.env), Begin(Fast(cfg), b, tid, number, args, n.env));
    assert number / X32_BIT == 0;
    assert m == n.(what := SeccompStop(number, args));
    assert HandleStop(Fast(cfg), f, m) == Plainly(Begin(Fast(cfg), b, tid, number, args, n.env));
  }

  lemma ExitStopAlike(cfg: Config, s: State, f: State, n: Notice)
    requires SeccompConfig(cfg) && Alike(cfg, s, f) && n.tid in s.tasks
    requires n.what.SyscallExit? && f.tasks[n.tid].pending.Some?
    ensures AlikeHandled(cfg, HandleStop(Simple(cfg), s, n), HandleStop(Fast(cfg), f, n))
  {
    var tid, rval, isError := n.tid, n.what.rval, n.what.isError;
    var a, b := SetTask(s, tid, s.tasks[tid].(inStop := true)), SetTask(f, tid, f.tasks[tid].(inStop := true));
    StoppedAlike(cfg, s, f, tid);
    ExitAlike(cfg, a, b, tid, rval, isError, n.env);
    PlainlyAlike(cfg, Finish(Simple(cfg), a, tid, rval, isError, n.env),
                 Finish(Fast(cfg), b, tid, rval, isError, n.env));
  }

  lemma EventStopAlike(cfg: Config, s: State, f: State, n: Notice)
    requires Alike(cfg, s, f) && n.tid in s.tasks && n.what.EventStop?
    ensures AlikeHandled(cfg, HandleStop(Simple(cfg), s, n), HandleStop(Fast(cfg), f, n))
  {
    var t, u := s.tasks[n.tid], f.tasks[n.tid];
    assert AlikeTask(cfg, t, u);
    var a, b := SetTask(s, n.tid, t.(inStop := true)), SetTask(f, n.tid, u.(inStop := true));
    StoppedAlike(cfg, s, f, n.tid);
    SetAlike(cfg, a, b, n.tid, t.(inStop := true, newborn := false), u.(inStop := true, newborn := false));
  }

  lemma HandleAlike(cfg: Config, s: State, f: State, n: Notice, m: Notice)
    requires SeccompConfig(cfg) && Alike(cfg, s, f) && n.tid in s.tasks
    requires Native(cfg, s, n) && Report(cfg, f, n) == Some(m)
    requires n.what.SyscallExit? ==> f.tasks[n.tid].pending.Some?
    ensures AlikeHandled(cfg, HandleStop(Simple(cfg), s, n), HandleStop(Fast(cfg), f, m))
  {
    match n.what
    case SyscallEntry(_, _) => EntryStopAlike(cfg, s, f, n, m);
    case SyscallExit(_, _) => ExitStopAlike(cfg, s, f, n);
    case EventStop(_) => EventStopAlike(cfg, s, f, n);
    case _ => OtherStopAlike(cfg, s, f, n);
  }

  lemma OtherStopAlike(cfg: Config, s: State, f: State, n: Notice)
    requires SeccompConfig(cfg) && Alike(cfg, s, f) && n.tid in s.tasks
    requires !n.what.SyscallEntry? && !n.what.SyscallExit? && !n.what.SeccompStop? && !n.what.EventStop?
    ensures AlikeHandled(cfg, HandleStop(Simple(cfg), s, n), HandleStop(Fast(cfg), f, n))
  {
    var tid := n.tid;
    var a, b := SetTask(s, tid, s.tasks[tid].(inStop := true)), SetTask(f, tid, f.tasks[tid].(inStop := true));
    StoppedAlike(cfg, s, f, tid);
    match n.what
    case ExecStop(_) =>
      if HandleExec(Simple(cfg), a, tid, n.env).Fine? { ExecAlike(cfg, a, b, tid, n.env); }
      PlainlyAlike(cfg, HandleExec(Simple(cfg), a, tid, n.env), HandleExec(Fast(cfg), b, tid, n.env));
    case ChildStop(kind, child, childTgid) =>
      ChildAlike(cfg, a, b, tid, kind, child, childTgid, n.env);
      PlainlyAlike(cfg, HandleChild(Simple(cfg), a, tid, kind, child, childTgid, n.env),
                   HandleChild(Fast(cfg), b, tid, kind, child, childTgid, n.env));
    case SignalStop(signal, info) => SignalAlike(cfg, a, b, tid, signal, info, n.env);
    case _ =>
  }

  // ----- migration, exits and resuming

  lemma RemoveAlike(cfg: Config, s: State, f: State, tid: int, reason: Reason)
    requires Alike(cfg, s, f) && tid in s.tasks
    ensures Alike(cfg, RemoveTask(s, tid, reason), RemoveTask(f, tid, reason))
  {
    Lifecycle.RemoveTaskLocal(s, tid, reason);
    Lifecycle.RemoveTaskLocal(f, tid, reason);
  }

  lemma TakeOverAlike(cfg: Config, s: State, f: State, tid: int, former: int, t: Tracee, u: Tracee)
    requires Alike(cfg, s, f) && AlikeTask(cfg, t, u)
    ensures Alike(cfg, TakeOver(s, tid, former, t), TakeOver(f, tid, former, u))
  {
    SetAlike(cfg, s, f, tid, t.(tgid := tid, newborn := false), u.(tgid := tid, newborn := false));
  }

  lemma MigrateAlike(cfg: Config, s: State, f: State, tid: int, former: int)
    requires Alike(cfg, s, f)
    ensures var p, q := MigrateExec(Simple(cfg), s, tid, former), MigrateExec(Fast(cfg), f, tid, former);
            p.Fine? == q.Fine? && (p.Fine? ==> Alike(cfg, p.st, q.st))
  {
    if former != tid {
      if former in s.tasks {
        assert AlikeTask(cfg, s.tasks[former], f.tasks[former]);
        if tid in s.tasks { RemoveAlike(cfg, s, f, tid, LostAtExec); }
        var a := if tid in s.tasks then RemoveTask(s, tid, LostAtExec) else s;
        var b := if tid in f.tasks then RemoveTask(f, tid, LostAtExec) else f;
        TakeOverAlike(cfg, a.(tasks := a.tasks - {former}), b.(tasks := b.tasks - {former}), tid, former,
                      s.tasks[former], f.tasks[former]);
      } else if tid in s.tasks {
        assert AlikeTask(cfg, s.tasks[tid], f.tasks[tid]);
        TakeOverAlike(cfg, s, f, tid, former, s.tasks[tid], f.tasks[tid]);
      } else {
        AddAlike(cfg, s, f, tid, tid, cfg.mode.Attach?, false);
      }
    }
  }

  lemma AdmitAlike(cfg: Config, s: State, f: State, n: Notice)
    requires Alike(cfg, s, f)
    ensures var p, q := Admit(Simple(cfg), s, n), Admit(Fast(cfg), f, n);
            p.Fine? == q.Fine? && (p.Fine? ==> Alike(cfg, p.st, q.st))
  {
    if n.what.ExecStop? { MigrateAlike(cfg, s, f, n.tid, n.what.former); }
    var p := if n.what.ExecStop? then MigrateExec(Simple(cfg), s, n.tid, n.what.former) else Fine(s);
    var q := if n.what.ExecStop? then MigrateExec(Fast(cfg), f, n.tid, n.what.former) else Fine(f);
    if p.Fine? {
      AddAlike(cfg, p.st, q.st, n.tid, if n.env.tgid <= 0 then n.tid else n.env.tgid, cfg.mode.Attach?, true);
    }
  }

  lemma BuryAlike(cfg: Config, s: State, f: State, n: Notice)
    requires SeccompConfig(cfg) && Alike(cfg, s, f) && n.tid in s.tasks
    requires (n.what.Exited? || n.what.Killed?) && Native(cfg, s, n)
    ensures var p, q := Bury(Simple(cfg), s, n), Bury(Fast(cfg), f, n);
            p.Fine? && q.Fine? && Alike(cfg, p.st, q.st)
  {
    assert AlikeTask(cfg, s.tasks[n.tid], f.tasks[n.tid]);
    var code := if n.what.Exited? then n.what.code else n.what.signal;
    var event := Event(n.tid, s.tasks[n.tid].tgid, n.env.now, ExitBody(code, n.what.Killed?));
    NoticeAlike(cfg, s, f, -1, n.env.order, event);
    var a, b := WriteExit(Simple(cfg), s, n), WriteExit(Fast(cfg), f, n);
    assert Alike(cfg, RecordStatus(a, n), RecordStatus(b, n));
    RemoveAlike(cfg, RecordStatus(a, n), RecordStatus(b, n), n.tid, LostAtExit);
  }

  /** What a request changes is of no account to the relation. */
  lemma RequestAlike(cfg: Config, s: State, f: State, tid: int, t: Tracee, u: Tracee, h: History, i: History)
    requires Alike(cfg, s, f) && tid in s.tasks
    requires t == s.tasks[tid].(asked := t.asked, inStop := t.inStop, pendingSignal := t.pendingSignal)
    requires u == f.tasks[tid].(asked := u.asked, inStop := u.inStop, pendingSignal := u.pendingSignal)
    ensures Alike(cfg, SetTask(s, tid, t).(history := h), SetTask(f, tid, u).(history := i))
  {
    assert AlikeTask(cfg, s.tasks[tid], f.tasks[tid]);
    SetAlike(cfg, s, f, tid, t, u);
    HistoryAlike(cfg, SetTask(s, tid, t), SetTask(f, tid, u), h, i);
  }

  /** Resuming a task changes nothing the relation looks at. */
  lemma ResumeSilently(cfg: Config, c: Config, s: State, f: State, tid: int, signal: int, listen: bool, env: Env)
    requires Alike(cfg, s, f) && tid in s.tasks
    ensures var r := Resume(c, s, tid, signal, listen, env); !r.Abort? ==> Alike(cfg, r.st, f)
  {
    var r := Resume(c, s, tid, signal, listen, env);
    if !r.Abort? {
      assert f.tasks[tid := f.tasks[tid]] == f.tasks;
      RequestAlike(cfg, s, f, tid, r.st.tasks[tid], f.tasks[tid], r.st.history, f.history);
    }
  }

  lemma ResumeAlike(cfg: Config, s: State, f: State, tid: int, signal: int, listen: bool, env: Env)
    requires Alike(cfg, s, f) && tid in s.tasks
    ensures var p, q := Resume(Simple(cfg), s, tid, signal, listen, env),
                        Resume(Fast(cfg), f, tid, signal, listen, env);
            && p.Next? == q.Next? && p.Halt? == q.Halt? && (p.Halt? ==> p.status == q.status)
            && (!p.Abort? ==> Alike(cfg, p.st, q.st) && tid in q.st.tasks)
  {
    var p, q := Resume(Simple(cfg), s, tid, signal, listen, env), Resume(Fast(cfg), f, tid, signal, listen, env);
    if !p.Abort? {
      RequestAlike(cfg, s, f, tid, p.st.tasks[tid], q.st.tasks[tid], p.st.history, q.st.history);
    }
  }

  // ----- the requests of the fast tracer

  /** A task is resumed up to its next syscall stop exactly while it holds a call. */
  ghost predicate AskedBut(f: State, except: int) {
    forall tid | tid in f.tasks ::
      && !f.tasks[tid].attached
      && (tid != except ==> (f.tasks[tid].asked.UntilSyscall? <==> f.tasks[tid].pending.Some?))
  }

  /** -1 is nobody's TID. */
  ghost predicate Asking(f: State) { AskedBut(f, -1) && -1 !in f.tasks }

  lemma AdmitAsking(cfg: Config, f: State, n: Notice)
    requires cfg.mode.Launch? && Asking(f)
    ensures var o := Admit(cfg, f, n);
            o.Fine? ==> AskedBut(o.st, n.tid) && -1 !in o.st.tasks && (!n.what.ExecStop? ==> AskedBut(o.st, -1))
  {
    if n.what.ExecStop? && n.what.former != n.tid && n.tid > 0 {
      Lifecycle.MigrationSpec(cfg, f, n.tid, n.what.former);
    }
  }

  lemma ResumeAsking(cfg: Config, f: State, tid: int, signal: int, env: Env)
    requires AskedBut(f, tid) && tid in f.tasks && -1 !in f.tasks
    ensures var r := Resume(Fast(cfg), f, tid, signal, false, env); !r.Abort? ==> Asking(r.st)
  {
  }

  lemma HandledAsking(cfg: Config, f: State, m: Notice)
    requires AskedBut(f, m.tid) && m.tid in f.tasks && -1 !in f.tasks
    ensures var h := HandleStop(Fast(cfg), f, m);
            h.Handled? ==> AskedBut(h.st, m.tid) && m.tid in h.st.tasks && -1 !in h.st.tasks && !h.listen
  {
    Lifecycle.HandleStopAnswered(Fast(cfg), f, m);
    var h := HandleStop(Fast(cfg), f, m);
    if h.Handled? {
      forall u | u in h.st.tasks
        ensures !h.st.tasks[u].attached
        ensures (u != m.tid ==> (h.st.tasks[u].asked.UntilSyscall? <==> h.st.tasks[u].pending.Some?)) && u != -1
      {
        if u in f.tasks { assert u != m.tid ==> h.st.tasks[u] == f.tasks[u]; }
      }
    }
  }

  // ----- one notice

  ghost predicate Follows(cfg: Config, p: StepResult, q: StepResult) {
    match p
    case Next(s) => q.Next? && Alike(cfg, s, q.st) && Asking(q.st)
    case Halt(s, status) => q.Halt? && q.status == status && Alike(cfg, s, q.st)
    case Abort => true
  }

  /** A stop that the fast tracer sees. */
  lemma SeenStep(cfg: Config, s: State, f: State, n: Notice, m: Notice)
    requires SeccompConfig(cfg) && Alike(cfg, s, f) && Asking(f) && Native(cfg, s, n) && Report(cfg, f, n) == Some(m)
    ensures Follows(cfg, Step(Simple(cfg), s, n), Step(Fast(cfg), f, m))
  {
    if !n.what.WaitInterrupted? {
      AdmitSeen(cfg, s, f, n, m);
      AdmitAlike(cfg, s, f, n);
      AdmitAsking(Fast(cfg), f, n);
      var p, q := Admit(Simple(cfg), s, n), Admit(Fast(cfg), f, n);
      if p.Fine? { DispatchAlike(cfg, p.st, q.st, n, m); }
    }
  }

  lemma DispatchAlike(cfg: Config, s: State, f: State, n: Notice, m: Notice)
    requires SeccompConfig(cfg) && Alike(cfg, s, f) && AskedBut(f, n.tid) && -1 !in f.tasks && !n.what.WaitInterrupted?
    requires !n.what.ExecStop? ==> Asking(f)
    requires Native(cfg, s, n) && Report(cfg, f, n) == Some(m)
    ensures Follows(cfg, Dispatch(Simple(cfg), s, n), Dispatch(Fast(cfg), f, m))
  {
    if n.tid in s.tasks {
      if n.what.Continued? {
        ContinuedAlike(cfg, s, f, n.tid);
      } else if n.what.Exited? || n.what.Killed? {
        BuryAlike(cfg, s, f, n);
        Lifecycle.BuryFrame(Fast(cfg), f, n);
      } else {
        SeenStop(cfg, s, f, n, m);
      }
    }
  }

  lemma ContinuedAlike(cfg: Config, s: State, f: State, tid: int)
    requires Alike(cfg, s, f) && tid in s.tasks && Asking(f)
    ensures var a, b := SetTask(s, tid, s.tasks[tid].(inStop := false)),
                        SetTask(f, tid, f.tasks[tid].(inStop := false));
            Alike(cfg, a, b) && Asking(b)
  {
    RequestAlike(cfg, s, f, tid, s.tasks[tid].(inStop := false), f.tasks[tid].(inStop := false), s.history, f.history);
  }

  /** Both sides admit the notice in the same way, whichever form it arrives in. */
  lemma AdmitSeen(cfg: Config, s: State, f: State, n: Notice, m: Notice)
    requires SeccompConfig(cfg) && Alike(cfg, s, f) && Native(cfg, s, n) && Report(cfg, f, n) == Some(m)
    ensures Admit(Fast(cfg), f, m) == Admit(Fast(cfg), f, n)
    ensures n.what.SyscallEntry? || n.what.SyscallExit? ==>
              Admit(Simple(cfg), s, n) == Fine(s) && Admit(Fast(cfg), f, n) == Fine(f)
    ensures Admit(Simple(cfg), s, n).Fine? ==> Native(cfg, Admit(Simple(cfg), s, n).st, n)
    ensures Admit(Fast(cfg), f, n).Fine? ==> Report(cfg, Admit(Fast(cfg), f, n).st, n) == Some(m)
  {
    if n.what.ExecStop? && n.what.former != n.tid && n.tid > 0 {
      Lifecycle.MigrationSpec(Simple(cfg), s, n.tid, n.what.former);
    }
  }

  lemma SeenStop(cfg: Config, s: State, f: State, n: Notice, m: Notice)
    requires SeccompConfig(cfg) && Alike(cfg, s, f) && AskedBut(f, n.tid) && -1 !in f.tasks
    requires Native(cfg, s, n) && Report(cfg, f, n) == Some(m) && n.tid in s.tasks && IsStop(n.what)
    requires n.what.SyscallExit? ==> f.tasks[n.tid].pending.Some?
    ensures var p, q := HandleStop(Simple(cfg), s, n), HandleStop(Fast(cfg), f, m);
            p.Handled? ==>
              && q.Handled?
              && Follows(cfg, Resume(Simple(cfg), p.st, n.tid, p.signal, p.listen, n.env),
                         Resume(Fast(cfg), q.st, m.tid, q.signal, q.listen, m.env))
  {
    HandleAlike(cfg, s, f, n, m);
    var p, q := HandleStop(Simple(cfg), s, n), HandleStop(Fast(cfg), f, m);
    if p.Handled? {
      HandledAsking(cfg, f, m);
      ResumeAlike(cfg, p.st, q.st, n.tid, p.signal, p.listen, n.env);
      ResumeAsking(cfg, q.st, n.tid, q.signal, n.env);
    }
  }

  /** A stop that the fast tracer does not see changes nothing for it. */
  lemma UnseenStep(cfg: Config, s: State, f: State, n: Notice)
    requires SeccompConfig(cfg) && Alike(cfg, s, f) && Asking(f) && Native(cfg, s, n) && Report(cfg, f, n) == None
    ensures var p := Step(Simple(cfg), s, n); !p.Abort? ==> Alike(cfg, p.st, f)
  {
    if n.tid in s.tasks {
      var a := SetTask(s, n.tid, s.tasks[n.tid].(inStop := true));
      StoppedSilently(cfg, s, f, n.tid);
      match n.what
      case SyscallEntry(number, args) =>
        SilentMeans(cfg, number);
        EntrySilently(cfg, a, f, n.tid, number, args, n.env);
        var o := Begin(Simple(cfg), a, n.tid, number, args, n.env);
        if o.Fine? { ResumeSilently(cfg, Simple(cfg), o.st, f, n.tid, 0, false, n.env); }
      case SyscallExit(rval, isError) =>
        ExitSilently(cfg, a, f, n.tid, rval, isError, n.env);
        var o := Finish(Simple(cfg), a, n.tid, rval, isError, n.env);
        if o.Fine? { ResumeSilently(cfg, Simple(cfg), o.st, f, n.tid, 0, false, n.env); }
    }
  }

  lemma StoppedSilently(cfg: Config, s: State, f: State, tid: int)
    requires Alike(cfg, s, f) && tid in s.tasks
    ensures Alike(cfg, SetTask(s, tid, s.tasks[tid].(inStop := true)), f)
  {
    assert f.tasks[tid := f.tasks[tid]] == f.tasks;
    RequestAlike(cfg, s, f, tid, s.tasks[tid].(inStop := true), f.tasks[tid], s.history, f.history);
  }

  /** A silent call set aside goes on without a trace. */
  lemma RestartSilently(cfg: Config, s: State, f: State, tid: int, order: seq<int>)
    requires Alike(cfg, s, f) && tid in s.tasks && s.tasks[tid].pending.None? && Quiet(cfg, s.tasks[tid].interrupted)
    requires FlushIdle(Simple(cfg), s, tid)
    ensures Alike(cfg, Restart(Simple(cfg), s, tid, order), f)
  {
    var t := s.tasks[tid];
    IdleFlush(Simple(cfg), s, tid, order);
    assert AlikeTask(cfg, t, f.tasks[tid]);
    assert f.tasks[tid := f.tasks[tid]] == f.tasks;
    SetAlike(cfg, s, f, tid, t.(pending := t.interrupted, interrupted := None, restartReady := false), f.tasks[tid]);
  }

  /** A silent entry of a task that has no traced call set aside. */
  lemma EntrySilently(cfg: Config, s: State, f: State, tid: int, number: nat, args: seq<int>, env: Env)
    requires SeccompConfig(cfg) && Alike(cfg, s, f) && tid in s.tasks
    requires s.tasks[tid].pending.None? && !Traces(cfg, number)
    requires s.tasks[tid].interrupted.Some? ==> Quiet(cfg, s.tasks[tid].interrupted)
    requires Restarts(s.tasks[tid], number) ==> FlushIdle(Simple(cfg), s, tid)
    ensures var o := Begin(Simple(cfg), s, tid, number, args, env); o.Fine? ==> Alike(cfg, o.st, f) && tid in o.st.tasks
  {
    if Restarts(s.tasks[tid], number) {
      RestartSilently(cfg, s, f, tid, env.order);
    } else if s.tasks[tid].interrupted.Some? {
      ExposeSilently(cfg, s, f, tid, env);
      FreshSilently(cfg, ExposeEintr(Simple(cfg), s, tid, env).st, f, tid, number, args, env);
    } else {
      FreshSilently(cfg, s, f, tid, number, args, env);
    }
  }

  /** A silent call is set aside without a trace. */
  lemma SetAsideSilently(cfg: Config, s: State, f: State, tid: int)
    requires Alike(cfg, s, f) && tid in s.tasks && Quiet(cfg, s.tasks[tid].pending)
    ensures Alike(cfg, SetAside(s, tid), f)
  {
    var t := s.tasks[tid];
    assert AlikeTask(cfg, t, f.tasks[tid]);
    var r := SetAside(s, tid);
    assert r == SetTask(s, tid, r.tasks[tid]).(history := r.history);
    assert r.tasks[tid] == t.(interrupted := t.pending, pending := None, restartReady := false);
    assert f.tasks[tid := f.tasks[tid]] == f.tasks;
    SetAlike(cfg, s, f, tid, r.tasks[tid], f.tasks[tid]);
    HistoryAlike(cfg, SetTask(s, tid, r.tasks[tid]), f, r.history, f.history);
  }

  lemma ExitSilently(cfg: Config, s: State, f: State, tid: int, rval: int, isError: bool, env: Env)
    requires SeccompConfig(cfg) && Alike(cfg, s, f) && tid in s.tasks && f.tasks[tid].pending.None?
    ensures var o := Finish(Simple(cfg), s, tid, rval, isError, env);
            o.Fine? && Alike(cfg, o.st, f) && tid in o.st.tasks
  {
    assert AlikeTask(cfg, s.tasks[tid], f.tasks[tid]);
    if s.tasks[tid].pending.Some? {
      if IsRestartResult(rval) {
        SetAsideSilently(cfg, s, f, tid);
      } else {
        ConcludeSilently(cfg, s, f, tid, rval, isError, env);
      }
    }
  }

  lemma ConcludeSilently(cfg: Config, s: State, f: State, tid: int, rval: int, isError: bool, env: Env)
    requires SeccompConfig(cfg) && Alike(cfg, s, f) && tid in s.tasks
    requires s.tasks[tid].pending.Some? && f.tasks[tid].pending.None?
    ensures var o := Conclude(Simple(cfg), s, tid, rval, isError, env);
            o.Fine? && Alike(cfg, o.st, f) && tid in o.st.tasks
  {
    assert AlikeTask(cfg, s.tasks[tid], f.tasks[tid]);
    var number := s.tasks[tid].pending.value.number;
    var errorNumber, at := ErrorNumber(rval, isError), StampOf(Simple(cfg), number, env.now);
    CompleteSilently(cfg, s, f, tid, rval, errorNumber, at, env.order);
    var o := CompletePending(Simple(cfg), s, tid, rval, errorNumber, at, env.order);
    assert o.st.tasks[tid] == s.tasks[tid].(pending := None);
    AfterCompletionSilently(cfg, o.st, f, tid, number);
  }

  // ----- whole runs

  ghost predicate NativeRun(cfg: Config, st: State, run: seq<Notice>) {
    forall k :: 0 <= k < |run| ==>
      var r := After(Simple(cfg), st, run[..k]); r.Running? ==> Native(cfg, r.st, run[k])
  }

  /** The notices the fast tracer gets while the simple one gets `run`. */
  ghost function FastView(cfg: Config, st: State, run: seq<Notice>): seq<Notice> {
    if run == [] then []
    else
      var before := FastView(cfg, st, run[..|run| - 1]);
      var r := After(Fast(cfg), st, before);
      var report := if r.Running? then Report(cfg, r.st, run[|run| - 1]) else None;
      if report.Some? then before + [report.value] else before
  }

  ghost predicate SameRun(cfg: Config, r: RunResult, q: RunResult) {
    match r
    case Running(s) => q.Running? && Alike(cfg, s, q.st) && Asking(q.st)
    case Drained(s, status) => q.Drained? && Alike(cfg, s, q.st) && q.status == status
    case _ => true
  }

  lemma LoopHeadAlike(cfg: Config, s: State, f: State)
    requires Alike(cfg, s, f) && Asking(f)
    ensures SameRun(cfg, LoopHead(Simple(cfg), s), LoopHead(Fast(cfg), f))
  {
    assert s.tasks == map[] <==> s.tasks.Keys == {};
    assert f.tasks == map[] <==> f.tasks.Keys == {};
  }

  lemma {:induction false} RunsAlike(cfg: Config, s: State, f: State, run: seq<Notice>)
    requires SeccompConfig(cfg) && Alike(cfg, s, f) && Asking(f) && NativeRun(cfg, s, run)
    ensures SameRun(cfg, After(Simple(cfg), s, run), After(Fast(cfg), f, FastView(cfg, f, run)))
  {
    if run == [] {
      LoopHeadAlike(cfg, s, f);
    } else {
      var front, n := run[..|run| - 1], run[|run| - 1];
      forall k | 0 <= k < |front|
        ensures var r := After(Simple(cfg), s, front[..k]); r.Running? ==> Native(cfg, r.st, front[k])
      {
        assert front[..k] == run[..k];
      }
      RunsAlike(cfg, s, f, front);
      var before := FastView(cfg, f, front);
      var r, q := After(Simple(cfg), s, front), After(Fast(cfg), f, before);
      if r.Running? {
        var report := Report(cfg, q.st, n);
        if report.Some? {
          assert (before + [report.value])[..|before|] == before;
          SeenStep(cfg, r.st, q.st, n, report.value);
          var p := Step(Simple(cfg), r.st, n);
          if p.Next? { LoopHeadAlike(cfg, p.st, Step(Fast(cfg), q.st, report.value).st); }
        } else {
          UnseenStep(cfg, r.st, q.st, n);
          var p := Step(Simple(cfg), r.st, n);
          if p.Next? { LoopHeadAlike(cfg, p.st, q.st); }
          assert LoopHead(Fast(cfg), q.st) == q by { StillRunning(Fast(cfg), f, before); }
        }
      }
    }
  }

  lemma StillRunning(cfg: Config, st: State, run: seq<Notice>)
    requires After(cfg, st, run).Running?
    ensures LoopHead(cfg, After(cfg, st, run).st) == After(cfg, st, run)
  {
  }

  /** The fast path refines the simple one: for every well-formed run of native calls, hiding the stops
      that the compiled program lets through silently leaves the printed lines, the statistics, the
      event count and the final status unchanged.  Calls may be interrupted and restarted; `Native` says
      which. */
  lemma FastPathRefines(cfg: Config, root: int, run: seq<Notice>)
    requires SeccompConfig(cfg) && root > 0
    requires NativeRun(cfg, LaunchState(Simple(cfg), root), run)
    ensures var r := After(Simple(cfg), LaunchState(Simple(cfg), root), run);
            var q := After(Fast(cfg), LaunchState(Fast(cfg), root), FastView(cfg, LaunchState(Fast(cfg), root), run));
            && (r.Running? ==> q.Running?)
            && (r.Drained? ==> q.Drained? && q.status == r.status)
            && (r.Running? || r.Drained? ==> SameReport(r.st, q.st))
  {
    RunsAlike(cfg, LaunchState(Simple(cfg), root), LaunchState(Fast(cfg), root), run);
  }

  /** Everything the user gets to see. */
  ghost predicate SameReport(s: State, f: State) {
    s.log == f.log && s.stats == f.stats && s.events == f.events && s.root == f.root
  }

  /** And if the simple tracer is shut down at the next notice, the fast one is shut down with the same
      status when it sees that notice, and has in any case shown the same. */
  lemma FastPathHaltsAlike(cfg: Config, root: int, run: seq<Notice>, n: Notice)
    requires SeccompConfig(cfg) && root > 0
    requires NativeRun(cfg, LaunchState(Simple(cfg), root), run)
    requires var r := After(Simple(cfg), LaunchState(Simple(cfg), root), run);
             r.Running? && Native(cfg, r.st, n) && Step(Simple(cfg), r.st, n).Halt?
    ensures var halted := Step(Simple(cfg), After(Simple(cfg), LaunchState(Simple(cfg), root), run).st, n);
            var q := After(Fast(cfg), LaunchState(Fast(cfg), root), FastView(cfg, LaunchState(Fast(cfg), root), run));
            && q.Running?
            && match Report(cfg, q.st, n)
               case Some(m) =>
                 var last := Step(Fast(cfg), q.st, m);
                 last.Halt? && last.status == halted.status && SameReport(halted.st, last.st)
               case None => SameReport(halted.st, q.st)
  {
    RunsAlike(cfg, LaunchState(Simple(cfg), root), LaunchState(Fast(cfg), root), run);
    var r := After(Simple(cfg), LaunchState(Simple(cfg), root), run);
    var q := After(Fast(cfg), LaunchState(Fast(cfg), root), FastView(cfg, LaunchState(Fast(cfg), root), run));
    var report := Report(cfg, q.st, n);
    if report.Some? { SeenStep(cfg, r.st, q.st, n, report.value); } else { UnseenStep(cfg, r.st, q.st, n); }
  }
}
