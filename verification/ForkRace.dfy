/** The race between a parent's fork event and the child's first stop. */
module ForkRace {
  import opened Bits
  import opened Events
  import opened TraceModel
  import opened Visibility
  import opened Lifecycle

  /** The parent reports its child. */
  function ParentEvent(parent: int, kind: ChildKind, child: nat, tgid: int, env: Env): Notice {
    Notice(parent, ChildStop(kind, child, tgid), env)
  }

  /** The child's first SIGSTOP. */
  function BirthStop(child: int, info: SigInfo, env: Env): Notice {
    Notice(child, SignalStop(SIGSTOP, info), env)
  }

  /** The task after its stop has been answered. */
  function AfterResume(cfg: Config, t: Tracee, reply: Reply): Tracee {
    var asked := t.(asked := RequestFor(cfg, t, false));
    if reply.Gone? then asked else asked.(inStop := false, pendingSignal := 0)
  }

  ghost predicate Answerable(env: Env) { !env.reply.Refused? && env.shutdown == 0 }

  function NoteRequest(h: History, tid: int, t: Tracee, asked: Asked, reply: Reply): History {
    h.(requests := h.requests + [Request(tid, t.task, asked, 0, reply.Gone?)])
  }

  lemma ResumePlain(cfg: Config, st: State, tid: int, env: Env)
    requires tid in st.tasks && Answerable(env)
    ensures var t := st.tasks[tid];
            Resume(cfg, st, tid, 0, false, env) ==
            Next(SetTask(st, tid, AfterResume(cfg, t, env.reply)).(history := NoteRequest(st.history, tid, t, RequestFor(cfg, t, false), env.reply)))
  {
  }

  /** The child's stop when the child is already tracked as a newborn. */
  lemma BirthOfKnown(cfg: Config, st: State, child: int, info: SigInfo, env: Env)
    requires child in st.tasks && st.tasks[child].newborn && Answerable(env)
    ensures var t := st.tasks[child].(inStop := true, newborn := false);
            Step(cfg, st, BirthStop(child, info, env)) ==
            Next(SetTask(st, child, AfterResume(cfg, t, env.reply))
                 .(history := NoteRequest(st.history.(suppressed := st.history.suppressed + [t.task]), child, t,
                                          RequestFor(cfg, t, false), env.reply)))
  {
    var t := st.tasks[child];
    var stopped := SetTask(st, child, t.(inStop := true));
    var quiet := SetTask(stopped, child, t.(inStop := true, newborn := false))
                 .(history := st.history.(suppressed := st.history.suppressed + [t.task]));
    assert HandleStop(cfg, st, BirthStop(child, info, env)) == Handled(quiet, 0, false);
    ResumePlain(cfg, quiet, child, env);
    var u := t.(inStop := true, newborn := false);
    assert st.tasks[child := t.(inStop := true)][child := u][child := AfterResume(cfg, u, env.reply)] ==
           st.tasks[child := AfterResume(cfg, u, env.reply)];
  }

  /** The child's stop when nobody has announced the child yet. */
  lemma BirthOfUnknown(cfg: Config, st: State, child: int, tgid: int, info: SigInfo, env: Env)
    requires cfg.follow && child !in st.tasks && child > 0 && tgid > 0 && env.tgid == tgid && Answerable(env)
    ensures var added := AddTask(st, child, tgid, cfg.mode.Attach?, true);
            added.Fine? && Step(cfg, st, BirthStop(child, info, env)) == Step(cfg, added.st, BirthStop(child, info, env))
  {
  }

  /** What the parent's event prints. */
  function Spawning(cfg: Config, st: State, parent: int, kind: ChildKind, child: nat, env: Env): State
    requires parent in st.tasks
  {
    Emit(cfg, Flush(cfg, st, -1, env.order), Event(parent, st.tasks[parent].tgid, env.now, StartBody(child, kind)))
  }

  /** The parent's event once the child is in the table. */
  lemma EventOfKnown(cfg: Config, st: State, parent: int, kind: ChildKind, child: nat, tgid: int, env: Env)
    requires parent in st.tasks && child in st.tasks && child != parent
    requires 0 < child <= INT_MAX && tgid > 0 && Answerable(env)
    ensures var t := st.tasks[parent].(inStop := true);
            var out := Spawning(cfg, SetTask(st, parent, t), parent, kind, child, env);
            Step(cfg, st, ParentEvent(parent, kind, child, tgid, env)) ==
            Next(SetTask(out, parent, AfterResume(cfg, t, env.reply))
                 .(history := NoteRequest(st.history, parent, t, RequestFor(cfg, t, false), env.reply)))
  {
    var t := st.tasks[parent].(inStop := true);
    var stopped := SetTask(st, parent, t);
    var out := Spawning(cfg, stopped, parent, kind, child, env);
    assert HandleStop(cfg, st, ParentEvent(parent, kind, child, tgid, env)) == Handled(out, 0, false);
    ResumePlain(cfg, out, parent, env);
  }

  /** The parent's event first tracks an unknown child, as if it had been in the table. */
  lemma EventOfUnknown(cfg: Config, st: State, parent: int, kind: ChildKind, child: nat, tgid: int, env: Env)
    requires parent in st.tasks && child !in st.tasks && child != parent && 0 < child <= INT_MAX && tgid > 0
    ensures var added := AddTask(st, child, tgid, st.tasks[parent].attached, true);
            && added.Fine?
            && Step(cfg, st, ParentEvent(parent, kind, child, tgid, env)) ==
               Step(cfg, added.st, ParentEvent(parent, kind, child, tgid, env))
  {
    var n := ParentEvent(parent, kind, child, tgid, env);
    var t := st.tasks[parent];
    var added := AddTask(st, child, tgid, t.attached, true).st;
    var a, b := SetTask(st, parent, t.(inStop := true)), SetTask(added, parent, t.(inStop := true));
    assert AddTask(a, child, tgid, t.attached, true).st.tasks == b.tasks;
    assert AddTask(a, child, tgid, t.attached, true) == Fine(b) == AddTask(b, child, tgid, t.attached, true);
    assert HandleChild(cfg, a, parent, kind, child, tgid, env) == HandleChild(cfg, b, parent, kind, child, tgid, env);
  }

  /** Everything but the order of the requests. */
  ghost predicate SameOutcome(a: State, b: State) {
    && a.tasks == b.tasks && a.open == b.open && a.log == b.log
    && a.stats == b.stats && a.events == b.events && a.root == b.root
    && a.history == b.history.(requests := a.history.requests)
  }

  /** With following on and the thread-group lookup succeeding, both orders of the parent's event and
      the child's first SIGSTOP reach the same table and the same output; the SIGSTOP is swallowed
      once, and each of the two tasks is resumed once, without a signal. */
  lemma OrdersAgree(cfg: Config, st: State, parent: int, kind: ChildKind, child: nat, tgid: int, info: SigInfo,
                    p: Env, c: Env)
    requires Sound(cfg, st) && cfg.follow && parent in st.tasks && child !in st.tasks && 0 < child <= INT_MAX
    requires tgid > 0 && c.tgid == tgid && Answerable(p) && Answerable(c)
    ensures var event, birth := ParentEvent(parent, kind, child, tgid, p), BirthStop(child, info, c);
            && Step(cfg, st, event).Next? && Step(cfg, st, birth).Next?
            && var first, second := Step(cfg, Step(cfg, st, event).st, birth),
                                    Step(cfg, Step(cfg, st, birth).st, event);
            && first.Next? && second.Next? && SameOutcome(first.st, second.st)
            && first.st.history.suppressed == st.history.suppressed + [st.history.births]
            && !first.st.tasks[child].newborn
            && |first.st.history.requests| == |second.st.history.requests| == |st.history.requests| + 2
            && first.st.history.requests[|st.history.requests|] == second.st.history.requests[|st.history.requests| + 1]
            && first.st.history.requests[|st.history.requests| + 1] == second.st.history.requests[|st.history.requests|]
            && first.st.history.requests[|st.history.requests|].signal == 0
            && first.st.history.requests[|st.history.requests| + 1].signal == 0
  {
    assert GoodEntry(cfg, st.history, parent, st.tasks[parent]);
    var event, birth := ParentEvent(parent, kind, child, tgid, p), BirthStop(child, info, c);
    BirthOfUnknown(cfg, st, child, tgid, info, c);
    EventOfUnknown(cfg, st, parent, kind, child, tgid, p);
    KnownOrdersAgree(cfg, AddTask(st, child, tgid, cfg.mode.Attach?, true).st, parent, kind, child, tgid, info, p, c);
  }

  lemma KnownOrdersAgree(cfg: Config, st: State, parent: int, kind: ChildKind, child: nat, tgid: int, info: SigInfo,
                         p: Env, c: Env)
    requires parent in st.tasks && child in st.tasks && parent != child && 0 < child <= INT_MAX && tgid > 0
    requires st.tasks[child].newborn && Held(st.tasks[child]).None? && Answerable(p) && Answerable(c)
    ensures var event, birth := ParentEvent(parent, kind, child, tgid, p), BirthStop(child, info, c);
            && Step(cfg, st, event).Next? && Step(cfg, st, birth).Next?
            && var first, second := Step(cfg, Step(cfg, st, event).st, birth),
                                    Step(cfg, Step(cfg, st, birth).st, event);
            && first.Next? && second.Next? && SameOutcome(first.st, second.st)
            && first.st.history.suppressed == st.history.suppressed + [st.tasks[child].task]
            && child in first.st.tasks && !first.st.tasks[child].newborn
            && |first.st.history.requests| == |second.st.history.requests| == |st.history.requests| + 2
            && first.st.history.requests[|st.history.requests|] == second.st.history.requests[|st.history.requests| + 1]
            && first.st.history.requests[|st.history.requests| + 1] == second.st.history.requests[|st.history.requests|]
            && first.st.history.requests[|st.history.requests|].signal == 0
            && first.st.history.requests[|st.history.requests| + 1].signal == 0
  {
    var event, birth := ParentEvent(parent, kind, child, tgid, p), BirthStop(child, info, c);
    EventOfKnown(cfg, st, parent, kind, child, tgid, p);
    var a := Step(cfg, st, event).st;
    BirthOfKnown(cfg, a, child, info, c);
    BirthOfKnown(cfg, st, child, info, c);
    var b := Step(cfg, st, birth).st;
    EventOfKnown(cfg, b, parent, kind, child, tgid, p);
    SpawningAlike(cfg, st, b, parent, kind, child, p);
    var first, second := Step(cfg, a, birth).st, Step(cfg, b, event).st;
    assert first.tasks == second.tasks;
  }

  /** What is printed does not depend on a child without calls. */
  lemma SpawningAlike(cfg: Config, a: State, b: State, parent: int, kind: ChildKind, child: nat, env: Env)
    requires parent in a.tasks && child in a.tasks && parent != child && SameOutput(a, b)
    requires child in b.tasks && b.tasks == a.tasks[child := b.tasks[child]]
    requires Held(a.tasks[child]).None? && Held(b.tasks[child]).None?
    ensures var t := a.tasks[parent].(inStop := true);
            SameOutput(Spawning(cfg, SetTask(a, parent, t), parent, kind, child, env),
                       Spawning(cfg, SetTask(b, parent, t), parent, kind, child, env))
  {
    var t := a.tasks[parent].(inStop := true);
    var x, y := SetTask(a, parent, t), SetTask(b, parent, t);
    forall tid ensures Shown(cfg, x, tid) == Shown(cfg, y, tid) {}
    FlushAlike(cfg, cfg, x, y, -1, env.order);
    EmitAlike(cfg, cfg, Flush(cfg, x, -1, env.order), Flush(cfg, y, -1, env.order),
              Event(parent, t.tgid, env.now, StartBody(child, kind)));
  }
}
