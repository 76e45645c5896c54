/** Four runs, each one a kernel can produce, on which the seccomp tracer prints something else than
    the simple one: the ways in which an interrupted call and a silent one can meet. */
module FastLimits {
  import opened Bits
  import opened TraceModel
  import opened Visibility
  import opened Limits
  import FastPath

  function Fast(cfg: Config): Config { FastPath.Fast(cfg) }
  function FastStart(cfg: Config): State { LaunchState(Fast(cfg), 1) }
  ghost function View(cfg: Config, run: seq<Notice>): seq<Notice> { FastPath.FastView(cfg, FastStart(cfg), run) }

  lemma FastConfig(cfg: Config)
    requires Chooses(cfg)
    ensures FastPath.Simple(cfg) == cfg && FastPath.SeccompConfig(cfg) && Textual(Fast(cfg))
  {
  }

  /** Both tracers after the run `run` of the simple one. */
  ghost predicate Both(cfg: Config, run: seq<Notice>, s: State, f: State) {
    Reached(cfg, run, s) && After(Fast(cfg), FastStart(cfg), View(cfg, run)) == Running(f)
  }

  /** Both see a notice, perhaps in different forms. */
  lemma BothGo(cfg: Config, run: seq<Notice>, s: State, f: State, n: Notice, m: Notice)
    returns (longer: seq<Notice>, s': State, f': State)
    requires Both(cfg, run, s, f) && FastPath.Report(cfg, f, n) == Some(m)
    requires Step(cfg, s, n).Next? && 1 in Step(cfg, s, n).st.tasks
    requires Step(Fast(cfg), f, m).Next? && 1 in Step(Fast(cfg), f, m).st.tasks
    ensures longer == run + [n] && s' == Step(cfg, s, n).st
    ensures f' == Step(Fast(cfg), f, m).st && Both(cfg, longer, s', f')
  {
    longer, s' := Extend(cfg, run, s, n);
    f' := Step(Fast(cfg), f, m).st;
    assert (run + [n])[..|run|] == run;
    Goes(Fast(cfg), FastStart(cfg), View(cfg, run), f, m);
  }

  /** Only the simple tracer sees it. */
  lemma SimpleGoes(cfg: Config, run: seq<Notice>, s: State, f: State, n: Notice)
    returns (longer: seq<Notice>, s': State)
    requires Both(cfg, run, s, f) && FastPath.Report(cfg, f, n) == None
    requires Step(cfg, s, n).Next? && 1 in Step(cfg, s, n).st.tasks
    ensures longer == run + [n] && s' == Step(cfg, s, n).st && Both(cfg, longer, s', f)
  {
    longer, s' := Extend(cfg, run, s, n);
    assert (run + [n])[..|run|] == run;
  }

  /** A traced entry arrives as a seccomp stop, a silent one not at all. */
  lemma SeesEntry(cfg: Config, f: State, tid: int, number: nat)
    requires Chooses(cfg) && number < 512
    ensures FastPath.Report(cfg, f, Enter(tid, number)) ==
            if FastPath.Traces(cfg, number) then Some(Trap(tid, number)) else None
  {
    FastConfig(cfg);
    FastPath.SilentMeans(cfg, number);
  }

  // ----- one task, the same on both sides

  ghost predicate Twins(s: State, f: State, c: Calls, open: set<int>, log: seq<Record>) {
    && s.tasks.Keys == {1} && f.tasks.Keys == {1} && Holds(s, 1, c) && Holds(f, 1, c)
    && s.open == open && f.open == open && s.log == log && f.log == log && |s.history.entries| == |f.history.entries|
  }

  lemma TwinsIdle(cfg: Config, s: State, f: State)
    requires s.tasks.Keys == {1} && f.tasks.Keys == {1}
    ensures FlushIdle(cfg, s, 1) && FlushIdle(Fast(cfg), f, 1)
  {
  }

  lemma TwinsEnter(cfg: Config, run: seq<Notice>, s: State, f: State, number: nat, i: Option<Call>, open: set<int>,
                   log: seq<Record>)
    returns (longer: seq<Notice>, s': State, f': State)
    requires Chooses(cfg)
    requires Both(cfg, run, s, f) && Twins(s, f, Calls(None, i, false), open, log)
    requires number < 512 && FastPath.Traces(cfg, number)
    ensures longer == run + [Enter(1, number)] && Both(cfg, longer, s', f')
    ensures Twins(s', f', Calls(Some(Entered(cfg, s, number)), i, false), open, log) && f'.tasks[1].asked.UntilSyscall?
  {
    FastConfig(cfg);
    TwinsIdle(cfg, s, f);
    EnterStep(cfg, s, Enter(1, number), 1, number, i);
    EnterStep(Fast(cfg), f, Trap(1, number), 1, number, i);
    SeesEntry(cfg, f, 1, number);
    longer, s', f' := BothGo(cfg, run, s, f, Enter(1, number), Trap(1, number));
  }

  lemma TwinsLeave(cfg: Config, run: seq<Notice>, s: State, f: State, call: Call, i: Option<Call>, rval: nat,
                   open: set<int>, log: seq<Record>)
    returns (longer: seq<Notice>, s': State, f': State)
    requires Chooses(cfg)
    requires Both(cfg, run, s, f) && Twins(s, f, Calls(Some(call), i, false), open, log)
    requires f.tasks[1].asked.UntilSyscall?
    requires i.Some? ==> i.value.number != call.number
    ensures longer == run + [Leave(1, rval)] && Both(cfg, longer, s', f')
    ensures Twins(s', f', Calls(None, i, i.Some? && call.number == RT_SIGRETURN),
                  if Selected(cfg, call.number) then open - {1} else open, log + FinishLine(cfg, s, 1, call, rval))
  {
    FastConfig(cfg);
    TwinsIdle(cfg, s, f);
    LeaveStep(cfg, s, 1, call, i, rval);
    LeaveStep(Fast(cfg), f, 1, call, i, rval);
    longer, s', f' := BothGo(cfg, run, s, f, Leave(1, rval), Leave(1, rval));
  }

  function TheRead(cfg: Config): Call { Entered(cfg, Start(cfg), READ) }
  function FirstLines(): seq<Record> { [Printed(Unfinished(1, READ, [])), Printed(Plain(1, ALARM))] }

  /** A read is interrupted by a signal. */
  lemma TwinsInterrupted(cfg: Config) returns (run: seq<Notice>, s: State, f: State)
    requires Chooses(cfg)
    ensures run == [] + [Enter(1, READ)] + [Leave(1, -512)] + [Signal(1)] && Both(cfg, run, s, f)
    ensures Twins(s, f, Calls(None, Some(TheRead(cfg)), false), {1}, FirstLines())
  {
    FastConfig(cfg);
    s := Launched(cfg);
    f := FastStart(cfg);
    assert 1 in f.tasks;
    var read := Calls(None, Some(TheRead(cfg)), false);
    run, s, f := TwinsEnter(cfg, [], s, f, READ, None, {}, []);
    InterruptStep(cfg, s, 1, TheRead(cfg));
    InterruptStep(Fast(cfg), f, 1, TheRead(cfg));
    run, s, f := BothGo(cfg, run, s, f, Leave(1, -512), Leave(1, -512));
    run, s, f := TwinsSignal(cfg, run, s, f);
  }

  lemma TwinsSignal(cfg: Config, run: seq<Notice>, s: State, f: State)
    returns (longer: seq<Notice>, s': State, f': State)
    requires Chooses(cfg)
    requires Both(cfg, run, s, f) && Twins(s, f, Calls(None, Some(TheRead(cfg)), false), {}, [])
    ensures longer == run + [Signal(1)] && Both(cfg, longer, s', f')
    ensures Twins(s', f', Calls(None, Some(TheRead(cfg)), false), {1}, FirstLines())
  {
    FastConfig(cfg);
    TwinsIdle(cfg, s, f);
    SignalStep(cfg, s, 1, Calls(None, Some(TheRead(cfg)), false));
    SignalStep(Fast(cfg), f, 1, Calls(None, Some(TheRead(cfg)), false));
    longer, s', f' := BothGo(cfg, run, s, f, Signal(1), Signal(1));
  }

  /** The handler returns. */
  lemma TwinsReturned(cfg: Config) returns (run: seq<Notice>, s: State, f: State)
    requires Chooses(cfg)
    ensures run == [] + [Enter(1, READ)] + [Leave(1, -512)] + [Signal(1)] + [Enter(1, RT_SIGRETURN)] + [Leave(1, 0)]
    ensures Both(cfg, run, s, f)
    ensures Twins(s, f, Calls(None, Some(TheRead(cfg)), true), {1}, FirstLines())
  {
    run, s, f := TwinsInterrupted(cfg);
    var back := Entered(cfg, s, RT_SIGRETURN);
    run, s, f := TwinsEnter(cfg, run, s, f, RT_SIGRETURN, Some(TheRead(cfg)), {1}, FirstLines());
    run, s, f := TwinsLeave(cfg, run, s, f, back, Some(TheRead(cfg)), 0, {1}, FirstLines());
    assert FirstLines() + [] == FirstLines();
  }

  /** The handler returns and getpid is entered: the simple tracer takes that entry as proof of EINTR and
      prints the read, the fast one never sees it. */
  lemma RestartDiverges(cfg: Config) returns (run: seq<Notice>)
    requires Chooses(cfg)
    ensures run ==
            [] + [Enter(1, READ)] + [Leave(1, -512)] + [Signal(1)] + [Enter(1, RT_SIGRETURN)] + [Leave(1, 0)]
               + [Enter(1, GETPID)]
    ensures var r, q := After(cfg, Start(cfg), run), After(Fast(cfg), FastStart(cfg), View(cfg, run));
            && r.Running? && q.Running? && q.st.log == FirstLines()
            && r.st.log == FirstLines() + [Printed(Resumed(1, READ, -1, EINTR))]
  {
    var s, f;
    run, s, f := TwinsReturned(cfg);
    TwinsIdle(cfg, s, f);
    ExposeStep(cfg, s, 1, TheRead(cfg), GETPID);
    SeesEntry(cfg, f, 1, GETPID);
    run, s := SimpleGoes(cfg, run, s, f, Enter(1, GETPID));
  }

  function MoreLines(): seq<Record> { FirstLines() + [Printed(Resumed(1, WRITE, 5, 0))] }

  /** The handler has written and is in getpid when the task is killed: that call hides the interrupted
      read from the last flush of the simple tracer, but not from that of the fast one. */
  lemma SilentCallHides(cfg: Config) returns (run: seq<Notice>)
    requires Chooses(cfg)
    ensures run ==
            [] + [Enter(1, READ)] + [Leave(1, -512)] + [Signal(1)] + [Enter(1, WRITE)] + [Leave(1, 5)]
               + [Enter(1, GETPID)] + [Kill(1)]
    ensures var r, q := After(cfg, Start(cfg), run), After(Fast(cfg), FastStart(cfg), View(cfg, run));
            && r.Drained? && q.Drained?
            && r.st.log == MoreLines() + [Printed(Plain(1, ExitBody(9, true)))]
            && q.st.log == MoreLines() + [Printed(Unfinished(1, READ, []))] + [Printed(Plain(1, ExitBody(9, true)))]
  {
    FastConfig(cfg);
    var s, f;
    run, s, f := TwinsInterrupted(cfg);
    var write := Entered(cfg, s, WRITE);
    run, s, f := TwinsEnter(cfg, run, s, f, WRITE, Some(TheRead(cfg)), {1}, FirstLines());
    run, s, f := TwinsLeave(cfg, run, s, f, write, Some(TheRead(cfg)), 5, {1}, FirstLines());
    var getpid := Entered(cfg, s, GETPID);
    EnterStep(cfg, s, Enter(1, GETPID), 1, GETPID, Some(TheRead(cfg)));
    SeesEntry(cfg, f, 1, GETPID);
    run, s := SimpleGoes(cfg, run, s, f, Enter(1, GETPID));
    run := BothKilled(cfg, run, s, f, getpid);
  }

  lemma BothKilled(cfg: Config, run: seq<Notice>, s: State, f: State, getpid: Call) returns (longer: seq<Notice>)
    requires Chooses(cfg)
    requires Both(cfg, run, s, f) && s.tasks.Keys == {1} && f.tasks.Keys == {1} && s.open == {} && f.open == {}
    requires Holds(s, 1, Calls(Some(getpid), Some(TheRead(cfg)), false)) && getpid.number == GETPID
    requires Holds(f, 1, Calls(None, Some(TheRead(cfg)), false)) && s.log == MoreLines() && f.log == MoreLines()
    ensures longer == run + [Kill(1)]
    ensures var r, q := After(cfg, Start(cfg), longer), After(Fast(cfg), FastStart(cfg), View(cfg, longer));
            && r.Drained? && q.Drained?
            && r.st.log == MoreLines() + [Printed(Plain(1, ExitBody(9, true)))]
            && q.st.log == MoreLines() + [Printed(Unfinished(1, READ, []))] + [Printed(Plain(1, ExitBody(9, true)))]
  {
    FastConfig(cfg);
    longer := run + [Kill(1)];
    assert longer[..|run|] == run;
    assert View(cfg, longer) == View(cfg, run) + [Kill(1)];
    KilledHidden(cfg, s, getpid, TheRead(cfg));
    KilledShown(Fast(cfg), f, TheRead(cfg));
    Drains(cfg, Start(cfg), run, s, Kill(1));
    Drains(Fast(cfg), FastStart(cfg), View(cfg, run), f, Kill(1));
  }

  lemma KilledHidden(cfg: Config, s: State, getpid: Call, read: Call)
    requires Textual(cfg) && s.tasks.Keys == {1} && s.open == {} && !Selected(cfg, getpid.number)
    requires Holds(s, 1, Calls(Some(getpid), Some(read), false))
    ensures var r := Step(cfg, s, Kill(1));
            r.Next? && r.st.tasks == map[] && r.st.log == s.log + [Printed(Plain(1, ExitBody(9, true)))]
  {
    KillStep(cfg, s, 1, Calls(Some(getpid), Some(read), false));
    assert s.log + [] == s.log;
  }

  lemma KilledShown(cfg: Config, f: State, read: Call)
    requires Textual(cfg) && f.tasks.Keys == {1} && f.open == {} && Selected(cfg, read.number)
    requires Holds(f, 1, Calls(None, Some(read), false))
    ensures var r := Step(cfg, f, Kill(1));
            && r.Next? && r.st.tasks == map[]
            && r.st.log == f.log + [Printed(Unfinished(1, read.number, read.args))] + [Printed(Plain(1, ExitBody(9, true)))]
  {
    KillStep(cfg, f, 1, Calls(None, Some(read), false));
  }

  lemma Drains(cfg: Config, start: State, run: seq<Notice>, st: State, n: Notice)
    requires After(cfg, start, run) == Running(st) && Step(cfg, st, n).Next? && Step(cfg, st, n).st.tasks == map[]
    ensures var r := After(cfg, start, run + [n]); r.Drained? && r.st == Step(cfg, st, n).st
  {
    AfterMore(cfg, start, run, n);
  }

  // ----- two threads

  /** Thread 2 has been cloned; both sides hold these calls. */
  ghost predicate Pair(s: State, f: State, mine: Calls, theirs: Calls, other: Calls, log: seq<Record>) {
    && s.tasks.Keys == {1, 2} && f.tasks.Keys == {1, 2} && Holds(s, 1, mine) && Holds(f, 1, theirs)
    && Holds(s, 2, other) && Holds(f, 2, IDLE)
    && s.open == {} && f.open == {} && s.log == log && f.log == log
  }

  lemma PairSpawned(cfg: Config) returns (run: seq<Notice>, s: State, f: State)
    requires Chooses(cfg)
    ensures run == [] + [Enter(1, CLONE)] + [Spawn()] + [Birth()] + [Leave(1, 2)] && Both(cfg, run, s, f)
    ensures Pair(s, f, IDLE, IDLE, IDLE, [Printed(Plain(1, SPAWNED))])
    ensures f.tasks[1].asked.Continue?
  {
    FastConfig(cfg);
    s := Launched(cfg);
    f := FastStart(cfg);
    assert 1 in f.tasks;
    var clone := Entered(cfg, s, CLONE);
    EnterStep(cfg, s, Enter(1, CLONE), 1, CLONE, None);
    SeesEntry(cfg, f, 1, CLONE);
    run, s := SimpleGoes(cfg, [], s, f, Enter(1, CLONE));
    run, s, f := PairBorn(cfg, run, s, f, clone);
    run, s := PairLeaves(cfg, run, s, f, clone);
  }

  lemma PairLeaves(cfg: Config, run: seq<Notice>, s: State, f: State, clone: Call)
    returns (longer: seq<Notice>, s': State)
    requires Chooses(cfg) && Both(cfg, run, s, f) && clone.number == CLONE && f.tasks.Keys == {1, 2}
    requires Pair(s, f, Calls(Some(clone), None, false), IDLE, IDLE, [Printed(Plain(1, SPAWNED))])
    requires f.tasks[1].asked.Continue?
    ensures longer == run + [Leave(1, 2)] && Both(cfg, longer, s', f)
    ensures Pair(s', f, IDLE, IDLE, IDLE, [Printed(Plain(1, SPAWNED))])
  {
    LeaveStep(cfg, s, 1, clone, None, 2);
    longer, s' := SimpleGoes(cfg, run, s, f, Leave(1, 2));
  }

  lemma PairBorn(cfg: Config, run: seq<Notice>, s: State, f: State, clone: Call)
    returns (longer: seq<Notice>, s': State, f': State)
    requires Chooses(cfg)
    requires Both(cfg, run, s, f) && s.tasks.Keys == {1} && f.tasks.Keys == {1} && clone.number == CLONE
    requires Holds(s, 1, Calls(Some(clone), None, false)) && Holds(f, 1, IDLE)
    requires s.open == {} && f.open == {} && s.log == [] && f.log == []
    ensures longer == run + [Spawn()] + [Birth()] && Both(cfg, longer, s', f')
    ensures Pair(s', f', Calls(Some(clone), None, false), IDLE, IDLE, [Printed(Plain(1, SPAWNED))])
    ensures f'.tasks[1].asked.Continue?
  {
    FastConfig(cfg);
    SpawnStep(cfg, s, Calls(Some(clone), None, false));
    SpawnStep(Fast(cfg), f, IDLE);
    longer, s', f' := BothGo(cfg, run, s, f, Spawn(), Spawn());
    longer, s', f' := PairSettled(cfg, longer, s', f', clone);
  }

  lemma PairSettled(cfg: Config, run: seq<Notice>, s: State, f: State, clone: Call)
    returns (longer: seq<Notice>, s': State, f': State)
    requires Chooses(cfg)
    requires Both(cfg, run, s, f) && s.tasks.Keys == {1, 2} && f.tasks.Keys == {1, 2}
    requires Holds(s, 1, Calls(Some(clone), None, false)) && Holds(f, 1, IDLE)
    requires CallsOf(s.tasks[2]) == IDLE && s.tasks[2].newborn && CallsOf(f.tasks[2]) == IDLE && f.tasks[2].newborn
    requires s.open == {} && f.open == {} && s.log == f.log
    ensures longer == run + [Birth()] && Both(cfg, longer, s', f')
    ensures Pair(s', f', Calls(Some(clone), None, false), IDLE, IDLE, s.log) && f'.tasks[1] == f.tasks[1]
  {
    FastConfig(cfg);
    BirthStep(cfg, s);
    BirthStep(Fast(cfg), f);
    longer, s', f' := BothGo(cfg, run, s, f, Birth(), Birth());
    assert s.log + [] == s.log;
  }

  /** Task 1 sleeps, which is not selected, and is interrupted by a signal. */
  lemma PairAsleep(cfg: Config) returns (run: seq<Notice>, s: State, f: State, sleep: Call)
    requires Chooses(cfg)
    ensures run ==
            [] + [Enter(1, CLONE)] + [Spawn()] + [Birth()] + [Leave(1, 2)] + [Enter(1, NANOSLEEP)] + [Leave(1, -512)]
    ensures Both(cfg, run, s, f)
    ensures Pair(s, f, Calls(None, Some(sleep), false), IDLE, IDLE, [Printed(Plain(1, SPAWNED))])
    ensures sleep.number == NANOSLEEP
  {
    run, s, f := PairSpawned(cfg);
    run, s, sleep := PairSleeps(cfg, run, s, f);
    run, s := PairSetAside(cfg, run, s, f, sleep);
  }

  lemma PairSleeps(cfg: Config, run: seq<Notice>, s: State, f: State)
    returns (longer: seq<Notice>, s': State, sleep: Call)
    requires Chooses(cfg) && Both(cfg, run, s, f) && f.tasks.Keys == {1, 2} && f.tasks[1].asked.Continue?
    requires Pair(s, f, IDLE, IDLE, IDLE, [Printed(Plain(1, SPAWNED))])
    ensures longer == run + [Enter(1, NANOSLEEP)] && Both(cfg, longer, s', f) && sleep.number == NANOSLEEP
    ensures Pair(s', f, Calls(Some(sleep), None, false), IDLE, IDLE, [Printed(Plain(1, SPAWNED))])
  {
    sleep := Entered(cfg, s, NANOSLEEP);
    EnterStep(cfg, s, Enter(1, NANOSLEEP), 1, NANOSLEEP, None);
    SeesEntry(cfg, f, 1, NANOSLEEP);
    longer, s' := SimpleGoes(cfg, run, s, f, Enter(1, NANOSLEEP));
  }

  lemma PairSetAside(cfg: Config, run: seq<Notice>, s: State, f: State, sleep: Call)
    returns (longer: seq<Notice>, s': State)
    requires Chooses(cfg) && Both(cfg, run, s, f) && f.tasks.Keys == {1, 2} && f.tasks[1].asked.Continue?
    requires Pair(s, f, Calls(Some(sleep), None, false), IDLE, IDLE, [Printed(Plain(1, SPAWNED))])
    requires sleep.number == NANOSLEEP
    ensures longer == run + [Leave(1, -512)] && Both(cfg, longer, s', f)
    ensures Pair(s', f, Calls(None, Some(sleep), false), IDLE, IDLE, [Printed(Plain(1, SPAWNED))])
  {
    InterruptStep(cfg, s, 1, sleep);
    longer, s' := SimpleGoes(cfg, run, s, f, Leave(1, -512));
  }

  function PairLines(): seq<Record> { [Printed(Plain(1, SPAWNED)), Printed(Plain(1, ALARM))] }

  lemma PairSignalled(cfg: Config, run: seq<Notice>, s: State, f: State, sleep: Call)
    returns (longer: seq<Notice>, s': State, f': State)
    requires Chooses(cfg) && Both(cfg, run, s, f) && sleep.number == NANOSLEEP
    requires Pair(s, f, Calls(None, Some(sleep), false), IDLE, IDLE, [Printed(Plain(1, SPAWNED))])
    ensures longer == run + [Signal(1)] && Both(cfg, longer, s', f')
    ensures Pair(s', f', Calls(None, Some(sleep), false), IDLE, IDLE, PairLines())
  {
    FastConfig(cfg);
    SignalStep(cfg, s, 1, Calls(None, Some(sleep), false));
    SignalStep(Fast(cfg), f, 1, IDLE);
    longer, s', f' := BothGo(cfg, run, s, f, Signal(1), Signal(1));
    assert [Printed(Plain(1, SPAWNED))] + ([] + [Printed(Plain(1, ALARM))]) == PairLines();
  }

  lemma PairReturned(cfg: Config, run: seq<Notice>, s: State, f: State, sleep: Call)
    returns (longer: seq<Notice>, s': State, f': State)
    requires Chooses(cfg) && Both(cfg, run, s, f) && sleep.number == NANOSLEEP
    requires Pair(s, f, Calls(None, Some(sleep), false), IDLE, IDLE, PairLines())
    ensures longer == run + [Enter(1, RT_SIGRETURN)] + [Leave(1, 0)] && Both(cfg, longer, s', f')
    ensures Pair(s', f', Calls(None, Some(sleep), true), IDLE, IDLE, PairLines())
  {
    FastConfig(cfg);
    EnterStep(cfg, s, Enter(1, RT_SIGRETURN), 1, RT_SIGRETURN, Some(sleep));
    EnterStep(Fast(cfg), f, Trap(1, RT_SIGRETURN), 1, RT_SIGRETURN, None);
    SeesEntry(cfg, f, 1, RT_SIGRETURN);
    var mine, theirs := Entered(cfg, s, RT_SIGRETURN), Entered(Fast(cfg), f, RT_SIGRETURN);
    longer, s', f' := BothGo(cfg, run, s, f, Enter(1, RT_SIGRETURN), Trap(1, RT_SIGRETURN));
    LeaveStep(cfg, s', 1, mine, Some(sleep), 0);
    LeaveStep(Fast(cfg), f', 1, theirs, None, 0);
    longer, s', f' := BothGo(cfg, longer, s', f', Leave(1, 0), Leave(1, 0));
  }

  /** Thread 2 is in a write when task 1 resumes its sleep: the simple tracer announces the write, the
      fast one never sees the sleep. */
  lemma SilentRestartPrints(cfg: Config) returns (run: seq<Notice>)
    requires Chooses(cfg)
    ensures run ==
            [] + [Enter(1, CLONE)] + [Spawn()] + [Birth()] + [Leave(1, 2)] + [Enter(1, NANOSLEEP)]
               + [Leave(1, -512)] + [Signal(1)]
                      + [Enter(1, RT_SIGRETURN)] + [Leave(1, 0)] + [Enter(2, WRITE)] + [Enter(1, NANOSLEEP)]
    ensures var r, q := After(cfg, Start(cfg), run), After(Fast(cfg), FastStart(cfg), View(cfg, run));
            && r.Running? && q.Running? && q.st.log == PairLines()
            && r.st.log == PairLines() + [Printed(Unfinished(2, WRITE, []))]
  {
    var s, f, sleep;
    run, s, f, sleep := PairAsleep(cfg);
    run, s, f := PairSignalled(cfg, run, s, f, sleep);
    run, s, f := PairReturned(cfg, run, s, f, sleep);
    run, s, f := PairWrites(cfg, run, s, f, sleep);
  }

  lemma PairWrites(cfg: Config, run: seq<Notice>, s: State, f: State, sleep: Call)
    returns (longer: seq<Notice>, s': State, f': State)
    requires Chooses(cfg) && Both(cfg, run, s, f) && sleep.number == NANOSLEEP
    requires Pair(s, f, Calls(None, Some(sleep), true), IDLE, IDLE, PairLines())
    ensures longer == run + [Enter(2, WRITE)] + [Enter(1, NANOSLEEP)] && Both(cfg, longer, s', f')
    ensures f'.log == PairLines() && s'.log == PairLines() + [Printed(Unfinished(2, WRITE, []))]
  {
    FastConfig(cfg);
    EnterStep(cfg, s, Enter(2, WRITE), 2, WRITE, None);
    EnterStep(Fast(cfg), f, Trap(2, WRITE), 2, WRITE, None);
    SeesEntry(cfg, f, 2, WRITE);
    var write := Entered(cfg, s, WRITE);
    longer, s', f' := BothGo(cfg, run, s, f, Enter(2, WRITE), Trap(2, WRITE));
    RestartFlushing(cfg, s', 1, sleep, write);
    SeesEntry(cfg, f', 1, NANOSLEEP);
    longer, s' := SimpleGoes(cfg, longer, s', f', Enter(1, NANOSLEEP));
  }

  // ----- a traced call that restarts a silent one

  /** One task; the simple tracer holds these calls, the fast one those. */
  ghost predicate Single(s: State, f: State, mine: Calls, theirs: Calls, log: seq<Record>) {
    && s.tasks.Keys == {1} && f.tasks.Keys == {1} && Holds(s, 1, mine) && Holds(f, 1, theirs)
    && s.open == {} && f.open == {} && s.log == log && f.log == log
  }

  const ALARMED := [Printed(Plain(1, ALARM))]

  lemma Sleeping(cfg: Config) returns (run: seq<Notice>, s: State, f: State, sleep: Call)
    requires Chooses(cfg)
    ensures run == [] + [Enter(1, NANOSLEEP)] && Both(cfg, run, s, f)
    ensures Single(s, f, Calls(Some(sleep), None, false), IDLE, []) && sleep.number == NANOSLEEP
    ensures f.tasks[1].asked.Continue?
  {
    s := Launched(cfg);
    f := FastStart(cfg);
    assert 1 in f.tasks;
    sleep := Entered(cfg, s, NANOSLEEP);
    EnterStep(cfg, s, Enter(1, NANOSLEEP), 1, NANOSLEEP, None);
    SeesEntry(cfg, f, 1, NANOSLEEP);
    run, s := SimpleGoes(cfg, [], s, f, Enter(1, NANOSLEEP));
  }

  /** A sleep, which is not selected, is interrupted by a signal. */
  lemma SleepInterrupted(cfg: Config) returns (run: seq<Notice>, s: State, f: State, sleep: Call)
    requires Chooses(cfg)
    ensures run == [] + [Enter(1, NANOSLEEP)] + [Leave(1, -512)] + [Signal(1)] && Both(cfg, run, s, f)
    ensures Single(s, f, Calls(None, Some(sleep), false), IDLE, ALARMED) && sleep.number == NANOSLEEP
  {
    run, s, f, sleep := Sleeping(cfg);
    run, s := SleepSetAside(cfg, run, s, f, sleep);
    run, s, f := SleepSignalled(cfg, run, s, f, sleep);
  }

  lemma SleepSetAside(cfg: Config, run: seq<Notice>, s: State, f: State, sleep: Call)
    returns (longer: seq<Notice>, s': State)
    requires Chooses(cfg) && Both(cfg, run, s, f) && sleep.number == NANOSLEEP
    requires f.tasks.Keys == {1} && f.tasks[1].asked.Continue?
    requires Single(s, f, Calls(Some(sleep), None, false), IDLE, [])
    ensures longer == run + [Leave(1, -512)] && Both(cfg, longer, s', f)
    ensures Single(s', f, Calls(None, Some(sleep), false), IDLE, [])
  {
    FastConfig(cfg);
    InterruptStep(cfg, s, 1, sleep);
    longer, s' := SimpleGoes(cfg, run, s, f, Leave(1, -512));
  }

  /** The signal of a task that has nothing to announce. */
  lemma AloneSignalled(cfg: Config, st: State, c: Calls)
    requires Textual(cfg) && Holds(st, 1, c) && st.tasks.Keys == {1} && Unfinish(cfg, st, 1) == []
    ensures var r := Step(cfg, st, Signal(1));
            && r.Next? && r.st.tasks.Keys == {1} && Holds(r.st, 1, c) && r.st.open == st.open
            && r.st.log == st.log + [Printed(Plain(1, ALARM))]
  {
    SignalStep(cfg, st, 1, c);
    assert [] + [Printed(Plain(1, ALARM))] == [Printed(Plain(1, ALARM))];
  }

  lemma SleepSignalled(cfg: Config, run: seq<Notice>, s: State, f: State, sleep: Call)
    returns (longer: seq<Notice>, s': State, f': State)
    requires Chooses(cfg) && Both(cfg, run, s, f) && sleep.number == NANOSLEEP
    requires Single(s, f, Calls(None, Some(sleep), false), IDLE, [])
    ensures longer == run + [Signal(1)] && Both(cfg, longer, s', f')
    ensures Single(s', f', Calls(None, Some(sleep), false), IDLE, ALARMED)
  {
    FastConfig(cfg);
    AloneSignalled(cfg, s, Calls(None, Some(sleep), false));
    AloneSignalled(Fast(cfg), f, IDLE);
    longer, s', f' := BothGo(cfg, run, s, f, Signal(1), Signal(1));
    assert [] + [Printed(Plain(1, ALARM))] == ALARMED;
  }

  lemma SleepReturned(cfg: Config, run: seq<Notice>, s: State, f: State, sleep: Call)
    returns (longer: seq<Notice>, s': State, f': State)
    requires Chooses(cfg) && Both(cfg, run, s, f) && sleep.number == NANOSLEEP
    requires Single(s, f, Calls(None, Some(sleep), false), IDLE, ALARMED)
    ensures longer == run + [Enter(1, RT_SIGRETURN)] + [Leave(1, 0)] && Both(cfg, longer, s', f')
    ensures Single(s', f', Calls(None, Some(sleep), true), IDLE, ALARMED)
  {
    FastConfig(cfg);
    EnterStep(cfg, s, Enter(1, RT_SIGRETURN), 1, RT_SIGRETURN, Some(sleep));
    EnterStep(Fast(cfg), f, Trap(1, RT_SIGRETURN), 1, RT_SIGRETURN, None);
    SeesEntry(cfg, f, 1, RT_SIGRETURN);
    var mine, theirs := Entered(cfg, s, RT_SIGRETURN), Entered(Fast(cfg), f, RT_SIGRETURN);
    longer, s', f' := BothGo(cfg, run, s, f, Enter(1, RT_SIGRETURN), Trap(1, RT_SIGRETURN));
    longer, s', f' := SleepLeaves(cfg, longer, s', f', sleep, mine, theirs);
  }

  lemma SleepLeaves(cfg: Config, run: seq<Notice>, s: State, f: State, sleep: Call, mine: Call, theirs: Call)
    returns (longer: seq<Notice>, s': State, f': State)
    requires Chooses(cfg) && Both(cfg, run, s, f) && sleep.number == NANOSLEEP
    requires mine.number == RT_SIGRETURN && theirs.number == RT_SIGRETURN && f.tasks.Keys == {1}
    requires Single(s, f, Calls(Some(mine), Some(sleep), false), Calls(Some(theirs), None, false), ALARMED)
    requires f.tasks[1].asked.UntilSyscall?
    ensures longer == run + [Leave(1, 0)] && Both(cfg, longer, s', f')
    ensures Single(s', f', Calls(None, Some(sleep), true), IDLE, ALARMED)
  {
    FastConfig(cfg);
    LeaveStep(cfg, s, 1, mine, Some(sleep), 0);
    LeaveStep(Fast(cfg), f, 1, theirs, None, 0);
    longer, s', f' := BothGo(cfg, run, s, f, Leave(1, 0), Leave(1, 0));
  }

  /** Where restart_syscall is selected, the program calls it: the simple tracer takes that for the
      restart of the sleep and prints nothing, the fast one prints the call. */
  lemma TracedRestartPrints(cfg: Config) returns (run: seq<Notice>)
    requires Chooses(cfg) && RESTART_SYSCALL in cfg.filter.numbers
    ensures run == [] + [Enter(1, NANOSLEEP)] + [Leave(1, -512)] + [Signal(1)] + [Enter(1, RT_SIGRETURN)] + [Leave(1, 0)]
                      + [Enter(1, RESTART_SYSCALL)] + [Leave(1, 0)]
    ensures var r, q := After(cfg, Start(cfg), run), After(Fast(cfg), FastStart(cfg), View(cfg, run));
            && r.Running? && q.Running? && r.st.log == ALARMED
            && |q.st.log| == 2 && q.st.log[1].Printed? && q.st.log[1].line.Whole?
            && q.st.log[1].line.syscall.number == RESTART_SYSCALL
  {
    var s, f, sleep;
    run, s, f, sleep := SleepInterrupted(cfg);
    run, s, f := SleepReturned(cfg, run, s, f, sleep);
    run, s, f := SleepRestarted(cfg, run, s, f, sleep);
  }

  lemma SleepRestarted(cfg: Config, run: seq<Notice>, s: State, f: State, sleep: Call)
    returns (longer: seq<Notice>, s': State, f': State)
    requires Chooses(cfg) && RESTART_SYSCALL in cfg.filter.numbers && Both(cfg, run, s, f) && sleep.number == NANOSLEEP
    requires Single(s, f, Calls(None, Some(sleep), true), IDLE, ALARMED)
    ensures longer == run + [Enter(1, RESTART_SYSCALL)] + [Leave(1, 0)] && Both(cfg, longer, s', f')
    ensures s'.log == ALARMED && |f'.log| == 2 && f'.log[1].Printed? && f'.log[1].line.Whole?
    ensures f'.log[1].line.syscall.number == RESTART_SYSCALL
  {
    FastConfig(cfg);
    TwinsIdle(cfg, s, f);
    RestartStep(cfg, s, 1, sleep, RESTART_SYSCALL);
    EnterStep(Fast(cfg), f, Trap(1, RESTART_SYSCALL), 1, RESTART_SYSCALL, None);
    SeesEntry(cfg, f, 1, RESTART_SYSCALL);
    var call := Entered(Fast(cfg), f, RESTART_SYSCALL);
    longer, s', f' := BothGo(cfg, run, s, f, Enter(1, RESTART_SYSCALL), Trap(1, RESTART_SYSCALL));
    longer, s', f' := RestartLeaves(cfg, longer, s', f', sleep, call);
  }

  lemma RestartLeaves(cfg: Config, run: seq<Notice>, s: State, f: State, sleep: Call, call: Call)
    returns (longer: seq<Notice>, s': State, f': State)
    requires Chooses(cfg) && RESTART_SYSCALL in cfg.filter.numbers && Both(cfg, run, s, f) && sleep.number == NANOSLEEP
    requires call.number == RESTART_SYSCALL && f.tasks.Keys == {1}
    requires Single(s, f, Calls(Some(sleep), None, false), Calls(Some(call), None, false), ALARMED)
    requires f.tasks[1].asked.UntilSyscall?
    ensures longer == run + [Leave(1, 0)] && Both(cfg, longer, s', f')
    ensures s'.log == ALARMED && |f'.log| == 2 && f'.log[1].Printed? && f'.log[1].line.Whole?
    ensures f'.log[1].line.syscall.number == RESTART_SYSCALL
  {
    FastConfig(cfg);
    TwinsIdle(cfg, s, f);
    LeaveStep(cfg, s, 1, sleep, None, 0);
    LeaveStep(Fast(cfg), f, 1, call, None, 0);
    longer, s', f' := BothGo(cfg, run, s, f, Leave(1, 0), Leave(1, 0));
  }
}
