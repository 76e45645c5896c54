/** Every completed and selected call is reported exactly once, in the order of completion, in
    whichever of the three output forms is configured; and no restart pseudo-error is reported. */
module Reporting {
  import opened Bits
  import opened Events
  import opened TraceModel
  import Statistics

  /** A completed call that the configuration asks to be reported, with the place of its line. */
  datatype Report = Report(tid: int, syscall: SyscallEvent, line: Option<nat>)

  function ReportOf(cfg: Config, c: Closing): seq<Report> {
    if c.fate.Completed? && Selected(cfg, c.fate.syscall.number) then [Report(c.tid, c.fate.syscall, c.fate.line)]
    else []
  }

  /** The reportable calls in the order in which they completed. */
  function Reports(cfg: Config, closings: seq<Closing>): seq<Report> {
    if closings == [] then []
    else Reports(cfg, closings[..|closings| - 1]) + ReportOf(cfg, closings[|closings| - 1])
  }

  function Calls(reports: seq<Report>): (calls: seq<SyscallEvent>)
    ensures |calls| == |reports|
  {
    if reports == [] then [] else Calls(reports[..|reports| - 1]) + [reports[|reports| - 1].syscall]
  }

  /** The line completes a call. */
  predicate Completes(r: Record) {
    r.Printed? && (r.line.Resumed? || r.line.Whole? || (r.line.JsonLine? && r.line.event.body.SyscallBody?))
  }

  /** The result such a line shows. */
  function ShownResult(r: Record): int
    requires Completes(r)
  {
    match r.line
    case Resumed(_, _, result, _) => result
    case Whole(_, s) => s.result
    case JsonLine(event) => event.body.syscall.result
  }

  /** The places of the lines that complete a call. */
  function Completions(log: seq<Record>): (places: seq<nat>)
    ensures forall i :: 0 <= i < |places| ==> places[i] < |log| && Completes(log[places[i]])
  {
    if log == [] then []
    else Completions(log[..|log| - 1]) + (if Completes(log[|log| - 1]) then [|log| - 1] else [])
  }

  /** The line is the one of this call of `tid`: whole, resumed or as a record. */
  ghost predicate LineShows(r: Record, tid: int, s: SyscallEvent) {
    && Completes(r)
    && match r.line
       case Whole(who, shown) => who == tid && shown == s
       case Resumed(who, number, result, errorNumber) =>
         who == tid && number == s.number && result == s.result && errorNumber == s.errorNumber
       case JsonLine(event) => event.tid == tid && event.body.syscall == s && event.at == s.exitedAt
  }

  /** The completing lines are the reports, one for one and in order, each where its report says. */
  ghost predicate Matches(log: seq<Record>, reports: seq<Report>) {
    var places := Completions(log);
    && |places| == |reports|
    && forall i :: 0 <= i < |places| ==>
         reports[i].line == Some(places[i]) && LineShows(log[places[i]], reports[i].tid, reports[i].syscall)
  }

  ghost predicate NoPseudoErrors(closings: seq<Closing>) {
    forall i :: 0 <= i < |closings| && closings[i].fate.Completed? ==> !IsRestartResult(closings[i].fate.syscall.result)
  }

  /** The event counter counts the reports, and none of them carries a pseudo-error. */
  ghost predicate Tallied(cfg: Config, events: nat, closings: seq<Closing>) {
    events == |Reports(cfg, closings)| % TWO_64 && NoPseudoErrors(closings)
  }

  ghost predicate Reported(cfg: Config, st: State) {
    var reports := Reports(cfg, st.history.closings);
    && Tallied(cfg, st.events, st.history.closings)
    && (if cfg.summary then Statistics.RecordAll(Calls(reports)) == Some(st.stats) && st.log == [] && st.open == {}
        else st.stats == Statistics.EMPTY && Matches(st.log, reports))
  }

  // ----- one closing, one record at a time

  lemma ReportsMore(cfg: Config, closings: seq<Closing>, c: Closing)
    ensures Reports(cfg, closings + [c]) == Reports(cfg, closings) + ReportOf(cfg, c)
  {
    assert (closings + [c])[..|closings|] == closings;
  }

  lemma CallsMore(reports: seq<Report>, r: Report)
    ensures Calls(reports + [r]) == Calls(reports) + [r.syscall]
  {
    assert (reports + [r])[..|reports|] == reports;
  }

  lemma CompletionsMore(log: seq<Record>, r: Record)
    ensures Completions(log + [r]) == Completions(log) + (if Completes(r) then [|log|] else [])
  {
    assert (log + [r])[..|log|] == log;
  }

  /** The log grew by lines that complete nothing. */
  ghost predicate Quietly(a: seq<Record>, b: seq<Record>) {
    a <= b && Completions(b) == Completions(a)
  }

  lemma QuietMatches(a: seq<Record>, b: seq<Record>, reports: seq<Report>)
    requires Matches(a, reports) && Quietly(a, b)
    ensures Matches(b, reports)
  {
  }

  /** The event completes a call. */
  predicate IsDone(event: Event) { event.body.SyscallBody? && event.body.syscall.completed }

  lemma EmitQuiet(cfg: Config, st: State, event: Event)
    requires !IsDone(event)
    ensures Quietly(st.log, Emit(cfg, st, event).log)
    ensures cfg.summary ==> Emit(cfg, st, event) == st
  {
    var after := Emit(cfg, st, event);
    if after.log != st.log {
      var r := after.log[|st.log|];
      assert after.log == st.log + [r];
      CompletionsMore(st.log, r);
    }
  }

  lemma EmitDone(cfg: Config, st: State, event: Event)
    requires IsDone(event) && !cfg.summary && event.at == event.body.syscall.exitedAt
    ensures var after := Emit(cfg, st, event).log;
            && |after| == |st.log| + 1 && st.log <= after && LineShows(after[|st.log|], event.tid, event.body.syscall)
            && Completions(after) == Completions(st.log) + [|st.log|]
  {
    var after := Emit(cfg, st, event).log;
    assert after == st.log + [after[|st.log|]];
    CompletionsMore(st.log, after[|st.log|]);
  }

  lemma {:induction false} FlushQuietly(cfg: Config, st: State, except: int, order: seq<int>)
    ensures Quietly(st.log, FlushSlots(cfg, st, except, order).log)
    ensures Quietly(st.log, Flush(cfg, st, except, order).log)
    ensures cfg.summary ==> Flush(cfg, st, except, order) == st
  {
    if order != [] {
      FlushQuietly(cfg, st, except, order[..|order| - 1]);
      var before := FlushSlots(cfg, st, except, order[..|order| - 1]);
      var tid := order[|order| - 1];
      if tid in before.tasks && Held(before.tasks[tid]).Some? {
        EmitQuiet(cfg, before, Announcement(tid, before.tasks[tid], Held(before.tasks[tid]).value));
      }
    }
  }

  /** More lines that complete nothing leave everything reported. */
  lemma QuietReported(cfg: Config, a: State, b: State)
    requires Reported(cfg, a) && !cfg.summary && Quietly(a.log, b.log)
    requires a.events == b.events && a.stats == b.stats && a.history.closings == b.history.closings
    ensures Reported(cfg, b)
  {
    QuietMatches(a.log, b.log, Reports(cfg, a.history.closings));
  }

  /** A flush and an event that is not a completed call leave everything reported. */
  lemma AnnounceReported(cfg: Config, st: State, except: int, order: seq<int>, event: Event)
    requires Reported(cfg, st) && !IsDone(event)
    ensures Reported(cfg, Flush(cfg, st, except, order))
    ensures Reported(cfg, Emit(cfg, Flush(cfg, st, except, order), event))
  {
    var flushed := Flush(cfg, st, except, order);
    FlushQuietly(cfg, st, except, order);
    EmitQuiet(cfg, flushed, event);
    if !cfg.summary {
      QuietReported(cfg, st, flushed);
      QuietReported(cfg, flushed, Emit(cfg, flushed, event));
    }
  }

  lemma WriteReported(cfg: Config, st: State, tid: int, s: SyscallEvent, order: seq<int>, c: Closing)
    requires Reported(cfg, st) && tid in st.tasks
    requires s.completed && !IsRestartResult(s.result) && c.tid == tid
    requires var o := WriteSyscall(cfg, st, tid, s, order);
            o.Fine? ==> c.fate == Completed(s, LineOf(cfg, o.st, s.number))
    ensures var o := WriteSyscall(cfg, st, tid, s, order); o.Fine? ==> Reported(cfg, AddClosing(o.st, c))
  {
    if !Selected(cfg, s.number) {
      UnreportedClosing(cfg, st, c);
    } else if cfg.summary {
      if WriteSyscall(cfg, st, tid, s, order).Fine? { WriteCounted(cfg, st, tid, s, order, c); }
    } else {
      WritePrinted(cfg, st, tid, s, order, c);
    }
  }

  lemma WriteCounted(cfg: Config, st: State, tid: int, s: SyscallEvent, order: seq<int>, c: Closing)
    requires Reported(cfg, st) && tid in st.tasks && Selected(cfg, s.number) && cfg.summary
    requires !IsRestartResult(s.result) && c.fate.Completed? && c.fate.syscall == s
    ensures var o := WriteSyscall(cfg, st, tid, s, order); o.Fine? ==> Reported(cfg, AddClosing(o.st, c))
  {
    var o := WriteSyscall(cfg, st, tid, s, order);
    if o.Fine? {
      SummaryMore(Calls(Reports(cfg, st.history.closings)), s, st.stats, o.st.stats);
      CountedClosing(cfg, st, o.st, s, c);
    }
  }

  lemma WritePrinted(cfg: Config, st: State, tid: int, s: SyscallEvent, order: seq<int>, c: Closing)
    requires Reported(cfg, st) && tid in st.tasks && Selected(cfg, s.number) && !cfg.summary
    requires s.completed && !IsRestartResult(s.result) && c.tid == tid
    requires var o := WriteSyscall(cfg, st, tid, s, order);
            o.Fine? ==> c.fate == Completed(s, LineOf(cfg, o.st, s.number))
    ensures var o := WriteSyscall(cfg, st, tid, s, order); o.Fine? ==> Reported(cfg, AddClosing(o.st, c))
  {
    var counted := CountedState(cfg, st, tid, s, order);
    PrintedLine(cfg, counted, tid, s, order);
    PrintedClosing(cfg, st, WriteLine(cfg, counted, tid, s, order), s, c);
  }

  /** A selected call that is printed is first counted. */
  lemma CountedState(cfg: Config, st: State, tid: int, s: SyscallEvent, order: seq<int>) returns (counted: State)
    requires tid in st.tasks && Selected(cfg, s.number) && !cfg.summary
    ensures counted == st.(events := counted.events) && counted.events == (st.events + 1) % TWO_64
    ensures WriteSyscall(cfg, st, tid, s, order) == Fine(WriteLine(cfg, counted, tid, s, order))
  {
    counted := st.(events := (st.events + 1) % TWO_64);
  }

  lemma NoPseudoErrorsMore(closings: seq<Closing>, c: Closing)
    requires NoPseudoErrors(closings) && (c.fate.Completed? ==> !IsRestartResult(c.fate.syscall.result))
    ensures NoPseudoErrors(closings + [c])
  {
  }

  /** Nothing is reported for a discarded or an unselected call. */
  lemma UnreportedClosing(cfg: Config, st: State, c: Closing)
    requires Reported(cfg, st)
    requires c.fate.Completed? ==> !IsRestartResult(c.fate.syscall.result) && !Selected(cfg, c.fate.syscall.number)
    ensures Reported(cfg, AddClosing(st, c))
  {
    ReportsMore(cfg, st.history.closings, c);
    NoPseudoErrorsMore(st.history.closings, c);
    assert Reports(cfg, st.history.closings) + [] == Reports(cfg, st.history.closings);
  }

  lemma SummaryMore(calls: seq<SyscallEvent>, s: SyscallEvent, before: Statistics.Summary, after: Statistics.Summary)
    requires Statistics.RecordAll(calls) == Some(before) && Statistics.AddEvent(before, s) == Some(after)
    ensures Statistics.RecordAll(calls + [s]) == Some(after)
  {
    assert (calls + [s])[..|calls|] == calls;
  }

  lemma TalliedMore(cfg: Config, events: nat, closings: seq<Closing>, c: Closing)
    requires Tallied(cfg, events, closings) && c.fate.Completed? && !IsRestartResult(c.fate.syscall.result)
    requires Selected(cfg, c.fate.syscall.number)
    ensures Tallied(cfg, (events + 1) % TWO_64, closings + [c])
  {
    ReportsMore(cfg, closings, c);
    NoPseudoErrorsMore(closings, c);
    CountWraps(|Reports(cfg, closings)|);
  }

  lemma CountedClosing(cfg: Config, st: State, after: State, s: SyscallEvent, c: Closing)
    requires Reported(cfg, st) && after.history == st.history && cfg.summary && Selected(cfg, s.number)
    requires c.fate.Completed? && c.fate.syscall == s && !IsRestartResult(s.result)
    requires after.events == (st.events + 1) % TWO_64 && after.log == st.log && after.open == st.open
    requires Statistics.RecordAll(Calls(Reports(cfg, st.history.closings)) + [s]) == Some(after.stats)
    ensures Reported(cfg, AddClosing(after, c))
  {
    TalliedMore(cfg, st.events, st.history.closings, c);
    CallsMore(Reports(cfg, st.history.closings), Report(c.tid, s, c.fate.line));
    ReportsMore(cfg, st.history.closings, c);
  }

  /** What writing a call does to the log. */
  lemma PrintedLine(cfg: Config, st: State, tid: int, s: SyscallEvent, order: seq<int>)
    requires tid in st.tasks && s.completed && !cfg.summary
    ensures var after := WriteLine(cfg, st, tid, s, order).log;
            && after != [] && st.log <= after[..|after| - 1] && LineShows(after[|after| - 1], tid, s)
            && Completions(after) == Completions(st.log) + [|after| - 1]
  {
    var flushed := Flush(cfg, st, tid, order);
    FlushQuietly(cfg, st, tid, order);
    EmitDone(cfg, flushed, Event(tid, st.tasks[tid].tgid, s.exitedAt, SyscallBody(s)));
    var after := WriteLine(cfg, st, tid, s, order).log;
    assert after[..|after| - 1] == flushed.log;
  }

  lemma MatchesMore(a: seq<Record>, b: seq<Record>, reports: seq<Report>, r: Report)
    requires Matches(a, reports) && b != [] && a <= b[..|b| - 1]
    requires Completions(b) == Completions(a) + [|b| - 1]
    requires r.line == Some(|b| - 1) && LineShows(b[|b| - 1], r.tid, r.syscall)
    ensures Matches(b, reports + [r])
  {
    forall i | 0 <= i < |Completions(a)| ensures b[Completions(a)[i]] == a[Completions(a)[i]] {
      assert b[..|b| - 1][Completions(a)[i]] == b[Completions(a)[i]];
    }
  }

  lemma PrintedClosing(cfg: Config, st: State, after: State, s: SyscallEvent, c: Closing)
    requires Reported(cfg, st) && after.history == st.history && !cfg.summary && Selected(cfg, s.number)
    requires !IsRestartResult(s.result) && after.log != [] && c.fate == Completed(s, Some(|after.log| - 1))
    requires after.events == (st.events + 1) % TWO_64 && after.stats == st.stats
    requires st.log <= after.log[..|after.log| - 1] && LineShows(after.log[|after.log| - 1], c.tid, s)
    requires Completions(after.log) == Completions(st.log) + [|after.log| - 1]
    ensures Reported(cfg, AddClosing(after, c))
  {
    var reports := Reports(cfg, st.history.closings);
    ReportsMore(cfg, st.history.closings, c);
    TalliedMore(cfg, st.events, st.history.closings, c);
    MatchesMore(st.log, after.log, reports, Report(c.tid, s, c.fate.line));
  }

  lemma CountWraps(n: nat)
    ensures (n % TWO_64 + 1) % TWO_64 == (n + 1) % TWO_64
  {
  }

  /** The parts of the state that reporting depends on. */
  ghost predicate SameReport(a: State, b: State) {
    && a.events == b.events && a.stats == b.stats && a.log == b.log && a.open == b.open
    && a.history.closings == b.history.closings
  }

  lemma SameReported(cfg: Config, a: State, b: State)
    requires Reported(cfg, a) && SameReport(a, b)
    ensures Reported(cfg, b)
  {
  }

  lemma CompletePendingReported(cfg: Config, st: State, tid: int, result: int, errorNumber: int, at: Timespec,
                                order: seq<int>)
    requires Reported(cfg, st) && tid in st.tasks && st.tasks[tid].pending.Some? && !IsRestartResult(result)
    ensures var o := CompletePending(cfg, st, tid, result, errorNumber, at, order); o.Fine? ==> Reported(cfg, o.st)
  {
    var t := st.tasks[tid];
    var done := Finished(t.pending.value, result, errorNumber, at);
    var o := WriteSyscall(cfg, st, tid, done, order);
    if o.Fine? {
      WriteReported(cfg, st, tid, done, order,
                    Closing(t.pending.value.serial, t.task, tid, Completed(done, LineOf(cfg, o.st, done.number))));
    }
  }

  lemma CompleteInterruptedReported(cfg: Config, st: State, tid: int, result: int, errorNumber: int, at: Timespec,
                                    order: seq<int>)
    requires Reported(cfg, st) && tid in st.tasks && st.tasks[tid].interrupted.Some? && !IsRestartResult(result)
    ensures var o := CompleteInterrupted(cfg, st, tid, result, errorNumber, at, order); o.Fine? ==> Reported(cfg, o.st)
  {
    var t := st.tasks[tid];
    var done := Finished(t.interrupted.value, result, errorNumber, at);
    var o := WriteSyscall(cfg, st, tid, done, order);
    if o.Fine? {
      WriteReported(cfg, st, tid, done, order,
                    Closing(t.interrupted.value.serial, t.task, tid, Completed(done, LineOf(cfg, o.st, done.number))));
    }
  }

  lemma DropReported(cfg: Config, st: State, tid: int, reason: Reason)
    requires Reported(cfg, st) && tid in st.tasks
    ensures Reported(cfg, DropPending(st, tid, reason))
    ensures Reported(cfg, DropInterrupted(st, tid, reason))
  {
    var t := st.tasks[tid];
    if t.pending.Some? { UnreportedClosing(cfg, st, Closing(t.pending.value.serial, t.task, tid, Discarded(reason))); }
    if t.interrupted.Some? {
      UnreportedClosing(cfg, st, Closing(t.interrupted.value.serial, t.task, tid, Discarded(reason)));
    }
  }

  lemma RemoveTaskReported(cfg: Config, st: State, tid: int, reason: Reason)
    requires Reported(cfg, st) && tid in st.tasks
    ensures Reported(cfg, RemoveTask(st, tid, reason))
  {
    DropReported(cfg, st, tid, reason);
    DropReported(cfg, DropPending(st, tid, reason), tid, reason);
  }

  lemma BeginReported(cfg: Config, st: State, tid: int, number: nat, args: seq<int>, env: Env)
    requires Reported(cfg, st) && tid in st.tasks
    ensures var o := Begin(cfg, st, tid, number, args, env); o.Fine? ==> Reported(cfg, o.st)
  {
    if st.tasks[tid].pending.Some? {
      CompletePendingReported(cfg, st, tid, 0, 0, env.now, env.order);
    }
    var settled := SettleExec(cfg, st, tid, env);
    if settled.Fine? {
      var t := settled.st.tasks[tid];
      FlushReported(cfg, settled.st, tid, env.order);
      if !Restarts(t, number) {
        if t.interrupted.Some? && t.restartReady {
          CompleteInterruptedReported(cfg, settled.st, tid, -1, EINTR, env.now, env.order);
        }
        var exposed := ExposeEintr(cfg, settled.st, tid, env);
        if exposed.Fine? { FlushReported(cfg, exposed.st, tid, env.order); }
      }
    }
  }

  lemma FlushReported(cfg: Config, st: State, except: int, order: seq<int>)
    requires Reported(cfg, st)
    ensures Reported(cfg, Flush(cfg, st, except, order)) && OutputOnly(st, Flush(cfg, st, except, order))
  {
    FlushQuietly(cfg, st, except, order);
    if !cfg.summary { QuietReported(cfg, st, Flush(cfg, st, except, order)); }
  }

  lemma FinishReported(cfg: Config, st: State, tid: int, rval: int, isError: bool, env: Env)
    requires Reported(cfg, st) && tid in st.tasks
    ensures var o := Finish(cfg, st, tid, rval, isError, env); o.Fine? ==> Reported(cfg, o.st)
  {
    var t := st.tasks[tid];
    if t.pending.Some? {
      if IsRestartResult(rval) {
        DropReported(cfg, st, tid, Replaced);
        SameReported(cfg, DropInterrupted(st, tid, Replaced), SetAside(st, tid));
      } else {
        var errorNumber := ErrorNumber(rval, isError);
        var at := StampOf(cfg, t.pending.value.number, env.now);
        CompletePendingReported(cfg, st, tid, rval, errorNumber, at, env.order);
        var o := CompletePending(cfg, st, tid, rval, errorNumber, at, env.order);
        if o.Fine? { AfterCompletionReported(cfg, o.st, tid, t.pending.value.number); }
      }
    }
  }

  lemma AfterCompletionReported(cfg: Config, st: State, tid: int, number: int)
    requires Reported(cfg, st) && tid in st.tasks
    ensures Reported(cfg, AfterCompletion(st, tid, number))
  {
    DropReported(cfg, st, tid, Superseded);
    SameReported(cfg, st, SetTask(st, tid, st.tasks[tid].(restartReady := true)));
  }

  lemma RenameReported(cfg: Config, st: State, former: int, current: int)
    requires Reported(cfg, st)
    ensures Reported(cfg, RenameOpen(st, former, current))
  {
    if former != current && former in st.open {
      CompletionsMore(st.log, Renamed(former, current));
      QuietReported(cfg, st, RenameOpen(st, former, current));
    }
  }

  lemma TakeOverReported(cfg: Config, st: State, tid: int, former: int, source: Tracee)
    requires Reported(cfg, st)
    ensures Reported(cfg, TakeOver(st, tid, former, source))
  {
    var placed := SetTask(st, tid, source.(tgid := tid, newborn := false));
    SameReported(cfg, st, placed);
    RenameReported(cfg, placed, former, tid);
    SameReported(cfg, RenameOpen(placed, former, tid), TakeOver(st, tid, former, source));
  }

  lemma MigrateReported(cfg: Config, st: State, tid: int, former: int)
    requires Reported(cfg, st)
    ensures var o := MigrateExec(cfg, st, tid, former); o.Fine? ==> Reported(cfg, o.st)
  {
    if former != tid {
      if former in st.tasks {
        if tid in st.tasks { RemoveTaskReported(cfg, st, tid, LostAtExec); }
        var cleared := if tid in st.tasks then RemoveTask(st, tid, LostAtExec) else st;
        var moved := cleared.(tasks := cleared.tasks - {former});
        SameReported(cfg, cleared, moved);
        TakeOverReported(cfg, moved, tid, former, st.tasks[former]);
      } else if tid in st.tasks {
        TakeOverReported(cfg, st, tid, former, st.tasks[tid]);
      } else {
        var o := AddTask(st, tid, tid, cfg.mode.Attach?, false);
        if o.Fine? {
          SameReported(cfg, st, o.st);
          RenameReported(cfg, o.st, former, tid);
        }
      }
    }
  }

  lemma HandleChildReported(cfg: Config, st: State, tid: int, kind: ChildKind, child: nat, childTgid: int, env: Env)
    requires Reported(cfg, st) && tid in st.tasks
    ensures var o := HandleChild(cfg, st, tid, kind, child, childTgid, env); o.Fine? ==> Reported(cfg, o.st)
  {
    if child != 0 && child <= INT_MAX {
      var t := st.tasks[tid];
      var o := AddTask(st, child, if childTgid > 0 then childTgid else if kind.Clone? then t.tgid else child,
                       t.attached, true);
      if o.Fine? {
        assert SameReport(st, o.st);
        SameReported(cfg, st, o.st);
        var event := Event(tid, t.tgid, env.now, StartBody(child, kind));
        AnnounceReported(cfg, o.st, -1, env.order, event);
        assert HandleChild(cfg, st, tid, kind, child, childTgid, env) ==
               Fine(Emit(cfg, Flush(cfg, o.st, -1, env.order), event));
      }
    }
  }

  lemma HandleSignalReported(cfg: Config, st: State, tid: int, signal: int, info: SigInfo, env: Env)
    requires Reported(cfg, st) && tid in st.tasks
    ensures var r := HandleSignal(cfg, st, tid, signal, info, env); r.Handled? ==> Reported(cfg, r.st)
  {
    var t := st.tasks[tid];
    if t.newborn && signal == SIGSTOP {
      SameReported(cfg, st, HandleSignal(cfg, st, tid, signal, info, env).st);
    } else if info.Info? {
      var marked := SetTask(st, tid, t.(newborn := false, pendingSignal := signal));
      SameReported(cfg, st, marked);
      AnnounceReported(cfg, marked, -1, env.order,
                       Event(tid, t.tgid, env.now, SignalBody(info.signo, info.code, FaultAddress(info))));
    }
  }

  lemma HandleExecReported(cfg: Config, st: State, tid: int, env: Env)
    requires Reported(cfg, st) && tid in st.tasks
    ensures var o := HandleExec(cfg, st, tid, env); o.Fine? ==> Reported(cfg, o.st)
  {
    var seen := if tid == st.root.tid then st.(root := st.root.(execObserved := true)) else st;
    SameReported(cfg, st, seen);
    if seen.tasks[tid].pending.Some? { CompletePendingReported(cfg, seen, tid, 0, 0, env.now, env.order); }
  }

  lemma HandleStopReported(cfg: Config, st: State, n: Notice)
    requires Reported(cfg, st) && n.tid in st.tasks
    ensures var r := HandleStop(cfg, st, n); r.Handled? ==> Reported(cfg, r.st)
  {
    var stopped := SetTask(st, n.tid, st.tasks[n.tid].(inStop := true));
    SameReported(cfg, st, stopped);
    match n.what
    case SyscallEntry(number, args) => BeginReported(cfg, stopped, n.tid, number, args, n.env);
    case SyscallExit(rval, isError) => FinishReported(cfg, stopped, n.tid, rval, isError, n.env);
    case SeccompStop(number, args) => BeginReported(cfg, stopped, n.tid, number, args, n.env);
    case ExecStop(_) => HandleExecReported(cfg, stopped, n.tid, n.env);
    case ChildStop(kind, child, childTgid) =>
      HandleChildReported(cfg, stopped, n.tid, kind, child, childTgid, n.env);
    case SignalStop(signal, info) => HandleSignalReported(cfg, stopped, n.tid, signal, info, n.env);
    case _ =>
  }

  lemma BuryReported(cfg: Config, st: State, n: Notice)
    requires Reported(cfg, st) && n.tid in st.tasks && (n.what.Exited? || n.what.Killed?)
    ensures var o := Bury(cfg, st, n); o.Fine? ==> Reported(cfg, o.st)
  {
    var code := if n.what.Exited? then n.what.code else n.what.signal;
    AnnounceReported(cfg, st, -1, n.env.order,
                     Event(n.tid, st.tasks[n.tid].tgid, n.env.now, ExitBody(code, n.what.Killed?)));
    var written := WriteExit(cfg, st, n);
    SameReported(cfg, written, RecordStatus(written, n));
    RemoveTaskReported(cfg, RecordStatus(written, n), n.tid, LostAtExit);
  }

  lemma ResumeReported(cfg: Config, st: State, tid: int, signal: int, listen: bool, env: Env)
    requires Reported(cfg, st)
    ensures var r := Resume(cfg, st, tid, signal, listen, env); !r.Abort? ==> Reported(cfg, r.st)
  {
    var r := Resume(cfg, st, tid, signal, listen, env);
    if !r.Abort? { SameReported(cfg, st, r.st); }
  }

  lemma AdmitReported(cfg: Config, st: State, n: Notice)
    requires Reported(cfg, st)
    ensures var o := Admit(cfg, st, n); o.Fine? ==> Reported(cfg, o.st)
  {
    if n.what.ExecStop? { MigrateReported(cfg, st, n.tid, n.what.former); }
    var known := if n.what.ExecStop? then MigrateExec(cfg, st, n.tid, n.what.former) else Fine(st);
    var o := Admit(cfg, st, n);
    if known.Fine? && o.Fine? { SameReported(cfg, known.st, o.st); }
  }

  lemma StepReported(cfg: Config, st: State, n: Notice)
    requires Reported(cfg, st)
    ensures var r := Step(cfg, st, n); !r.Abort? ==> Reported(cfg, r.st)
  {
    if !n.what.WaitInterrupted? {
      AdmitReported(cfg, st, n);
      var o := Admit(cfg, st, n);
      if o.Fine? && n.tid in o.st.tasks {
        if n.what.Continued? {
          SameReported(cfg, o.st, SetTask(o.st, n.tid, o.st.tasks[n.tid].(inStop := false)));
        } else if n.what.Exited? || n.what.Killed? {
          BuryReported(cfg, o.st, n);
        } else {
          HandleStopReported(cfg, o.st, n);
          var h := HandleStop(cfg, o.st, n);
          if h.Handled? { ResumeReported(cfg, h.st, n.tid, h.signal, h.listen, n.env); }
        }
      }
    }
  }

  lemma AdvanceReported(cfg: Config, st: State, n: Notice)
    requires Reported(cfg, st)
    ensures var r := Advance(cfg, Running(st), n); !r.Aborted? ==> Reported(cfg, r.st)
  {
    StepReported(cfg, st, n);
  }

  /** Over every run: each selected completed call is printed or counted once and in order, the
      counter agrees, and none carries a restart pseudo-error. */
  lemma {:induction false} RunReported(cfg: Config, st: State, run: seq<Notice>)
    requires Reported(cfg, st)
    ensures var r := After(cfg, st, run); !r.Aborted? ==> Reported(cfg, r.st)
  {
    if run != [] {
      RunReported(cfg, st, run[..|run| - 1]);
      var r := After(cfg, st, run[..|run| - 1]);
      if r.Running? { AdvanceReported(cfg, r.st, run[|run| - 1]); }
    }
  }

  // ----- what the invariant says about single lines and closings

  lemma {:induction false} ReportFrom(cfg: Config, closings: seq<Closing>, j: nat) returns (i: nat)
    requires j < |Reports(cfg, closings)|
    ensures i < |closings| && ReportOf(cfg, closings[i]) == [Reports(cfg, closings)[j]]
  {
    var n := |closings| - 1;
    if j < |Reports(cfg, closings[..n])| {
      i := ReportFrom(cfg, closings[..n], j);
    } else {
      i := n;
    }
  }

  lemma {:induction false} ReportAt(cfg: Config, closings: seq<Closing>, i: nat) returns (j: nat)
    requires i < |closings| && ReportOf(cfg, closings[i]) != []
    ensures j < |Reports(cfg, closings)| && [Reports(cfg, closings)[j]] == ReportOf(cfg, closings[i])
  {
    var n := |closings| - 1;
    if i < n {
      j := ReportAt(cfg, closings[..n], i);
    } else {
      j := |Reports(cfg, closings[..n])|;
    }
  }

  lemma {:induction false} CompletionAt(log: seq<Record>, k: nat) returns (j: nat)
    requires k < |log| && Completes(log[k])
    ensures j < |Completions(log)| && Completions(log)[j] == k
  {
    var n := |log| - 1;
    if k < n {
      j := CompletionAt(log[..n], k);
    } else {
      j := |Completions(log[..n])|;
    }
  }

  /** The closing belongs to the completing line `k`. */
  ghost predicate Owns(cfg: Config, log: seq<Record>, c: Closing, k: nat) {
    && k < |log| && c.fate.Completed? && Selected(cfg, c.fate.syscall.number) && c.fate.line == Some(k)
    && LineShows(log[k], c.tid, c.fate.syscall)
  }

  /** Every completing line belongs to a closing. */
  lemma LineHasClosing(cfg: Config, st: State, k: nat) returns (i: nat)
    requires Reported(cfg, st) && k < |st.log| && Completes(st.log[k])
    ensures i < |st.history.closings| && Owns(cfg, st.log, st.history.closings[i], k)
  {
    var j := CompletionAt(st.log, k);
    i := ReportFrom(cfg, st.history.closings, j);
  }

  /** Every selected completed call has its line. */
  lemma ClosingHasLine(cfg: Config, st: State, i: nat) returns (k: nat)
    requires Reported(cfg, st) && !cfg.summary && i < |st.history.closings|
    requires var fate := st.history.closings[i].fate; fate.Completed? && Selected(cfg, fate.syscall.number)
    ensures Owns(cfg, st.log, st.history.closings[i], k)
  {
    var j := ReportAt(cfg, st.history.closings, i);
    k := Completions(st.log)[j];
  }

  /** No completing line shows a restart pseudo-error. */
  lemma LineIsReal(cfg: Config, st: State, k: nat)
    requires Reported(cfg, st) && k < |st.log| && Completes(st.log[k])
    ensures !IsRestartResult(ShownResult(st.log[k]))
  {
    var i := LineHasClosing(cfg, st, k);
  }

  /** No reported call carries one. */
  lemma CallIsReal(cfg: Config, closings: seq<Closing>, j: nat)
    requires NoPseudoErrors(closings) && j < |Reports(cfg, closings)|
    ensures !IsRestartResult(Reports(cfg, closings)[j].syscall.result)
  {
    var i := ReportFrom(cfg, closings, j);
  }
}
