/** What holds in every reachable state, from the moment tracing starts. */
module Theorems {
  import opened Bits
  import opened Events
  import opened TraceModel
  import Statistics
  import Conservation
  import Reporting
  import Protocol
  import Lifecycle
  import Interleaving
  import Naming
  import Ledger
  import Turns
  import Chronicle

  /** The states in which the loop is entered. */
  ghost predicate Begins(cfg: Config, st: State) {
    if cfg.mode.Launch? then exists root :: root > 0 && st == LaunchState(cfg, root)
    else exists pid, tids :: AttachState(pid, tids) == Fine(st)
  }

  /** Nothing has been entered, printed or counted yet. */
  ghost predicate Fresh(st: State) {
    && st.log == [] && st.open == {} && st.stats == Statistics.EMPTY && st.events == 0
    && st.history.entries == [] && st.history.closings == []
    && forall tid | tid in st.tasks ::
         && tid > 0 && st.tasks[tid].pending.None? && st.tasks[tid].interrupted.None? && !st.tasks[tid].restartReady
  }

  lemma {:induction false} AttachFresh(pid: int, tids: seq<int>)
    ensures AttachState(pid, tids).Fine? ==> Fresh(AttachState(pid, tids).st)
  {
    if tids != [] { AttachFresh(pid, tids[..|tids| - 1]); }
  }

  lemma BeginsFresh(cfg: Config, st: State)
    requires Begins(cfg, st)
    ensures Fresh(st)
  {
    if cfg.mode.Attach? {
      var pid, tids :| AttachState(pid, tids) == Fine(st);
      AttachFresh(pid, tids);
    }
  }

  lemma BeginsBalanced(cfg: Config, st: State)
    requires Begins(cfg, st)
    ensures Conservation.Balanced(st)
  {
    if cfg.mode.Launch? {
      var root :| root > 0 && st == LaunchState(cfg, root);
      Conservation.LaunchBalanced(cfg, root);
    } else {
      var pid, tids :| AttachState(pid, tids) == Fine(st);
      Conservation.AttachBalanced(pid, tids);
    }
  }

  lemma BeginsSound(cfg: Config, st: State)
    requires Begins(cfg, st)
    ensures Lifecycle.Sound(cfg, st)
  {
    if cfg.mode.Launch? {
      var root :| root > 0 && st == LaunchState(cfg, root);
      Lifecycle.LaunchSound(cfg, root);
    } else {
      var pid, tids :| AttachState(pid, tids) == Fine(st);
      Lifecycle.AttachSound(cfg, pid, tids);
    }
  }

  lemma FreshOrderly(cfg: Config, st: State)
    requires Fresh(st)
    ensures Interleaving.Orderly(cfg, st) && forall u :: Naming.Sincere(cfg, st, u)
  {
    assert Protocol.Outstanding(st.log) == map[];
    forall tid | tid in st.tasks ensures Interleaving.PlainTask(cfg, st, tid) {}
  }

  /** Every fresh entry has been completed or discarded exactly once or is still held by exactly one
      task; what was completed carries the number and arguments entered; and a task is ready for a
      restart only while it holds an interrupted call and no other. */
  lemma EveryEntryAccounted(cfg: Config, start: State, run: seq<Notice>)
    requires Begins(cfg, start)
    ensures var r := After(cfg, start, run);
            !r.Aborted? ==>
              var h := r.st.history;
              && |h.entries| == |h.closings| + |Conservation.HeldSerials(r.st)|
              && Conservation.HeldSerials(r.st) !! Conservation.ClosedSerials(h.closings)
              && (forall i, j :: 0 <= i < j < |h.closings| ==> h.closings[i].serial != h.closings[j].serial)
              && (forall i :: 0 <= i < |h.closings| ==> Conservation.Faithful(h, h.closings[i]))
              && (forall a, b, s: nat | a in r.st.tasks && b in r.st.tasks ::
                    Conservation.Holds(r.st.tasks[a], s) && Conservation.Holds(r.st.tasks[b], s) ==> a == b)
              && (forall tid | tid in r.st.tasks && r.st.tasks[tid].restartReady ::
                    r.st.tasks[tid].interrupted.Some? && r.st.tasks[tid].pending.None?)
  {
    BeginsBalanced(cfg, start);
    Conservation.RunBalanced(cfg, start, run);
    var r := After(cfg, start, run);
    if !r.Aborted? {
      Conservation.EntriesConserved(r.st);
      forall tid | tid in r.st.tasks ensures Conservation.GoodTask(r.st.history, r.st.tasks[tid]) {}
    }
  }

  /** Whatever the kernel returns, no line and no statistics row stems from a restart pseudo-error, and
      what is printed or counted is exactly the selected completed calls, in order. */
  lemma NoPseudoErrorEscapes(cfg: Config, start: State, run: seq<Notice>)
    requires Begins(cfg, start)
    ensures var r := After(cfg, start, run);
            !r.Aborted? ==>
              var reports := Reporting.Reports(cfg, r.st.history.closings);
              && (forall j :: 0 <= j < |reports| ==> !IsRestartResult(reports[j].syscall.result))
              && (forall k :: 0 <= k < |r.st.log| && Reporting.Completes(r.st.log[k]) ==>
                    !IsRestartResult(Reporting.ShownResult(r.st.log[k])))
              && (if cfg.summary then Statistics.RecordAll(Reporting.Calls(reports)) == Some(r.st.stats) && r.st.log == []
                  else Reporting.Matches(r.st.log, reports))
              && r.st.events == |reports| % TWO_64
  {
    BeginsFresh(cfg, start);
    Reporting.RunReported(cfg, start, run);
    var r := After(cfg, start, run);
    if !r.Aborted? {
      var reports := Reporting.Reports(cfg, r.st.history.closings);
      forall j | 0 <= j < |reports| ensures !IsRestartResult(reports[j].syscall.result) {
        Reporting.CallIsReal(cfg, r.st.history.closings, j);
      }
      forall k | 0 <= k < |r.st.log| && Reporting.Completes(r.st.log[k])
        ensures !IsRestartResult(Reporting.ShownResult(r.st.log[k]))
      {
        Reporting.LineIsReal(cfg, r.st, k);
      }
    }
  }

  /** The line `k` is that of the closing `i`, whose entry has the number and arguments shown. */
  ghost predicate LineOfClosing(cfg: Config, st: State, k: nat, i: nat) {
    && i < |st.history.closings| && k < |st.log|
    && var c := st.history.closings[i];
    && Reporting.Owns(cfg, st.log, c, k)
    && c.serial < |st.history.entries|
    && st.history.entries[c.serial].task == c.task
    && st.history.entries[c.serial].number == c.fate.syscall.number
    && st.history.entries[c.serial].args == c.fate.syscall.args
    && st.history.entries[c.serial].at == c.fate.syscall.enteredAt
  }

  /** Lines and completed calls belong together: every line that completes a call is the line of a
      closing, and every selected completed call has its line. */
  lemma EveryLineAttributed(cfg: Config, start: State, run: seq<Notice>)
    requires Begins(cfg, start) && !cfg.summary
    ensures var r := After(cfg, start, run);
            !r.Aborted? ==>
              && (forall k :: 0 <= k < |r.st.log| && Reporting.Completes(r.st.log[k]) ==>
                    exists i: nat :: LineOfClosing(cfg, r.st, k, i))
              && (forall i :: 0 <= i < |r.st.history.closings| && Reporting.ReportOf(cfg, r.st.history.closings[i]) != [] ==>
                    exists k: nat :: LineOfClosing(cfg, r.st, k, i))
  {
    BeginsFresh(cfg, start);
    BeginsBalanced(cfg, start);
    Reporting.RunReported(cfg, start, run);
    Conservation.RunBalanced(cfg, start, run);
    var r := After(cfg, start, run);
    if !r.Aborted? {
      forall k | 0 <= k < |r.st.log| && Reporting.Completes(r.st.log[k])
        ensures exists i: nat :: LineOfClosing(cfg, r.st, k, i)
      {
        var i := Reporting.LineHasClosing(cfg, r.st, k);
        assert Conservation.Faithful(r.st.history, r.st.history.closings[i]);
        assert LineOfClosing(cfg, r.st, k, i);
      }
      forall i | 0 <= i < |r.st.history.closings| && Reporting.ReportOf(cfg, r.st.history.closings[i]) != []
        ensures exists k: nat :: LineOfClosing(cfg, r.st, k, i)
      {
        var k := Reporting.ClosingHasLine(cfg, r.st, i);
        assert Conservation.Faithful(r.st.history, r.st.history.closings[i]);
        assert LineOfClosing(cfg, r.st, k, i);
      }
    }
  }

  /** The unfinished and resumed lines of every run follow the protocol, and the writer's list is the
      set of announcements outstanding. */
  lemma AnnouncementsBalance(cfg: Config, start: State, run: seq<Notice>)
    requires Begins(cfg, start)
    ensures var r := After(cfg, start, run);
            !r.Aborted? ==> Protocol.Legal(r.st.log) && Protocol.Outstanding(r.st.log).Keys == r.st.open
  {
    BeginsFresh(cfg, start);
    Protocol.RunDisciplined(cfg, start, run);
  }

  /** At every loop head each tracked task runs or listens, unless the kernel said it is gone; each
      newborn's SIGSTOP is swallowed at most once; and a launched root is tracked or has its status
      recorded. */
  lemma NobodyStuck(cfg: Config, start: State, run: seq<Notice>)
    requires Begins(cfg, start)
    ensures var r := After(cfg, start, run);
            !r.Aborted? ==>
              && (forall tid | tid in r.st.tasks && r.st.tasks[tid].inStop ::
                    var last := Lifecycle.LastFor(r.st.history.requests, tid);
                    last.Some? && last.value.task == r.st.tasks[tid].task && last.value.gone)
              && (forall i, j :: 0 <= i < j < |r.st.history.suppressed| ==>
                    r.st.history.suppressed[i] != r.st.history.suppressed[j])
              && (cfg.mode.Launch? ==> r.st.root.tid in r.st.tasks || r.st.root.status.Some?)
  {
    BeginsSound(cfg, start);
    Lifecycle.RunSound(cfg, start, run);
    var r := After(cfg, start, run);
    if !r.Aborted? {
      forall tid | tid in r.st.tasks ensures Lifecycle.Attended(r.st.history, tid, r.st.tasks[tid]) {
        assert Lifecycle.GoodEntry(cfg, r.st.history, tid, r.st.tasks[tid]);
      }
    }
  }

  /** The unsplit line `k` is that of a closing, and nothing was printed since the entry it closes. */
  ghost predicate Undisturbed(cfg: Config, st: State, k: nat, i: nat) {
    && LineOfClosing(cfg, st, k, i)
    && Interleaving.QuietSince(st.log[..k], st.history.entries[st.history.closings[i].serial].mark)
  }

  /** As long as no selected call is set aside by a restart pseudo-error: every call printed in one
      unsplit line had no line of any task printed since its entry, and never are two selected calls
      unannounced at once. */
  lemma UnsplitMeansUndisturbed(cfg: Config, start: State, run: seq<Notice>)
    requires Begins(cfg, start) && Interleaving.TextOutput(cfg)
    requires Interleaving.TameRun(cfg, start, run) && Interleaving.Covered(cfg, start, run)
    ensures var r := After(cfg, start, run);
            !r.Aborted? ==>
              && (forall k :: 0 <= k < |r.st.log| && r.st.log[k].Printed? && r.st.log[k].line.Whole? ==>
                    exists i: nat :: Undisturbed(cfg, r.st, k, i))
              && (forall a, b :: Interleaving.Unannounced(cfg, r.st, a) && Interleaving.Unannounced(cfg, r.st, b) ==>
                    a == b)
  {
    BeginsFresh(cfg, start);
    FreshOrderly(cfg, start);
    Interleaving.RunOrderly(cfg, start, run);
    EveryLineAttributed(cfg, start, run);
    var r := After(cfg, start, run);
    if !r.Aborted? {
      forall k | 0 <= k < |r.st.log| && r.st.log[k].Printed? && r.st.log[k].line.Whole?
        ensures exists i: nat :: Undisturbed(cfg, r.st, k, i)
      {
        WholeUndisturbed(cfg, r.st, k);
      }
    }
  }

  lemma WholeUndisturbed(cfg: Config, st: State, k: nat)
    requires Interleaving.Orderly(cfg, st) && k < |st.log| && st.log[k].Printed? && st.log[k].line.Whole?
    requires exists i: nat :: LineOfClosing(cfg, st, k, i)
    ensures exists i: nat :: Undisturbed(cfg, st, k, i)
  {
    var i: nat :| LineOfClosing(cfg, st, k, i);
    assert Interleaving.Unsplit(st, st.history.closings[i]);
    assert Undisturbed(cfg, st, k, i);
  }

  /** For every TID that itself had no selected call set aside and took no part in a TID-changing exec,
      whatever other tasks did: each of its resumed lines names the call of its unfinished line. */
  lemma ResumedNamesAnnounced(cfg: Config, start: State, run: seq<Notice>, u: int)
    requires Begins(cfg, start) && Interleaving.TextOutput(cfg) && Naming.TameFor(cfg, start, run, u)
    ensures var r := After(cfg, start, run); !r.Aborted? ==> Naming.NamesAgree(r.st.log, u)
  {
    BeginsFresh(cfg, start);
    FreshOrderly(cfg, start);
    Naming.RunSincere(cfg, start, run, u);
  }

  /** The call of the closing `i` was entered at the stop of turn `a`, which gave its number and arguments,
      and ended at the stop of the later turn `b`, which gave its result and errno. */
  ghost predicate CallOf(cfg: Config, start: State, run: seq<Notice>, h: History, i: nat, a: nat, b: nat) {
    && i < |h.closings| && h.closings[i].serial < |h.entries| && a < b
    && Ledger.EnteredIn(cfg, start, run, a, Ledger.ArrivalsOf(h.entries)[h.closings[i].serial])
    && Ledger.ReturnedIn(cfg, start, run, b, Ledger.EndingOf(h.closings[i]))
  }

  /** The books of a run are what its notices tell: the entries its entry stops report, the closings its
      exits, execs and deaths bring, and the requests its stops call for, each in order. */
  lemma BooksToldByNotices(cfg: Config, start: State, run: seq<Notice>)
    requires Begins(cfg, start)
    ensures var r := After(cfg, start, run);
            !r.Aborted? ==>
              && Ledger.ArrivalsOf(r.st.history.entries) == Ledger.Arrivals(cfg, start, run)
              && Ledger.EndingsOf(r.st.history.closings) == Ledger.AllEnds(cfg, start, run)
              && r.st.history.requests == start.history.requests + Turns.AllRequests(cfg, start, run)
              && (forall i :: 0 <= i < |r.st.history.closings| && r.st.history.closings[i].fate.Completed? ==>
                    exists a: nat, b: nat :: CallOf(cfg, start, run, r.st.history, i, a, b))
  {
    BeginsFresh(cfg, start);
    BeginsBalanced(cfg, start);
    Ledger.RunTold(cfg, start, run);
    Turns.RunRequested(cfg, start, run);
    var r := After(cfg, start, run);
    if !r.Aborted? {
      forall i | 0 <= i < |r.st.history.closings| && r.st.history.closings[i].fate.Completed?
        ensures exists a: nat, b: nat :: CallOf(cfg, start, run, r.st.history, i, a, b)
      {
        var a, b := Ledger.CallTold(cfg, start, run, i);
        assert CallOf(cfg, start, run, r.st.history, i, a, b);
      }
    }
  }

  /** What is printed is what the kernel said: a line that completes a call shows the number and arguments
      of an entry stop, and the result and errno of the stop that ended the call; the remarks are those that
      the notices ask for, in order; and every announcement is of a call that was entered. */
  lemma LinesToldByNotices(cfg: Config, start: State, run: seq<Notice>)
    requires Begins(cfg, start) && !cfg.summary
    ensures var r := After(cfg, start, run);
            !r.Aborted? ==>
              && (forall k :: 0 <= k < |r.st.log| && Reporting.Completes(r.st.log[k]) ==>
                    exists i: nat, a: nat, b: nat ::
                      LineOfClosing(cfg, r.st, k, i) && CallOf(cfg, start, run, r.st.history, i, a, b))
              && Chronicle.Chronicled(cfg, Chronicle.AllRemarks(cfg, start, run), r.st)
  {
    BeginsFresh(cfg, start);
    BeginsBalanced(cfg, start);
    Chronicle.RunChronicled(cfg, start, run);
    EveryLineAttributed(cfg, start, run);
    BooksToldByNotices(cfg, start, run);
    var r := After(cfg, start, run);
    if !r.Aborted? {
      forall k | 0 <= k < |r.st.log| && Reporting.Completes(r.st.log[k])
        ensures exists i: nat, a: nat, b: nat ::
                  LineOfClosing(cfg, r.st, k, i) && CallOf(cfg, start, run, r.st.history, i, a, b)
      {
        var i: nat :| LineOfClosing(cfg, r.st, k, i);
        var a: nat, b: nat :| CallOf(cfg, start, run, r.st.history, i, a, b);
      }
    }
  }

  /** When no task is left, no announcement is outstanding either: every unfinished line has been resumed,
      or its task has been reported to have ended. */
  lemma DrainedLeavesNothingOpen(cfg: Config, start: State, run: seq<Notice>)
    requires Begins(cfg, start)
    ensures After(cfg, start, run).Drained? ==> Protocol.Outstanding(After(cfg, start, run).st.log) == map[]
  {
    BeginsFresh(cfg, start);
    BeginsBalanced(cfg, start);
    Chronicle.RunChronicled(cfg, start, run);
    Turns.LoopDrains(cfg, start, run);
    AnnouncementsBalance(cfg, start, run);
    var r := After(cfg, start, run);
    if r.Drained? { assert Protocol.Outstanding(r.st.log).Keys == {}; }
  }

  /** The status in the end is that of the launched command: the end of the task that was the root when it
      ended last; 0 after an attach; and 128 more than the signal that stopped the tracer. */
  lemma FinalStatusTold(cfg: Config, start: State, run: seq<Notice>)
    requires Begins(cfg, start)
    ensures var r := After(cfg, start, run);
            && (r.Drained? && cfg.mode.Launch? ==>
                  exists k: nat :: Turns.RootDies(cfg, start, run, k) && Turns.LastOne(cfg, start, run, k) &&
                    (run[k].what == Exited(r.status) || (run[k].what.Killed? && r.status == 128 + run[k].what.signal)))
            && (r.Drained? && cfg.mode.Attach? ==> r.status == 0)
            && (r.Halted? ==>
                  exists k: nat :: k < |run| && run[k].env.shutdown != 0 && r.status == 128 + run[k].env.shutdown)
  {
    var r := After(cfg, start, run);
    Turns.LoopDrains(cfg, start, run);
    if r.Drained? && cfg.mode.Launch? {
      var root :| root > 0 && start == LaunchState(cfg, root);
      var k := Turns.DrainedStatus(cfg, root, run);
    }
    if r.Halted? {
      var k := Turns.HaltingTurn(cfg, start, run);
    }
  }
}
