/** Text output in which no selected call is set aside by a restart pseudo-error: a call is printed in
    one line only when nothing was printed since its entry. */
module Interleaving {
  import opened Bits
  import opened Events
  import opened TraceModel
  import opened Protocol
  import Reporting

  ghost predicate TextOutput(cfg: Config) { cfg.format.Text? && !cfg.summary }

  ghost predicate HoldsSelected(cfg: Config, t: Tracee) {
    t.pending.Some? && Selected(cfg, t.pending.value.number)
  }

  /** A selected call whose start has not been printed. */
  ghost predicate Unannounced(cfg: Config, st: State, tid: int) {
    tid in st.tasks && HoldsSelected(cfg, st.tasks[tid]) && tid !in st.open
  }

  /** No line was printed since the log had length `mark`. */
  ghost predicate QuietSince(log: seq<Record>, mark: nat) {
    mark <= |log| && forall k :: mark <= k < |log| ==> log[k].Renamed?
  }

  ghost predicate Covers(order: seq<int>, tasks: map<int, Tracee>) {
    forall tid | tid in tasks :: tid in order
  }

  /** A call set aside, if any, is one that is not shown. */
  ghost predicate PlainCalls(cfg: Config, h: History, t: Tracee) {
    && (t.pending.Some? ==> t.pending.value.serial < |h.entries|)
    && (t.interrupted.Some? ==> t.interrupted.value.serial < |h.entries| && !Selected(cfg, t.interrupted.value.number))
  }

  ghost predicate PlainTask(cfg: Config, st: State, tid: int)
    requires tid in st.tasks
  {
    tid > 0 && PlainCalls(cfg, st.history, st.tasks[tid])
  }

  /** A line of its own that is unsplit stands right after the entry. */
  ghost predicate Unsplit(st: State, c: Closing) {
    && c.serial < |st.history.entries|
    && (c.fate.Completed? && c.fate.line.Some? ==>
          && c.fate.line.value < |st.log|
          && (st.log[c.fate.line.value].Printed? && st.log[c.fate.line.value].line.Whole? ==>
                QuietSince(st.log[..c.fate.line.value], st.history.entries[c.serial].mark)))
  }

  ghost predicate Orderly(cfg: Config, st: State) {
    && Disciplined(st)
    && (forall tid | tid in st.tasks :: PlainTask(cfg, st, tid))
    && (forall tid :: Unannounced(cfg, st, tid) ==>
          QuietSince(st.log, st.history.entries[st.tasks[tid].pending.value.serial].mark))
    && (forall a, b :: Unannounced(cfg, st, a) && Unannounced(cfg, st, b) ==> a == b)
    && (forall i :: 0 <= i < |st.history.closings| ==> Unsplit(st, st.history.closings[i]))
  }

  // ----- flushing

  ghost predicate AllPlain(cfg: Config, st: State) {
    forall tid | tid in st.tasks :: PlainTask(cfg, st, tid)
  }

  /** The unfinished line of the call of `tid`. */
  function Announce(st: State, tid: int): State
    requires tid in st.tasks && st.tasks[tid].pending.Some?
  {
    var call := st.tasks[tid].pending.value;
    Print(st, Unfinished(tid, call.number, call.args)).(open := st.open + {tid})
  }

  lemma FlushOneIs(cfg: Config, st: State, except: int, tid: int)
    requires TextOutput(cfg) && AllPlain(cfg, st)
    ensures FlushOne(cfg, st, except, tid) ==
            if tid != except && Unannounced(cfg, st, tid) then Announce(st, tid) else st
  {
    if tid in st.tasks { assert PlainTask(cfg, st, tid); }
  }

  lemma AnnounceDisciplined(cfg: Config, st: State, tid: int)
    requires Disciplined(st) && Unannounced(cfg, st, tid)
    ensures var r, call := Announce(st, tid), st.tasks[tid].pending.value;
            && Disciplined(r) && Outstanding(r.log) == Outstanding(st.log)[tid := Announced(call.number, call.args)]
  {
    var call := st.tasks[tid].pending.value;
    LegalMore(st.log, Printed(Unfinished(tid, call.number, call.args)));
  }

  lemma FlushOneEffect(cfg: Config, st: State, except: int, tid: int)
    requires TextOutput(cfg) && Disciplined(st) && AllPlain(cfg, st)
    ensures var r := FlushOne(cfg, st, except, tid);
            && st.log <= r.log && st.open <= r.open
            && (tid in st.tasks && tid != except && HoldsSelected(cfg, st.tasks[tid]) ==> tid in r.open)
            && (except in r.open ==> except in st.open)
            && ((tid == except || !Unannounced(cfg, st, tid)) ==> r == st)
            && Disciplined(r)
  {
    FlushOneIs(cfg, st, except, tid);
    if tid != except && Unannounced(cfg, st, tid) { AnnounceDisciplined(cfg, st, tid); }
  }

  lemma {:induction false} FlushEffect(cfg: Config, st: State, except: int, order: seq<int>)
    requires TextOutput(cfg) && Disciplined(st) && AllPlain(cfg, st)
    ensures var r := Flush(cfg, st, except, order);
            && st.log <= r.log && st.open <= r.open
            && (forall tid | tid in order && tid in st.tasks && tid != except && HoldsSelected(cfg, st.tasks[tid]) :: tid in r.open)
            && (except in r.open ==> except in st.open)
            && ((forall tid | Unannounced(cfg, st, tid) :: tid == except) ==> r == st)
            && Disciplined(r)
  {
    if order != [] {
      var front, tid := order[..|order| - 1], order[|order| - 1];
      FlushEffect(cfg, st, except, front);
      var mid := FlushSlots(cfg, st, except, front);
      assert mid == Flush(cfg, st, except, front);
      forall u | u in mid.tasks ensures PlainTask(cfg, mid, u) { assert PlainTask(cfg, st, u); }
      FlushOneEffect(cfg, mid, except, tid);
      assert forall u | u in order :: u in front || u == tid;
    }
  }

  /** After a flush that spares only `except`, nobody else is unannounced. */
  lemma FlushLeaves(cfg: Config, st: State, except: int, order: seq<int>)
    requires TextOutput(cfg) && Orderly(cfg, st) && Covers(order, st.tasks)
    ensures var r := Flush(cfg, st, except, order);
            && Orderly(cfg, r) && st.log <= r.log && st.open <= r.open
            && (forall tid | Unannounced(cfg, r, tid) :: tid == except)
            && (Unannounced(cfg, st, except) ==> r == st)
            && (except in r.open <==> except in st.open)
  {
    FlushEffect(cfg, st, except, order);
    var r := Flush(cfg, st, except, order);
    assert Unannounced(cfg, st, except) ==> r == st;
    forall tid | tid in r.tasks ensures PlainTask(cfg, r, tid) { assert PlainTask(cfg, st, tid); }
    forall i | 0 <= i < |r.history.closings| ensures Unsplit(r, r.history.closings[i]) {
      LongerUnsplit(st, r, st.history.closings[i]);
    }
  }

  /** A longer log does not disturb what was printed before. */
  lemma LongerUnsplit(a: State, b: State, c: Closing)
    requires Unsplit(a, c) && a.log <= b.log && a.history.entries <= b.history.entries
    ensures Unsplit(b, c)
  {
    if c.fate.Completed? && c.fate.line.Some? {
      var k := c.fate.line.value;
      assert b.log[..k] == a.log[..k];
    }
  }

  /** The parts of the state that matter here. */
  lemma SameOrderly(cfg: Config, a: State, b: State)
    requires Orderly(cfg, a)
    requires a.log == b.log && a.open == b.open && a.history.entries == b.history.entries
    requires a.history.closings == b.history.closings
    requires a.tasks.Keys == b.tasks.Keys
    requires forall tid | tid in a.tasks ::
               && a.tasks[tid].pending == b.tasks[tid].pending && a.tasks[tid].interrupted == b.tasks[tid].interrupted
               && a.tasks[tid].restartReady == b.tasks[tid].restartReady
    ensures Orderly(cfg, b)
  {
    forall u | u in b.tasks ensures PlainTask(cfg, b, u) { assert PlainTask(cfg, a, u); }
    forall u ensures Unannounced(cfg, b, u) <==> Unannounced(cfg, a, u) {}
    forall i | 0 <= i < |b.history.closings| ensures Unsplit(b, b.history.closings[i]) {
      LongerUnsplit(a, b, a.history.closings[i]);
    }
  }

  // ----- writing a completed call

  lemma DoneEffect(cfg: Config, st: State, event: Event)
    requires TextOutput(cfg) && Disciplined(st) && event.tid in st.tasks && HoldsSelected(cfg, st.tasks[event.tid])
    requires event.body.SyscallBody? && event.body.syscall.completed
    requires event.body.syscall.number == st.tasks[event.tid].pending.value.number
    ensures var r := Emit(cfg, st, event);
            && Disciplined(r) && r.open == st.open - {event.tid}
            && |r.log| == |st.log| + 1 && r.log[..|st.log|] == st.log
            && (r.log[|st.log|].Printed? && r.log[|st.log|].line.Whole? <==> event.tid !in st.open)
  {
    EmitDisciplined(cfg, st, event);
    var s := event.body.syscall;
    var line :=
      if event.tid in st.open then Resumed(event.tid, s.number, s.result, s.errorNumber) else Whole(event.tid, s);
    assert Emit(cfg, st, event).log == st.log + [Printed(line)];
    LegalMore(st.log, Printed(line));
  }

  /** The line of the call of `tid`, once nobody else is unannounced. */
  lemma DoneWrote(cfg: Config, st: State, flushed: State, event: Event, mark: nat)
    requires TextOutput(cfg) && Disciplined(flushed) && event.tid in flushed.tasks
    requires HoldsSelected(cfg, flushed.tasks[event.tid])
    requires event.body.SyscallBody? && event.body.syscall.completed
    requires event.body.syscall.number == flushed.tasks[event.tid].pending.value.number
    requires st.log <= flushed.log && forall u | Unannounced(cfg, flushed, u) :: u == event.tid
    requires event.tid !in flushed.open ==> QuietSince(flushed.log, mark)
    ensures Wrote(cfg, st, Emit(cfg, flushed, event), event.tid, mark)
  {
    DoneEffect(cfg, flushed, event);
    var r := Emit(cfg, flushed, event);
    assert r.log[..|r.log| - 1] == flushed.log;
    assert forall u :: Unannounced(cfg, r, u) && u != event.tid ==> Unannounced(cfg, flushed, u);
  }

  /** Writing the call of `tid`: afterwards nothing but the call of `tid` itself can be unannounced. */
  lemma WriteEffect(cfg: Config, st: State, tid: int, s: SyscallEvent, order: seq<int>)
    requires TextOutput(cfg) && Orderly(cfg, st) && Covers(order, st.tasks)
    requires tid in st.tasks && s.completed && HoldsSelected(cfg, st.tasks[tid])
    requires s.number == st.tasks[tid].pending.value.number
    ensures st.tasks[tid].pending.value.serial < |st.history.entries|
    ensures Wrote(cfg, st, WriteLine(cfg, st, tid, s, order), tid,
                  st.history.entries[st.tasks[tid].pending.value.serial].mark)
  {
    FlushLeaves(cfg, st, tid, order);
    assert PlainTask(cfg, st, tid);
    assert tid !in st.open ==> Unannounced(cfg, st, tid);
    DoneWrote(cfg, st, Flush(cfg, st, tid, order), Event(tid, st.tasks[tid].tgid, s.exitedAt, SyscallBody(s)),
              st.history.entries[st.tasks[tid].pending.value.serial].mark);
  }

  ghost predicate Wrote(cfg: Config, st: State, r: State, tid: int, mark: nat) {
    && st.log <= r.log && |st.log| < |r.log| && Disciplined(r) && tid !in r.open
    && (forall u | Unannounced(cfg, r, u) :: u == tid)
    && (r.log[|r.log| - 1].Printed? && r.log[|r.log| - 1].line.Whole? ==> QuietSince(r.log[..|r.log| - 1], mark))
  }

  lemma CompleteOrderly(cfg: Config, st: State, tid: int, result: int, errorNumber: int, at: Timespec, order: seq<int>)
    requires TextOutput(cfg) && Orderly(cfg, st) && Covers(order, st.tasks)
    requires tid in st.tasks && st.tasks[tid].pending.Some?
    ensures var o := CompletePending(cfg, st, tid, result, errorNumber, at, order); o.Fine? ==> Orderly(cfg, o.st)
  {
    if HoldsSelected(cfg, st.tasks[tid]) {
      CompleteSelected(cfg, st, tid, result, errorNumber, at, order);
    } else {
      var t := st.tasks[tid];
      assert PlainTask(cfg, st, tid);
      var c := Closing(t.pending.value.serial, t.task, tid,
                       Completed(Finished(t.pending.value, result, errorNumber, at), None));
      assert CompletePending(cfg, st, tid, result, errorNumber, at, order) ==
             Fine(SetTask(AddClosing(st, c), tid, t.(pending := None)));
      ReleasedOrderly(cfg, st, tid, c, t.(pending := None));
    }
  }

  lemma CompleteSelected(cfg: Config, st: State, tid: int, result: int, errorNumber: int, at: Timespec, order: seq<int>)
    requires TextOutput(cfg) && Orderly(cfg, st) && Covers(order, st.tasks)
    requires tid in st.tasks && HoldsSelected(cfg, st.tasks[tid])
    ensures var o := CompletePending(cfg, st, tid, result, errorNumber, at, order); o.Fine? ==> Orderly(cfg, o.st)
  {
    var t := st.tasks[tid];
    var done := Finished(t.pending.value, result, errorNumber, at);
    var w := WriteCounted(cfg, st, tid, done, order);
    var c := Closing(t.pending.value.serial, t.task, tid, Completed(done, LineOf(cfg, w, done.number)));
    ClosedOrderly(cfg, st, w, tid, c);
    assert CompletePending(cfg, st, tid, result, errorNumber, at, order) ==
           Fine(SetTask(AddClosing(w, c), tid, t.(pending := None)));
  }

  lemma WriteCounted(cfg: Config, st: State, tid: int, s: SyscallEvent, order: seq<int>) returns (w: State)
    requires TextOutput(cfg) && Orderly(cfg, st) && Covers(order, st.tasks)
    requires tid in st.tasks && s.completed && HoldsSelected(cfg, st.tasks[tid])
    requires s.number == st.tasks[tid].pending.value.number
    ensures st.tasks[tid].pending.value.serial < |st.history.entries|
    ensures WriteSyscall(cfg, st, tid, s, order) == Fine(w)
    ensures Wrote(cfg, st, w, tid, st.history.entries[st.tasks[tid].pending.value.serial].mark)
  {
    var counted := Reporting.CountedState(cfg, st, tid, s, order);
    SameOrderly(cfg, st, counted);
    WriteEffect(cfg, counted, tid, s, order);
    w := WriteLine(cfg, counted, tid, s, order);
  }

  /** The written call is closed and cleared. */
  lemma ClosedOrderly(cfg: Config, st: State, w: State, tid: int, c: Closing)
    requires Orderly(cfg, st) && tid in st.tasks && HoldsSelected(cfg, st.tasks[tid])
    requires w == st.(log := w.log, open := w.open, stats := w.stats, events := w.events)
    requires c.serial == st.tasks[tid].pending.value.serial && c.fate.Completed? && c.fate.line == Some(|w.log| - 1)
    requires c.serial < |st.history.entries|
    requires Wrote(cfg, st, w, tid, st.history.entries[c.serial].mark)
    ensures Orderly(cfg, SetTask(AddClosing(w, c), tid, st.tasks[tid].(pending := None)))
  {
    var r := SetTask(AddClosing(w, c), tid, st.tasks[tid].(pending := None));
    forall u | u in r.tasks ensures PlainTask(cfg, r, u) { assert PlainTask(cfg, st, u); }
    assert forall u :: Unannounced(cfg, r, u) ==> u != tid && Unannounced(cfg, w, u);
    forall i | 0 <= i < |r.history.closings| ensures Unsplit(r, r.history.closings[i]) {
      if i < |st.history.closings| {
        LongerUnsplit(st, r, st.history.closings[i]);
      }
    }
  }

  /** A closing without a line. */
  lemma NoteOrderly(cfg: Config, st: State, c: Closing)
    requires Orderly(cfg, st) && c.serial < |st.history.entries| && (c.fate.Completed? ==> c.fate.line.None?)
    ensures Orderly(cfg, AddClosing(st, c))
  {
    var r := AddClosing(st, c);
    forall u | u in r.tasks ensures PlainTask(cfg, r, u) { assert PlainTask(cfg, st, u); }
    forall u ensures Unannounced(cfg, r, u) <==> Unannounced(cfg, st, u) {}
    forall i | 0 <= i < |r.history.closings| ensures Unsplit(r, r.history.closings[i]) {
      if i < |st.history.closings| { LongerUnsplit(st, r, st.history.closings[i]); }
    }
  }

  /** The calls of a task change, but it gains none that is shown. */
  lemma RecallOrderly(cfg: Config, st: State, tid: int, t: Tracee)
    requires Orderly(cfg, st) && tid in st.tasks && PlainCalls(cfg, st.history, t)
    requires HoldsSelected(cfg, t) ==> t.pending == st.tasks[tid].pending
    ensures Orderly(cfg, SetTask(st, tid, t))
  {
    var r := SetTask(st, tid, t);
    assert PlainTask(cfg, st, tid);
    forall u | u in r.tasks ensures PlainTask(cfg, r, u) { if u != tid { assert PlainTask(cfg, st, u); } }
    forall u | Unannounced(cfg, r, u) ensures Unannounced(cfg, st, u) && r.tasks[u].pending == st.tasks[u].pending {}
    forall i | 0 <= i < |r.history.closings| ensures Unsplit(r, r.history.closings[i]) {
      LongerUnsplit(st, r, st.history.closings[i]);
    }
  }

  /** A closing without a line, and the calls of its task change. */
  lemma ReleasedOrderly(cfg: Config, st: State, tid: int, c: Closing, t: Tracee)
    requires Orderly(cfg, st) && tid in st.tasks && PlainCalls(cfg, st.history, t)
    requires c.serial < |st.history.entries| && (c.fate.Completed? ==> c.fate.line.None?)
    requires HoldsSelected(cfg, t) ==> t.pending == st.tasks[tid].pending
    ensures Orderly(cfg, SetTask(AddClosing(st, c), tid, t))
  {
    NoteOrderly(cfg, st, c);
    RecallOrderly(cfg, AddClosing(st, c), tid, t);
  }

  lemma DropInterruptedOrderly(cfg: Config, st: State, tid: int, reason: Reason)
    requires Orderly(cfg, st) && tid in st.tasks
    ensures Orderly(cfg, DropInterrupted(st, tid, reason))
  {
    var t := st.tasks[tid];
    assert PlainTask(cfg, st, tid);
    if t.interrupted.Some? {
      ReleasedOrderly(cfg, st, tid, Closing(t.interrupted.value.serial, t.task, tid, Discarded(reason)),
                      t.(interrupted := None, restartReady := false));
    }
  }

  function Enter(st: State, tid: int, call: Call, entry: Entry): State
    requires tid in st.tasks
  {
    SetTask(st, tid, st.tasks[tid].(pending := Some(call))).(history := st.history.(entries := st.history.entries + [entry]))
  }

  lemma EnterOrderly(cfg: Config, st: State, tid: int, call: Call, entry: Entry)
    requires Orderly(cfg, st) && tid in st.tasks && st.tasks[tid].pending.None?
    requires Selected(cfg, call.number) ==> forall u | Unannounced(cfg, st, u) :: u == tid
    requires call.serial == |st.history.entries| && entry.mark == |st.log|
    ensures Orderly(cfg, Enter(st, tid, call, entry))
  {
    var r := Enter(st, tid, call, entry);
    forall u | u in r.tasks ensures PlainTask(cfg, r, u) { assert PlainTask(cfg, st, u); }
    forall u | Unannounced(cfg, r, u)
      ensures u == tid || Unannounced(cfg, st, u)
      ensures QuietSince(r.log, r.history.entries[r.tasks[u].pending.value.serial].mark)
    {
      if u != tid { assert PlainTask(cfg, st, u) && Unannounced(cfg, st, u); }
    }
    forall i | 0 <= i < |r.history.closings| ensures Unsplit(r, r.history.closings[i]) {
      LongerUnsplit(st, r, st.history.closings[i]);
    }
  }

  lemma FreshOrderly(cfg: Config, st: State, tid: int, number: int, args: seq<int>, env: Env)
    requires TextOutput(cfg) && Orderly(cfg, st) && Covers(env.order, st.tasks)
    requires tid in st.tasks && st.tasks[tid].pending.None?
    ensures Orderly(cfg, FreshEntry(cfg, st, tid, number, args, env))
  {
    FlushLeaves(cfg, st, tid, env.order);
    var mid := if Selected(cfg, number) then Flush(cfg, st, tid, env.order) else st;
    var at := StampOf(cfg, number, env.now);
    var call := Call(|st.history.entries|, number, args, at);
    var entry := Entry(st.tasks[tid].task, number, args, |mid.log|, at);
    EnterOrderly(cfg, mid, tid, call, entry);
    assert FreshEntry(cfg, st, tid, number, args, env) == Enter(mid, tid, call, entry);
  }

  /** An interrupted call becomes pending again. */
  lemma RestartOrderly(cfg: Config, st: State, tid: int, order: seq<int>)
    requires TextOutput(cfg) && Orderly(cfg, st) && Covers(order, st.tasks) && tid in st.tasks
    ensures Orderly(cfg, Restart(cfg, st, tid, order))
  {
    var t := st.tasks[tid];
    FlushLeaves(cfg, st, tid, order);
    assert PlainTask(cfg, st, tid);
    RecallOrderly(cfg, Flush(cfg, st, tid, order), tid,
                  t.(pending := t.interrupted, interrupted := None, restartReady := false));
  }

  /** An interrupted call turns out to have failed: it is one that is not shown. */
  lemma ExposeOrderly(cfg: Config, st: State, tid: int, env: Env)
    requires Orderly(cfg, st) && tid in st.tasks
    ensures var o := ExposeEintr(cfg, st, tid, env);
            o.Fine? && Orderly(cfg, o.st) && o.st.tasks.Keys == st.tasks.Keys && o.st.tasks[tid].pending == st.tasks[tid].pending
  {
    var t := st.tasks[tid];
    assert PlainTask(cfg, st, tid);
    if t.interrupted.Some? && t.restartReady {
      var c := Closing(t.interrupted.value.serial, t.task, tid,
                       Completed(Finished(t.interrupted.value, -1, EINTR, env.now), None));
      ReleasedOrderly(cfg, st, tid, c, t.(interrupted := None, restartReady := false));
      assert ExposeEintr(cfg, st, tid, env) ==
             Fine(SetTask(AddClosing(st, c), tid, t.(interrupted := None, restartReady := false)));
    }
  }

  lemma BeginOrderly(cfg: Config, st: State, tid: int, number: nat, args: seq<int>, env: Env)
    requires TextOutput(cfg) && Orderly(cfg, st) && Covers(env.order, st.tasks) && tid in st.tasks
    ensures var o := Begin(cfg, st, tid, number, args, env); o.Fine? ==> Orderly(cfg, o.st)
  {
    if st.tasks[tid].pending.Some? { CompleteOrderly(cfg, st, tid, 0, 0, env.now, env.order); }
    var settled := SettleExec(cfg, st, tid, env);
    if settled.Fine? {
      assert settled.st.tasks.Keys == st.tasks.Keys && settled.st.tasks[tid].pending.None?;
      if Restarts(settled.st.tasks[tid], number) {
        RestartOrderly(cfg, settled.st, tid, env.order);
      } else {
        ExposeOrderly(cfg, settled.st, tid, env);
        FreshOrderly(cfg, ExposeEintr(cfg, settled.st, tid, env).st, tid, number, args, env);
      }
    }
  }

  /** A call that is not shown is set aside. */
  lemma SetAsideOrderly(cfg: Config, st: State, tid: int)
    requires Orderly(cfg, st) && tid in st.tasks && st.tasks[tid].pending.Some? && !HoldsSelected(cfg, st.tasks[tid])
    ensures Orderly(cfg, SetAside(st, tid))
  {
    assert PlainTask(cfg, st, tid);
    DropInterruptedOrderly(cfg, st, tid, Replaced);
    var cleared := DropInterrupted(st, tid, Replaced);
    var t := cleared.tasks[tid];
    RecallOrderly(cfg, cleared, tid, t.(interrupted := t.pending, pending := None, restartReady := false));
  }

  lemma AfterCompletionOrderly(cfg: Config, st: State, tid: int, number: int)
    requires Orderly(cfg, st) && tid in st.tasks
    ensures Orderly(cfg, AfterCompletion(st, tid, number))
  {
    assert PlainTask(cfg, st, tid);
    RecallOrderly(cfg, st, tid, st.tasks[tid].(restartReady := true));
    DropInterruptedOrderly(cfg, st, tid, Superseded);
  }

  lemma FinishOrderly(cfg: Config, st: State, tid: int, rval: int, isError: bool, env: Env)
    requires TextOutput(cfg) && Orderly(cfg, st) && Covers(env.order, st.tasks) && tid in st.tasks
    requires IsRestartResult(rval) ==> !HoldsSelected(cfg, st.tasks[tid])
    ensures var o := Finish(cfg, st, tid, rval, isError, env); o.Fine? ==> Orderly(cfg, o.st)
  {
    var t := st.tasks[tid];
    if t.pending.Some? {
      if IsRestartResult(rval) {
        SetAsideOrderly(cfg, st, tid);
      } else {
        ConcludeOrderly(cfg, st, tid, rval, isError, env);
      }
    }
  }

  lemma ConcludeOrderly(cfg: Config, st: State, tid: int, rval: int, isError: bool, env: Env)
    requires TextOutput(cfg) && Orderly(cfg, st) && Covers(env.order, st.tasks)
    requires tid in st.tasks && st.tasks[tid].pending.Some?
    ensures var o := Conclude(cfg, st, tid, rval, isError, env); o.Fine? ==> Orderly(cfg, o.st)
  {
    var number := st.tasks[tid].pending.value.number;
    var errorNumber, at := ErrorNumber(rval, isError), StampOf(cfg, number, env.now);
    CompleteOrderly(cfg, st, tid, rval, errorNumber, at, env.order);
    var o := CompletePending(cfg, st, tid, rval, errorNumber, at, env.order);
    if o.Fine? { AfterCompletionOrderly(cfg, o.st, tid, number); }
  }

  // ----- the other lines, exits and migrations

  /** A line that is not about a call, after everything has been announced. */
  lemma NoticeOrderly(cfg: Config, st: State, tid: int, order: seq<int>, event: Event)
    requires TextOutput(cfg) && Orderly(cfg, st) && Covers(order, st.tasks)
    requires !event.body.SyscallBody? && !event.body.ExitBody?
    ensures Orderly(cfg, Emit(cfg, Flush(cfg, st, -1, order), event))
  {
    FlushLeaves(cfg, st, -1, order);
    var mid := Flush(cfg, st, -1, order);
    EmitDisciplined(cfg, mid, event);
    var r := Emit(cfg, mid, event);
    var line := Printed(Line.Plain(event.tid, event.body));
    assert r.log == mid.log + [line];
    LegalMore(mid.log, line);
    forall u | u in r.tasks ensures PlainTask(cfg, r, u) { assert PlainTask(cfg, mid, u); }
    forall u | u in mid.tasks ensures u != -1 { assert PlainTask(cfg, mid, u); }
    forall u ensures Unannounced(cfg, r, u) <==> Unannounced(cfg, mid, u) {}
    forall i | 0 <= i < |r.history.closings| ensures Unsplit(r, r.history.closings[i]) {
      LongerUnsplit(mid, r, mid.history.closings[i]);
    }
  }

  lemma BuryOrderly(cfg: Config, st: State, n: Notice)
    requires TextOutput(cfg) && Orderly(cfg, st) && Covers(n.env.order, st.tasks)
    requires n.tid in st.tasks && (n.what.Exited? || n.what.Killed?)
    ensures var o := Bury(cfg, st, n); o.Fine? ==> Orderly(cfg, o.st)
  {
    var o := Bury(cfg, st, n);
    if o.Fine? {
      FlushLeaves(cfg, st, -1, n.env.order);
      var mid := Flush(cfg, st, -1, n.env.order);
      var body := ExitBody(if n.what.Exited? then n.what.code else n.what.signal, n.what.Killed?);
      var event := Event(n.tid, st.tasks[n.tid].tgid, n.env.now, body);
      assert PlainTask(cfg, mid, n.tid);
      LeftOrderly(cfg, mid, event, o.st, LostAtExit);
    }
  }

  /** The exit line is printed and its thread removed. */
  lemma LeftOrderly(cfg: Config, mid: State, event: Event, r: State, reason: Reason)
    requires TextOutput(cfg) && Orderly(cfg, mid) && event.tid in mid.tasks && event.body.ExitBody?
    requires forall u | Unannounced(cfg, mid, u) :: u == -1
    requires var e := Emit(cfg, mid, event); r == RemoveTask(e.(root := r.root), event.tid, reason)
    ensures Orderly(cfg, r)
  {
    EmitDisciplined(cfg, mid, event);
    var e := Emit(cfg, mid, event);
    var line := Printed(Line.Plain(event.tid, event.body));
    assert e.log == mid.log + [line];
    LegalMore(mid.log, line);
    RemovedFrame(e.(root := r.root), event.tid, reason);
    SameOutput(e, r);
    assert PlainTask(cfg, mid, event.tid);
    forall u | u in r.tasks ensures PlainTask(cfg, r, u) && u != -1 { assert PlainTask(cfg, mid, u); }
    forall u | Unannounced(cfg, r, u) ensures Unannounced(cfg, mid, u) {}
    forall i | 0 <= i < |r.history.closings| ensures Unsplit(r, r.history.closings[i]) {
      if i < |mid.history.closings| { LongerUnsplit(mid, r, mid.history.closings[i]); }
    }
  }

  /** Removing a task discards its calls. */
  lemma RemovedFrame(st: State, tid: int, reason: Reason)
    requires tid in st.tasks
    ensures var r := RemoveTask(st, tid, reason);
            && r == st.(tasks := st.tasks - {tid}, history := st.history.(closings := r.history.closings))
            && st.history.closings <= r.history.closings
            && (forall i :: |st.history.closings| <= i < |r.history.closings| ==>
                  && r.history.closings[i].fate.Discarded?
                  && ((st.tasks[tid].pending.Some? && r.history.closings[i].serial == st.tasks[tid].pending.value.serial) ||
                      (st.tasks[tid].interrupted.Some? && r.history.closings[i].serial == st.tasks[tid].interrupted.value.serial)))
  {
  }

  /** In `r` the calls of `origin` go on under the TID `tid`, every other task is as it was in `st`, and
      at most renamings and discards were noted. */
  lemma MovedOrderly(cfg: Config, st: State, r: State, tid: int, origin: int)
    requires Orderly(cfg, st) && tid > 0 && origin in st.tasks && Disciplined(r)
    requires forall u | u in r.tasks && u != tid :: u in st.tasks && r.tasks[u] == st.tasks[u] && u != origin
    requires tid in r.tasks ==>
              r.tasks[tid] == st.tasks[origin].(tgid := r.tasks[tid].tgid, newborn := r.tasks[tid].newborn)
    requires forall u | u in st.open && u != origin && u != tid :: u in r.open || u !in r.tasks
    requires origin in st.open ==> tid in r.open
    requires st.log <= r.log && forall k :: |st.log| <= k < |r.log| ==> r.log[k].Renamed?
    requires r.history.entries == st.history.entries && st.history.closings <= r.history.closings
    requires forall i :: |st.history.closings| <= i < |r.history.closings| ==>
               r.history.closings[i].serial < |st.history.entries| && r.history.closings[i].fate.Discarded?
    ensures Orderly(cfg, r)
  {
    assert PlainTask(cfg, st, origin);
    forall u | u in r.tasks ensures PlainTask(cfg, r, u) {
      if u != tid { assert PlainTask(cfg, st, u); }
    }
    forall u | Unannounced(cfg, r, u)
      ensures var v := if u == tid then origin else u;
              Unannounced(cfg, st, v) && st.tasks[v].pending == r.tasks[u].pending
    {}
    forall i | 0 <= i < |r.history.closings| ensures Unsplit(r, r.history.closings[i]) {
      if i < |st.history.closings| { LongerUnsplit(st, r, st.history.closings[i]); }
    }
  }

  /** The state of `origin` goes on under the TID `tid`, and `former` is forgotten. */
  lemma TakeOverOrderly(cfg: Config, st: State, cleared: State, tid: int, former: int, origin: int)
    requires Orderly(cfg, st) && former != tid && tid > 0 && origin in st.tasks
    requires origin == former || (origin == tid && former !in st.tasks)
    requires cleared == st.(tasks := cleared.tasks, history := st.history.(closings := cleared.history.closings))
    requires cleared.tasks - {tid} == st.tasks - {tid, former}
    requires st.history.closings <= cleared.history.closings
    requires forall i :: |st.history.closings| <= i < |cleared.history.closings| ==>
               cleared.history.closings[i].serial < |st.history.entries| && cleared.history.closings[i].fate.Discarded?
    ensures Orderly(cfg, TakeOver(cleared, tid, former, st.tasks[origin]))
  {
    var placed := SetTask(cleared, tid, st.tasks[origin].(tgid := tid, newborn := false));
    var r := TakeOver(cleared, tid, former, st.tasks[origin]);
    SameOutput(st, placed);
    RenameDisciplined(placed, former, tid);
    forall u | u in r.tasks && u != tid ensures u in st.tasks && r.tasks[u] == st.tasks[u] && u != former {
      assert u in cleared.tasks - {tid};
    }
    MovedOrderly(cfg, st, r, tid, origin);
  }

  lemma RenameOrderly(cfg: Config, st: State, former: int, tid: int)
    requires Orderly(cfg, st) && former !in st.tasks
    ensures Orderly(cfg, RenameOpen(st, former, tid))
  {
    var r := RenameOpen(st, former, tid);
    RenameDisciplined(st, former, tid);
    forall u | u in r.tasks ensures PlainTask(cfg, r, u) { assert PlainTask(cfg, st, u); }
    forall u | Unannounced(cfg, r, u) ensures Unannounced(cfg, st, u) {}
    forall i | 0 <= i < |r.history.closings| ensures Unsplit(r, r.history.closings[i]) {
      LongerUnsplit(st, r, st.history.closings[i]);
    }
  }

  /** The thread `former` goes on as `tid`. */
  lemma MigrateOrderly(cfg: Config, st: State, tid: int, former: int)
    requires Orderly(cfg, st) && former != tid
    ensures var o := MigrateExec(cfg, st, tid, former); o.Fine? ==> Orderly(cfg, o.st)
  {
    if former in st.tasks {
      if tid in st.tasks { assert PlainTask(cfg, st, tid); RemovedFrame(st, tid, LostAtExec); }
      var cleared := if tid in st.tasks then RemoveTask(st, tid, LostAtExec) else st;
      if tid > 0 { TakeOverOrderly(cfg, st, cleared.(tasks := cleared.tasks - {former}), tid, former, former); }
    } else if tid in st.tasks {
      if tid > 0 { TakeOverOrderly(cfg, st, st, tid, former, tid); }
    } else {
      AddTaskOrderly(cfg, st, tid, tid, cfg.mode.Attach?, false);
      var o := AddTask(st, tid, tid, cfg.mode.Attach?, false);
      if o.Fine? { RenameOrderly(cfg, o.st, former, tid); }
    }
  }

  /** A task without calls arrives. */
  lemma AddTaskOrderly(cfg: Config, st: State, tid: int, tgid: int, attached: bool, newborn: bool)
    requires Orderly(cfg, st)
    ensures var o := AddTask(st, tid, tgid, attached, newborn); o.Fine? ==> Orderly(cfg, o.st)
  {
    var o := AddTask(st, tid, tgid, attached, newborn);
    if o.Fine? {
      forall u | u in o.st.tasks
        ensures PlainTask(cfg, o.st, u) { if u != tid || tid in st.tasks
      {
        assert PlainTask(cfg, st, u); }
      }
      forall u ensures Unannounced(cfg, o.st, u) <==> Unannounced(cfg, st, u) {}
      forall i | 0 <= i < |st.history.closings| ensures Unsplit(o.st, st.history.closings[i]) {
        LongerUnsplit(st, o.st, st.history.closings[i]);
      }
    }
  }

  // ----- one turn of the loop, and whole runs

  /** A restart pseudo-error sets a selected call aside. */
  ghost predicate SetsShownAside(cfg: Config, st: State, n: Notice) {
    n.what.SyscallExit? && IsRestartResult(n.what.rval) && n.tid in st.tasks && HoldsSelected(cfg, st.tasks[n.tid])
  }

  ghost predicate OrderlyAfter(cfg: Config, r: Handled) {
    r.Handled? ==> Orderly(cfg, r.st)
  }

  lemma HandleChildOrderly(cfg: Config, st: State, tid: int, kind: ChildKind, child: nat, childTgid: int, env: Env)
    requires TextOutput(cfg) && Orderly(cfg, st) && Covers(env.order, st.tasks) && tid in st.tasks
    ensures var o := HandleChild(cfg, st, tid, kind, child, childTgid, env); o.Fine? ==> Orderly(cfg, o.st)
  {
    if child != 0 && child <= INT_MAX {
      var t := st.tasks[tid];
      var tgid := if childTgid > 0 then childTgid else if kind.Clone? then t.tgid else child;
      AddTaskOrderly(cfg, st, child, tgid, t.attached, true);
      var o := AddTask(st, child, tgid, t.attached, true);
      if o.Fine? {
        var event := Event(tid, t.tgid, env.now, StartBody(child, kind));
        if child in st.tasks {
          NoticeOrderly(cfg, o.st, tid, env.order, event);
        } else {
          NewcomerFlush(cfg, o.st, child, -1, env.order);
          NoticeOrderly(cfg, o.st, tid, env.order + [child], event);
        }
      }
    }
  }

  /** A task without calls makes no difference to a flush. */
  lemma NewcomerFlush(cfg: Config, st: State, child: int, except: int, order: seq<int>)
    requires child in st.tasks && Held(st.tasks[child]).None?
    ensures Flush(cfg, st, except, order + [child]) == Flush(cfg, st, except, order)
  {
    assert (order + [child])[..|order|] == order;
  }

  lemma HandleSignalOrderly(cfg: Config, st: State, tid: int, signal: int, info: SigInfo, env: Env)
    requires TextOutput(cfg) && Orderly(cfg, st) && Covers(env.order, st.tasks) && tid in st.tasks
    ensures var r := HandleSignal(cfg, st, tid, signal, info, env); OrderlyAfter(cfg, r)
  {
    var t := st.tasks[tid];
    if t.newborn && signal == SIGSTOP {
      SameOrderly(cfg, st, HandleSignal(cfg, st, tid, signal, info, env).st);
    } else if info.Info? {
      var marked := SetTask(st, tid, t.(newborn := false, pendingSignal := signal));
      SameOrderly(cfg, st, marked);
      NoticeOrderly(cfg, marked, tid, env.order,
                    Event(tid, t.tgid, env.now, SignalBody(info.signo, info.code, FaultAddress(info))));
    }
  }

  lemma HandleExecOrderly(cfg: Config, st: State, tid: int, env: Env)
    requires TextOutput(cfg) && Orderly(cfg, st) && Covers(env.order, st.tasks) && tid in st.tasks
    ensures var o := HandleExec(cfg, st, tid, env); o.Fine? ==> Orderly(cfg, o.st)
  {
    var seen := if tid == st.root.tid then st.(root := st.root.(execObserved := true)) else st;
    SameOrderly(cfg, st, seen);
    if seen.tasks[tid].pending.Some? {
      CompleteOrderly(cfg, seen, tid, 0, 0, env.now, env.order);
      var o := CompletePending(cfg, seen, tid, 0, 0, env.now, env.order);
      if o.Fine? { SameOrderly(cfg, o.st, SetTask(o.st, tid, o.st.tasks[tid].(newborn := false))); }
    } else {
      SameOrderly(cfg, seen, SetTask(seen, tid, seen.tasks[tid].(newborn := false)));
    }
  }

  /** Changing a task without touching its calls. */
  lemma TouchOrderly(cfg: Config, st: State, tid: int, t: Tracee)
    requires Orderly(cfg, st) && tid in st.tasks
    requires t.pending == st.tasks[tid].pending && t.interrupted == st.tasks[tid].interrupted
    requires t.restartReady == st.tasks[tid].restartReady
    ensures Orderly(cfg, SetTask(st, tid, t))
  {
    SameOrderly(cfg, st, SetTask(st, tid, t));
  }

  lemma PlainlyOrderly(cfg: Config, o: Outcome)
    requires o.Fine? ==> Orderly(cfg, o.st)
    ensures OrderlyAfter(cfg, Plainly(o))
  {
  }

  lemma SyscallStopOrderly(cfg: Config, st: State, n: Notice)
    requires TextOutput(cfg) && Orderly(cfg, st) && Covers(n.env.order, st.tasks) && n.tid in st.tasks
    requires (n.what.SyscallEntry? || n.what.SeccompStop? || n.what.SyscallExit?) && !SetsShownAside(cfg, st, n)
    ensures OrderlyAfter(cfg, HandleStop(cfg, st, n))
  {
    var t := st.tasks[n.tid];
    var stopped := SetTask(st, n.tid, t.(inStop := true));
    TouchOrderly(cfg, st, n.tid, t.(inStop := true));
    if n.what.SyscallExit? {
      FinishOrderly(cfg, stopped, n.tid, n.what.rval, n.what.isError, n.env);
      var o := Finish(cfg, stopped, n.tid, n.what.rval, n.what.isError, n.env);
      PlainlyOrderly(cfg, o);
      assert HandleStop(cfg, st, n) == Plainly(o);
    } else {
      BeginOrderly(cfg, stopped, n.tid, n.what.number, n.what.args, n.env);
      var o := Begin(cfg, stopped, n.tid, n.what.number, n.what.args, n.env);
      PlainlyOrderly(cfg, o);
      assert HandleStop(cfg, st, n) == Plainly(o) || HandleStop(cfg, st, n) == Unhandled;
    }
  }

  lemma HandleStopOrderly(cfg: Config, st: State, n: Notice)
    requires TextOutput(cfg) && Orderly(cfg, st) && Covers(n.env.order, st.tasks) && n.tid in st.tasks
    requires !SetsShownAside(cfg, st, n)
    ensures OrderlyAfter(cfg, HandleStop(cfg, st, n))
  {
    var t := st.tasks[n.tid];
    var stopped, h := SetTask(st, n.tid, t.(inStop := true)), HandleStop(cfg, st, n);
    TouchOrderly(cfg, st, n.tid, t.(inStop := true));
    match n.what
    case SyscallEntry(_, _) => SyscallStopOrderly(cfg, st, n);
    case SyscallExit(_, _) => SyscallStopOrderly(cfg, st, n);
    case SeccompStop(_, _) => SyscallStopOrderly(cfg, st, n);
    case EventStop(signal) =>
      TouchOrderly(cfg, stopped, n.tid, t.(inStop := true, newborn := false));
      assert h.st == SetTask(stopped, n.tid, t.(inStop := true, newborn := false));
    case ExecStop(_) =>
      HandleExecOrderly(cfg, stopped, n.tid, n.env);
      PlainlyOrderly(cfg, HandleExec(cfg, stopped, n.tid, n.env));
      assert h == Plainly(HandleExec(cfg, stopped, n.tid, n.env));
    case ChildStop(kind, child, childTgid) =>
      HandleChildOrderly(cfg, stopped, n.tid, kind, child, childTgid, n.env);
      PlainlyOrderly(cfg, HandleChild(cfg, stopped, n.tid, kind, child, childTgid, n.env));
      assert h == Plainly(HandleChild(cfg, stopped, n.tid, kind, child, childTgid, n.env));
    case SignalStop(signal, info) =>
      HandleSignalOrderly(cfg, stopped, n.tid, signal, info, n.env);
      assert h == HandleSignal(cfg, stopped, n.tid, signal, info, n.env);
    case _ => assert h == Unhandled;
  }

  /** The slot order of the turn covers the table at the time of the flushes. */
  ghost predicate CoversTurn(cfg: Config, st: State, n: Notice) {
    !n.what.WaitInterrupted? && Admit(cfg, st, n).Fine? ==> Covers(n.env.order, Admit(cfg, st, n).st.tasks)
  }

  lemma AdmitOrderly(cfg: Config, st: State, n: Notice)
    requires Orderly(cfg, st)
    ensures var o := Admit(cfg, st, n); o.Fine? ==> Orderly(cfg, o.st)
  {
    if n.what.ExecStop? && n.what.former != n.tid { MigrateOrderly(cfg, st, n.tid, n.what.former); }
    var known := if n.what.ExecStop? then MigrateExec(cfg, st, n.tid, n.what.former) else Fine(st);
    if known.Fine? {
      AddTaskOrderly(cfg, known.st, n.tid, if n.env.tgid <= 0 then n.tid else n.env.tgid, cfg.mode.Attach?, true);
    }
  }

  lemma ResumeOrderly(cfg: Config, st: State, tid: int, signal: int, listen: bool, env: Env)
    requires Orderly(cfg, st)
    ensures var r := Resume(cfg, st, tid, signal, listen, env); !r.Abort? ==> Orderly(cfg, r.st)
  {
    var r := Resume(cfg, st, tid, signal, listen, env);
    if !r.Abort? { SameOrderly(cfg, st, r.st); }
  }

  lemma StepOrderly(cfg: Config, st: State, n: Notice)
    requires TextOutput(cfg) && Orderly(cfg, st) && !SetsShownAside(cfg, st, n) && CoversTurn(cfg, st, n)
    ensures var r := Step(cfg, st, n); !r.Abort? ==> Orderly(cfg, r.st)
  {
    if !n.what.WaitInterrupted? {
      AdmitOrderly(cfg, st, n);
      var o := Admit(cfg, st, n);
      if o.Fine? && n.tid in o.st.tasks {
        if n.what.Continued? {
          SameOrderly(cfg, o.st, SetTask(o.st, n.tid, o.st.tasks[n.tid].(inStop := false)));
        } else if n.what.Exited? || n.what.Killed? {
          BuryOrderly(cfg, o.st, n);
        } else {
          HandleStopOrderly(cfg, o.st, n);
          var h := HandleStop(cfg, o.st, n);
          if h.Handled? { ResumeOrderly(cfg, h.st, n.tid, h.signal, h.listen, n.env); }
        }
      }
    }
  }

  /** Every turn of the run flushes in an order that covers the table. */
  ghost predicate Covered(cfg: Config, st: State, run: seq<Notice>) {
    run == [] ||
    (var front := run[..|run| - 1];
     && Covered(cfg, st, front)
     && (After(cfg, st, front).Running? ==> CoversTurn(cfg, After(cfg, st, front).st, run[|run| - 1])))
  }

  /** No selected call is set aside in the run. */
  ghost predicate TameRun(cfg: Config, st: State, run: seq<Notice>) {
    run == [] ||
    (var front := run[..|run| - 1];
     && TameRun(cfg, st, front)
     && (After(cfg, st, front).Running? ==> !SetsShownAside(cfg, After(cfg, st, front).st, run[|run| - 1])))
  }

  lemma {:induction false} RunOrderly(cfg: Config, st: State, run: seq<Notice>)
    requires TextOutput(cfg) && Orderly(cfg, st) && TameRun(cfg, st, run) && Covered(cfg, st, run)
    ensures var r := After(cfg, st, run); !r.Aborted? ==> Orderly(cfg, r.st)
  {
    if run != [] {
      var front := run[..|run| - 1];
      RunOrderly(cfg, st, front);
      var r := After(cfg, st, front);
      if r.Running? { StepOrderly(cfg, r.st, run[|run| - 1]); }
    }
  }
}
