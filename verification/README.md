# Sysgaze: verified model

Sysgaze is an x86-64 Linux system-call tracer.  Its kernel side is foreign, but almost everything it
decides is deterministic code over a stream of stop notifications.  This project models that code in
Dafny and proves what it does over every run.  `dafny verify dfyconfig.toml` checks everything.

## Layout

| file | what it holds |
|---|---|
| `TraceModel.dfy` | `src/trace.c` with the text writer as a state machine: `Step` is one turn of `trace_loop`, `After` a whole run |
| `Tracer.dfy` | the same as the C program runs it: a class over the hash table, the writer and the statistics, each method proved against the state machine, up to `TraceCommand` |
| `Ledger.dfy`, `Turns.dfy`, `Chronicle.dfy` | what a turn enters, ends, prints, requests and does to the table and the root, told from its notice by definitions that name no operation of the state machine; and the same over whole runs |
| `Conservation.dfy`, `Reporting.dfy`, `Protocol.dfy`, `Interleaving.dfy`, `Naming.dfy`, `Lifecycle.dfy` | one invariant each, preserved by every turn |
| `Theorems.dfy` | what the invariants say about every reachable state of a launch or an attach |
| `Limits.dfy`, `FastLimits.dfy` | concrete runs, each one a kernel can produce, showing what the conditions of the interleaving, naming and fast-path theorems are for |
| `FastPath.dfy`, `Visibility.dfy` | the seccomp fast path refines tracing every call |
| `ForkRace.dfy` | both orders of a fork event and the child's first stop agree |
| `Bpf.dfy` | the seccomp compiler against an interpreter of classic BPF |
| `Filter.dfy`, `Catalog.dfy` | filter expressions and the syscall catalogue |
| `TraceeTable.dfy` | the open-addressed table against a map |
| `Output.dfy` | the list of unfinished tasks of the text writer |
| `Statistics.dfy`, `Events.dfy` | aggregation, conservation and the canonical report |
| `Json.dfy`, `Validator.dfy`, `Ndjson.dfy` | the NDJSON writer against the repository's own parser |
| `Decoder.dfy` | escaping, flag sets and socket types |
| `Bits.dfy` | unsigned words as naturals, with the bitwise operators defined digit by digit |

## How the tracer is modelled

A `Notice` is one return of `waitpid` together with every answer the tracer gets from the system while
it handles it: the clock, the thread group of an unknown task, the reply to the resume request, a
pending shutdown signal.  A run is any sequence of notices, so tasks interleave arbitrarily.  The state
is the C context (tasks, unfinished list, statistics, event count, root) plus a `History` that no branch
looks at: the fresh entries, how each was closed, the requests made and the SIGSTOPs swallowed.  Output
is the sequence of lines; the renaming of an unfinished task at exec is noted between them.

A flush visits the table slots in their order in memory.  The state machine takes that order as an
input of each turn; the class computes it from the table, and `TraceLoop` proves that it always covers
the table, which is all the interleaving theorems ask of it.

The class realises the state machine step by step; what the machine itself does is stated a second time,
as facts about notices: `Ledger.Ends` says which calls a notice ends and how, `Turns.TableAfter` what it
does to every task, `Chronicle.Remarking` what it makes the tracer print.  `Step` is proved to agree with
them on every notice, including the notices that end the run.

Results that hold only under a condition state it:

* *Unsplit lines* (`Interleaving.TameRun`): no selected call is set aside by a restart pseudo-error
  (-512, -513, -514 or -516), in any task.  Calls that are not selected may be.  `Limits.RestartSplits`
  shows a restarted call whose unsplit line encloses its handler's lines, `Limits.RestartDisturbs` one
  task's restart disturbing the line of another.
* *Names* (`Naming.TameFor`): for each TID, a condition on the stops of that TID alone: no selected call
  of it is set aside, and it takes no part in an exec that changes a TID.  `Limits.RestartMisnames` and
  `Limits.ExecMisnames` show what happens otherwise.
* *The fast path* (`FastPath.Native`): any call may be interrupted and restarted.  But while a traced
  call of a task is set aside, that task enters no silent one; and a silent call is not restarted at a
  moment when that makes the simple tracer print (the flush of trace.c:617-624), nor by a traced
  restart_syscall.  `FastLimits` has a run for each way to diverge.
* The guard on elapsed time lets the last whole second before 2^64 nanoseconds wrap; `ElapsedExact`
  gives the exact condition.
* Line 101 of the repository's `README.md` says that positive filter terms form a set and negative ones
  subtract from it.  The code applies the terms from left to right; `DocumentedExactly` says on which
  numbers the two agree.

## Model

| member | source | states |
|---|---|---|
| `Theorems.EveryEntryAccounted` | src/trace.c:575-740 | over every run from a launch or an attach: fresh entries = closings + calls still held, the two disjoint; no entry is closed twice or held by two tasks; a completed call carries the number, arguments and entry time of its entry, and its task; restart-ready implies interrupted and nothing pending |
| `Theorems.NoPseudoErrorEscapes` | src/trace.c:389-394 | over every run with arbitrary exit values no printed line shows, and no counted call has, result -512, -513, -514 or -516; the completing lines are the selected completed calls one for one, in order and each at the place its closing names (or the statistics are those of exactly these calls); the event counter is their number |
| `Theorems.EveryLineAttributed` | src/trace.c:494-523 | over every run with lines, each line that completes a call belongs to a closing with that TID, result and, unless resumed, that whole event, whose entry has its number, arguments and entry time; and every selected completed call has its line |
| `Theorems.BooksToldByNotices` | src/trace.c:575-740 | over every run the entries are, in order, the numbers and arguments that the entry stops report (with the time of the stop if selected), the closings what the exits, execs and deaths bring, and the requests what the stops call for; every completed call was entered at one stop and ended at a later one that explains its result, errno and time |
| `Theorems.LinesToldByNotices` | src/trace.c:494-572 | over every run with lines, each line that completes a call shows the number and arguments of an entry stop and the result and errno of the later stop that ended the call; the other lines are exactly those on the signals, births and deaths notified; every unfinished line is of a call that was entered |
| `Theorems.DrainedLeavesNothingOpen` | src/output.c:101-158 | when no task is left no announcement is outstanding: every unfinished line was resumed or its task was reported to have ended |
| `Theorems.FinalStatusTold` | src/trace.c:1241-1250 | a drained launch reports the code of the last exit of the task that was then the root, or 128 plus the signal that killed it; a drained attach reports 0; a halted run reports 128 plus a pending shutdown signal |
| `Ledger.BeginAdds` | src/trace.c:575-681 | an entry stop adds the one entry of its own number and arguments unless it restarts the interrupted call; it ends a pending exec with result 0 and a call not restarted with -1 and EINTR; it is refused exactly on a number out of range, a pending call other than exec or full statistics |
| `Ledger.FinishAdds` | src/trace.c:683-740 | an exit stop ends the pending call with the value returned and errno -rval exactly when is_error is set and -INT_MAX <= rval < 0; a restart pseudo-error ends nothing but a call set aside before |
| `Ledger.StepTold` | src/trace.c:1400-1557 | one turn, any notice: when it ends the run, the entry it adds (at most one, only at an entry stop), the calls it ends with their results and times, the TIDs tracked afterwards and the calls each holds |
| `Ledger.RunTold` | src/trace.c:1400-1557 | over every run the entries and closings are the sequences taken from its notices |
| `Ledger.CallTold` | src/trace.c:575-740 | every completed call has a turn that entered it and a later turn that ended it |
| `Turns.StepTurned` | src/trace.c:1419-1556 | one turn, any notice: the whole table afterwards, the root with its status, the request made (LISTEN exactly for the group stop of an attached task, otherwise CONT or SYSCALL) and the SIGSTOP swallowed; the loop is left exactly on a shutdown signal |
| `Turns.RunRequested` | src/trace.c:1535-1552 | over every run the requests are, in order, those its stops call for |
| `Turns.DrainedStatus` | src/trace.c:1241-1250 | a drained launch reports the last death of the task that was the root at that moment |
| `Turns.HaltingTurn` | src/trace.c:1553-1556 | a halted run was halted by the shutdown signal of one of its turns, and reports 128 plus that signal |
| `Turns.LoopDrains` | src/trace.c:1559-1561 | the loop drains exactly when no task is tracked; an attached tracer then reports 0 |
| `Chronicle.StepSpoken` | src/trace.c:525-572 | one turn, any notice: the remark it prints on a signal (with the address only for a fault the kernel sent), a birth or a death, with TID, thread group and time; otherwise it only announces selected held calls and completes calls of its own task |
| `Chronicle.RunChronicled` | src/trace.c:525-572 | over every run the remarks are, in order, those its notices ask for; every announcement is of an entered call; only tracked TIDs have one outstanding |
| `Theorems.AnnouncementsBalance` | src/output.c:101-158 | over every run an unfinished line is printed only for a TID without one, a resumed line only for a TID with one, a whole line only for a TID without one, through exec renamings; the writer's list is the set of open announcements |
| `Theorems.NobodyStuck` | src/trace.c:1486-1552 | at every loop head a task still marked stopped is one the kernel reported gone on its last request; no newborn SIGSTOP is swallowed twice for a task; a launched root is tracked or its status recorded |
| `Theorems.UnsplitMeansUndisturbed` | src/trace.c:660-679 | on text runs in which no selected call is set aside, every unsplit line belongs to a closing since whose entry no line of any task was printed; at most one selected pending call is unannounced |
| `Theorems.ResumedNamesAnnounced` | src/output.c:183-202 | for every TID that itself had no selected call set aside and took no part in a TID-changing exec, whatever other tasks did, each resumed line names the syscall of its unfinished line |
| `Conservation.StepBalanced` | src/trace.c:1400-1557 | every turn of the loop keeps the books balanced: each entry closed exactly once or held by exactly one task, never both |
| `Conservation.RunBalanced` | src/trace.c:1400-1557 | the same over every run |
| `Conservation.EntriesConserved` | src/trace.c:575-740 | balanced books give entries = closings + held as numbers, disjointness and a unique holder |
| `Reporting.StepReported` | src/trace.c:494-523 | every turn keeps the printed results, or the statistics, equal to the selected completed calls in order |
| `Reporting.RunReported` | src/trace.c:494-523 | the same over every run |
| `Reporting.LineHasClosing` | src/trace.c:494-523 | every line that completes a call is the line of a closing: same TID, number, result and errno |
| `Reporting.ClosingHasLine` | src/trace.c:494-523 | every selected completed call has its line, unless a summary is asked for |
| `Reporting.LineIsReal` | src/trace.c:697-708 | no completing line shows a restart pseudo-error |
| `Protocol.StepDisciplined` | src/output.c:173-212 | every turn keeps the log legal and the unfinished list equal to the open announcements |
| `Protocol.RunDisciplined` | src/output.c:173-212 | the same over every run |
| `Interleaving.FlushLeaves` | src/trace.c:451-492 | after a flush that spares one task nobody else is unannounced, and a task that was the only unannounced one sees no line printed |
| `Interleaving.StepOrderly` | src/trace.c:1400-1557 | every turn that sets no selected call aside keeps: at most one unannounced call, silence since its entry, unsplit lines undisturbed |
| `Interleaving.RunOrderly` | src/trace.c:1400-1557 | the same over whole runs |
| `Naming.StepSincere` | src/trace.c:1400-1557 | every turn keeps an announcement of a TID equal to its pending call, under a condition on the stops of that TID alone |
| `Naming.RunSincere` | src/trace.c:1400-1557 | the same over whole runs |
| `Limits.RestartMisnames` | src/trace.c:697-708 | a run of five stops in which a resumed line names a handler's call instead of the interrupted one |
| `Limits.RestartSplits` | src/trace.c:617-632 | a run of nine stops in which a restarted call is printed unsplit although lines of its handler stand between its entry and its line |
| `Limits.RestartDisturbs` | src/trace.c:473-477 | a run of two threads in which the announcement of an interrupted call, hidden for a while by one that is not selected, disturbs the unsplit line of a thread that was never interrupted |
| `Limits.ExecMisnames` | src/trace.c:1194-1239 | a run of two threads in which the exec of the second ends the unfinished line of the leader's read |
| `FastLimits.RestartDiverges` | src/trace.c:634-654 | a run after which the simple tracer has printed an EINTR line that the seccomp tracer has not |
| `FastLimits.SilentCallHides` | src/trace.c:473-477 | a run after which the seccomp tracer has announced an interrupted call that a silent one hid from the simple tracer |
| `FastLimits.SilentRestartPrints` | src/trace.c:617-624 | a run after which the simple tracer, restarting a silent call, has announced a call of another thread and the seccomp tracer has not |
| `Lifecycle.HandleStopAnswered` | src/trace.c:1486-1552 | handling a stop touches that task and at most one newborn child; it is answered with the stop's own signal exactly for a genuine signal-delivery stop and with none otherwise; a newborn's SIGSTOP is swallowed |
| `Lifecycle.MigrationSpec` | src/trace.c:1194-1239 | the former TID disappears, the surviving TID has the exec'ing thread's state (its own if that thread was unknown, a new one if both were), every other entry is unchanged and the root follows |
| `Lifecycle.BuryFrame` | src/trace.c:1463-1480 | an exit removes exactly that task and records its status, the code or 128 plus the signal, exactly when it is the root |
| `Lifecycle.StepSound` | src/trace.c:1400-1557 | every turn keeps: root tracked or recorded, every stop answered, newborns untouched, SIGSTOPs swallowed at most once |
| `Lifecycle.RunSound` | src/trace.c:1400-1557 | the same over every run |
| `Lifecycle.DrainedStatusIsRecorded` | src/trace.c:1559-1561 | in launch mode a drained loop always reports the recorded status of the root, never the fallback 0 |
| `Lifecycle.StepRequests` | src/trace.c:1535-1552 | a turn issues exactly one request for a stop of a tracked task, with the signal due, and none otherwise |
| `Lifecycle.SignalsFaithful` | src/trace.c:1508-1533 | over every run the injected signals are the genuine signal-delivery stops, one for one and in order, with 0 for every other stop |
| `ForkRace.OrdersAgree` | src/trace.c:1166-1190 | with following on and the thread-group lookup succeeding, parent event first and child stop first reach the same table, output, statistics and history; the SIGSTOP is swallowed once and each task resumed once without a signal |
| `ForkRace.KnownOrdersAgree` | src/trace.c:1440-1452 | the two orders commute once the child is tracked as a newborn |
| `FastLimits.TracedRestartPrints` | src/trace.c:617-620 | with restart_syscall selected, a run after which the seccomp tracer has printed a call of it that the simple tracer took for the restart of a silent call |
| `FastPath.SilentMeans` | src/trace.c:171-195 | the compiled program is silent on a native number exactly when it is neither selected nor rt_sigreturn |
| `FastPath.SeenStep` | src/trace.c:793-832 | a stop that both tracers see keeps them alike, and shuts both down with the same status |
| `FastPath.UnseenStep` | src/trace.c:354-371 | a stop only the simple tracer sees, restarts included, changes nothing the fast one would show |
| `FastPath.RunsAlike` | src/trace.c:354-371 | the two tracers stay alike over whole runs |
| `FastPath.FastPathRefines` | src/trace.c:143-196 | for every well-formed run of native calls, interrupted and restarted ones included, removing the stops the compiled program lets through leaves the printed lines, the statistics, the event count, the root and the final status unchanged |
| `FastPath.FastPathHaltsAlike` | src/trace.c:1553-1556 | if a shutdown ends the simple tracer, the fast one ends with the same status at that stop, if it sees it, and has in any case shown the same |
| `Visibility.FlushAlike` | src/trace.c:451-492 | two states that show the same held calls print the same lines in a flush |
| `Bpf.ProgramMeansFilter` | src/trace.c:171-195 | for every filter and every 32-bit architecture and number, interpreting the program gives TRACE+1 on a foreign architecture, else TRACE+2 from 0x40000000 on, else TRACE exactly for selected numbers and rt_sigreturn, else ALLOW |
| `Bpf.ProgramShape` | src/trace.c:155-195 | the length is 7 + 2k for k traced numbers and at most 1031, and every jump goes forward to an instruction inside the program |
| `Bpf.TestsLength` | src/trace.c:183-192 | the tests take two instructions for each traced number |
| `Bpf.SeccompProgram.Append` | src/trace.c:131-141 | one instruction is appended and the unsigned-short length does not wrap |
| `Bpf.SeccompProgram.AppendHeader` | src/trace.c:171-182 | the six fixed instructions |
| `Bpf.SeccompProgram.AppendTests` | src/trace.c:183-192 | the loop over all numbers appends exactly the tests of the filter |
| `Bpf.TestCount` | src/trace.c:147-154 | the popcount of the words, plus one without rt_sigreturn, is the number of traced syscalls |
| `Bpf.PrepareSeccompProgram` | src/trace.c:143-196 | the allocated buffer is filled exactly with a program whose interpretation is the filter's verdict on every input |
| `Filters.SetBitEffect` | src/filter.c:21-38 | setting or clearing one bit adds or removes exactly that number |
| `Filters.Filter.SetNumber` | src/filter.c:21-38 | the same for the array in place; numbers out of range change nothing |
| `Filters.Filter.Count` | src/filter.c:70-84 | clearing the lowest bit until none is left counts the selected numbers |
| `Bits.PopcountIsCardinality` | src/filter.c:70-84 | the popcount of a word is the cardinality of its set of positions |
| `Filters.Filter.ApplyClass` | src/filter.c:86-99 | exactly the members of the class are switched |
| `Filters.HasPositiveTerm` | src/filter.c:101-116 | the scan finds a positive term exactly when splitting at commas yields one |
| `Filters.Filter.ApplyTerm` | src/filter.c:149-187 | a term is accepted exactly when it names a known class or syscall in fewer than 128 bytes, and then decides exactly the numbers it matches |
| `Filters.Filter.ApplyTerms` | src/filter.c:147-197 | the cursor loop applies all terms, and fails exactly when one is unknown or empty |
| `Filters.Filter.Parse` | src/filter.c:118-200 | which specifications are accepted is characterised; a number is selected iff the last term matching it is positive, or none matches and there is no positive term; rejection leaves the filter unchanged |
| `Filters.SubtractiveMeaning` | src/filter.c:118-200 | when all positive terms come first the selection is the union of the positive terms minus the negative ones |
| `Filters.DocumentedExactly` | src/filter.c:147-197 | for every expression and number the selection is the documented set difference iff no positive term brings the number back after a negative one |
| `Filters.LaterPositiveWins` | src/filter.c:147-197 | `!read,read` selects read although the documented meaning does not, and `read,!read` does not select it |
| `Catalog.ByNumber` | src/syscall_catalog.c:51-72 | binary search over a strictly sorted table finds the row of a number iff there is one |
| `Catalog.ByName` | src/syscall_catalog.c:33-49 | linear search by name |
| `Catalog.ClassByName` | src/syscall_catalog.c:104-118 | the mask of a known class, and nothing for any other name |
| `TraceeTables.HashTid` | src/tracee_table.c:9-17 | the hash is a 64-bit word |
| `TraceeTables.MaskedSuccessor` | src/tracee_table.c:53-53 | `(index + 1) & mask` is the cyclic successor because the capacity is a power of two |
| `TraceeTables.SomeEmpty` | src/tracee_table.c:88-101 | the load limit always leaves an empty slot |
| `TraceeTables.ProbeEnds` | src/tracee_table.c:40-43 | a probe that meets an empty slot has proved the TID absent |
| `TraceeTables.TraceeTable.FindSlot` | src/tracee_table.c:30-55 | the probe terminates, finds a present TID at its place and otherwise returns a slot in which it may be stored |
| `TraceeTables.TraceeTable.Get` | src/tracee_table.c:103-113 | the lookup of the abstract map, for every TID |
| `TraceeTables.TraceeTable.Insert` | src/tracee_table.c:115-145 | a new TID is added to the map, a present one left alone, and nothing changes on failure; it succeeds on valid ids when memory lasts |
| `TraceeTables.TraceeTable.Remove` | src/tracee_table.c:147-168 | the TID leaves the map and its state is returned; the tombstone keeps every other probe intact |
| `TraceeTables.TraceeTable.Resize` | src/tracee_table.c:57-86 | rehashing keeps the map and drops the tombstones; a failed allocation changes nothing |
| `TraceeTables.TraceeTable.EnsureCapacity` | src/tracee_table.c:88-101 | afterwards one more entry stays below 7/10 load |
| `TraceeTables.TraceeTable.Update` | src/tracee_table.c:103-113 | a store through the returned pointer changes one value of the map and no position |
| `TraceeTables.TraceeTable.SlotOrder` | src/trace.c:988-1010 | a loop over the raw slots meets every tracked TID and no other |
| `TraceeTables.OrderCovers` | src/trace.c:461-472 | the slot order lists each tracked TID exactly once |
| `Outputs.SwapRemoveEffect` | src/output.c:147-158 | moving the last element into the gap removes one TID and keeps the list duplicate-free |
| `Outputs.Output.Find` | src/output.c:101-115 | found iff the TID is in the list, at the returned position |
| `Outputs.Output.Add` | src/output.c:117-145 | the set gains the TID and the list stays duplicate-free |
| `Outputs.Output.Remove` | src/output.c:147-158 | the set loses the TID; the result says whether it was there |
| `Outputs.Output.WriteTextSyscall` | src/output.c:173-212 | prints the unfinished, resumed or whole line of the state machine |
| `Outputs.Output.WriteTextEvent` | src/output.c:224-270 | an exit line also closes the announcement of its TID |
| `Outputs.Output.WriteEvent` | src/output.c:434-460 | the choice between summary, text and NDJSON; unfinished calls make no NDJSON line |
| `Outputs.Output.MigrateTid` | src/output.c:462-476 | the announcement is renamed, or merged with the one already there |
| `Tracers.Tracer.FlushUnfinished` | src/trace.c:451-492 | the loop over the raw slots is the flush of the state machine in slot order |
| `Tracers.Tracer.WriteSyscallEvent` | src/trace.c:494-523 | counts and prints or aggregates as the state machine does |
| `Tracers.Tracer.BeginSyscall` | src/trace.c:575-681 | the in-place updates of an entry realise `Begin` in all its branches |
| `Tracers.Tracer.FinishSyscall` | src/trace.c:683-740 | the in-place updates of an exit realise `Finish` in all its branches |
| `Tracers.Tracer.AddTracee` | src/trace.c:840-859 | realises `AddTask` |
| `Tracers.Tracer.RemoveTracee` | src/trace.c:1478-1479 | realises `RemoveTask` |
| `Tracers.Tracer.HandleExecEvent` | src/trace.c:1130-1154 | realises `HandleExec` |
| `Tracers.Tracer.HandleChildEvent` | src/trace.c:1155-1191 | realises `HandleChild` although the insertion may move the table |
| `Tracers.Tracer.MigrateExecTid` | src/trace.c:1194-1239 | the two removals and the insertion realise `MigrateExec` |
| `Tracers.Tracer.HandleSignalStop` | src/trace.c:1508-1533 | realises `HandleSignal` |
| `Tracers.Tracer.ResumeTracee` | src/trace.c:354-381 | chooses CONT, SYSCALL or LISTEN and realises `Resume` |
| `Tracers.Tracer.HandleExit` | src/trace.c:1463-1480 | realises `Bury` |
| `Tracers.Tracer.HandleNotice` | src/trace.c:1419-1556 | one turn realises `Step`, with the slot order of the turn, which covers the table; with room in the table it fails only where `Step` does |
| `Tracers.Tracer.TraceLoop` | src/trace.c:1400-1563 | the loop over any sequence of wait events ends as `After` says, every flush having covered the table; with room in the table it fails exactly where the model aborts |
| `Tracers.Launch` | src/trace.c:1389-1398 | tracking and resuming the root gives the initial state of the launch; a refused resume or missing memory makes it fail |
| `Tracers.TraceCommand` | src/trace.c:1565-1632 | from the launch through any wait events the structures in memory show the state of the machine, and a failure is one of the machine unless memory ran out or the root could not be resumed; the printed lines follow the unfinished/resumed protocol and show no pseudo-error, and on tame runs names agree and unsplit lines are undisturbed |
| `Statistics.ElapsedExact` | src/stats.c:9-31 | for normalised timestamps the computed duration is max(0, exit - entry) iff that fits in 64 bits, which a difference below 18446744073 seconds guarantees |
| `Statistics.ElapsedWraps` | src/stats.c:25-29 | 2^64 nanoseconds pass the guard and wrap to 0 |
| `Statistics.RecordAllTallies` | src/stats.c:79-115 | recording succeeds iff every event is complete and the totals fit; then each row is the tally of its number and the totals are those of all events |
| `Statistics.RowsCount` | src/stats.c:79-115 | each row counts the indices of its number, those of them with an errno, and the sum of their true durations (normalised stamps, spans below 2^64); the totals are the same over all events, and every number has its row |
| `Statistics.RecordingSucceeds` | src/stats.c:86-95 | recording measurable events succeeds exactly when all are completed and their numbers and total time fit in 64 bits |
| `Statistics.ReportOrder` | src/stats.c:117-144 | the longer total time comes first, then the name, known before unknown, then the number |
| `Statistics.Conserved` | src/stats.c:79-115 | the sums of the rows' calls, errors and nanoseconds are the totals, row numbers are distinct and errors never exceed calls |
| `Statistics.RowGuardsIdle` | src/stats.c:103-107 | once the total guards pass no row-level guard can fire |
| `Statistics.StatsTable.Record` | src/stats.c:79-115 | succeeds exactly when the events so far and this one fit, adds it, and changes nothing on failure |
| `Statistics.StatsTable.RowIndex` | src/stats.c:44-54 | the first row of the number, or the end |
| `Statistics.CompareSign` | src/stats.c:117-144 | rows with different numbers never compare equal, and swapping the operands flips the sign |
| `Statistics.CompareTransitive` | src/stats.c:117-144 | the comparison is transitive |
| `Statistics.SortedUnique` | src/stats.c:146-164 | two sorted sequences of the same rows are the same sequence |
| `Statistics.ReportIsCanonical` | src/stats.c:146-164 | permuting the recorded events changes neither whether recording succeeds nor the sorted copy, whatever algorithm sorts it |
| `Statistics.StatsTable.SortedCopy` | src/stats.c:146-164 | a sorted permutation of the rows; the table is unchanged |
| `Json.AppendJsonString` | src/output.c:28-74 | appends the quoted escape of the bytes |
| `Json.StringRoundTrip` | src/output.c:28-74 | unescaping by section 7 of RFC 8259 gives every byte string back |
| `Json.PrintedIsValid` | tests/ndjson_validator.c:153-192 | the validator accepts every printed value that nests at most 64 deep |
| `Json.PrintInjective` | src/output.c:312-399 | no two values are printed alike |
| `Json.PrintedOneLine` | src/output.c:28-74 | no printed value contains a newline or another control byte |
| `Validator.Parser.SkipSpace` | tests/ndjson_validator.c:13-19 | the cursor stands on the first byte that is not white space |
| `Validator.Parser.ParseString` | tests/ndjson_validator.c:23-54 | accepts what the string grammar accepts and stops right behind it |
| `Validator.Parser.ParseNumber` | tests/ndjson_validator.c:56-95 | the same for numbers |
| `Validator.Parser.ParseArray` | tests/ndjson_validator.c:97-119 | the same for arrays |
| `Validator.Parser.ParseObject` | tests/ndjson_validator.c:121-151 | the same for objects |
| `Validator.Parser.ParseValue` | tests/ndjson_validator.c:153-180 | the same for values, with the depth limit and the depth restored on success |
| `Validator.Validate` | tests/ndjson_validator.c:182-192 | decides exactly the valid lines, and terminates |
| `Ndjson.RecordIsValid` | src/output.c:312-399 | for every event, with arbitrary names and decoded text, the record is one line that the validator accepts |
| `Ndjson.RecordIsLossless` | src/output.c:312-399 | events with the same line agree on TID, thread group, timestamp, kind and everything the kind carries: number, arguments, result, errno, duration and text of a call |
| `Ndjson.RecordFields` | src/output.c:290-399 | looking members up by key in the record of any event gives its TID, thread group and time in nanoseconds, and for a call its number, shown arguments, result, errno and true duration; for a signal, a birth and a death what they carry |
| `Ndjson.DurationIsSpan` | src/output.c:272-288 | the duration shown is max(0, exit - entry) in nanoseconds as long as that fits in 64 bits, and agrees with the statistics |
| `Ndjson.TimestampCounts` | src/output.c:306-309 | a stamp that fits is shown as seconds times 10^9 plus nanoseconds; earlier stamps show smaller numbers, and a duration is the difference of two of them |
| `Ndjson.AppendHeader` | src/output.c:290-310 | the five leading members |
| `Ndjson.RenderArguments` | src/output.c:329-334 | the loop writes the shown arguments as 64-bit hexadecimal words |
| `Ndjson.AppendSyscall` | src/output.c:312-356 | the members of a syscall record, in order |
| `Ndjson.AppendEvent` | src/output.c:358-399 | the pieces appended for any event are the printed record |
| `Ndjson.Metadata` | src/output.c:419-423 | the first line of a trace is valid and a single line |
| `Ndjson.WriteAndValidate` | tests/ndjson_validator.c:182-192 | the imperative validator accepts what the imperative writer wrote |
| `Decoder.AppendEscaped` | src/decoder.c:127-182 | appends the quoted escape of the bytes |
| `Decoder.RenderedReadsBack` | src/decoder.c:127-182 | whatever follows, reading a rendered byte string gives the bytes back and stops at its closing quote |
| `Decoder.RenderedReadsBackFromJson` | src/output.c:28-74 | the same after JSON escaping |
| `Decoder.PeelExact` | src/decoder.c:256-268 | for every word and table the found flags and the residual OR to the word |
| `Decoder.PeelDisjoint` | src/decoder.c:256-268 | no two found flags share a bit with each other or with the residual |
| `Decoder.PeelMaximal` | src/decoder.c:256-268 | the residual contains no nonzero flag of the table whole |
| `Decoder.AppendFlags` | src/decoder.c:245-276 | prints the found names and the residual, separated by bars |
| `Decoder.FlagsReadBack` | src/decoder.c:245-276 | for every word and every table of distinct bar-free names the text reads back as the word |
| `Decoder.SocketSplit` | src/decoder.c:366-367 | type and flags share no bit and OR to the value |
| `Decoder.AppendSocketType` | src/decoder.c:364-394 | prints the type, the two flags and the residual |
| `Decoder.SocketTypeReadsBack` | src/decoder.c:364-394 | for every value the text reads back as the value |

## Left out

- The kernel, `/proc`, the clock, process memory and signal handlers: their answers are inputs of a notice, any values at all.
- A failing clock, a failing write, a `waitpid` failure other than EINTR and a failing allocation in the output buffer end the run at once; they are not modelled.  In the tracee table a failed allocation is the Boolean `memory`.
- `phase` and `options_installed` of a tracee: they matter only to detaching.
- Attaching (`prepare_attach`), `kill_all_tracees` and `detach_all_tracees`: kernel interaction; an attach starts from the set of seized TIDs.
- x32 and foreign-architecture stops beyond the verdict of the program: they only end the run.
- Argument decoding other than escaping, flag sets and socket types: a line carries the number and arguments, and an NDJSON record takes the decoded text as an input.
- `append_open_flags` as a lossless rendering (access mode 3 prints as O_RDONLY), and the ellipsis of `append_remote_bytes`.
- The layout of text lines and of both summaries, with their floating-point percentages.
- Command line, usage text and `src/buffer.c`: a buffer is a sequence.
- The 385 rows of the catalogue: any strictly sorted table with unique names.
- `qsort`: the sorted copy is made by insertion, and `Statistics.SortedUnique` makes the result independent of that.
- FastPath.FastPathRefines: only for runs that a kernel can produce (entries and exits of a task alternate, a task is not first seen at a syscall stop, the root does not exit with 126 before its exec, which the fast tracer takes for a failed seccomp setup) and in which interrupted and silent calls do not meet in the ways that `FastLimits` shows to diverge.
- Theorems.UnsplitMeansUndisturbed: only where no selected call is set aside; `Limits.RestartSplits` and `Limits.RestartDisturbs` show why.
- Theorems.ResumedNamesAnnounced: only for TIDs without a selected call set aside and without a TID-changing exec; `Limits.RestartMisnames` and `Limits.ExecMisnames` show why.
- Outputs.Output.Add: does not model a failing allocation of the list, which ends the run.
- Statistics.StatsTable.Record: does not model a failing allocation of a new row, which ends the run.
- Validator.Parser.ParseString: rejects a text that ends inside an escape, where the C code reads past the end.
- Json.StringRoundTrip: on bytes; whether they are UTF-8 is not considered.
