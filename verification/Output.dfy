/** The event writer with its list of unfinished tasks (src/output.c). */
module Outputs {
  import opened Bits
  import opened Events
  import opened TraceModel

  ghost predicate Distinct(tids: seq<int>) {
    forall i, j :: 0 <= i < j < |tids| ==> tids[i] != tids[j]
  }

  ghost function Members(tids: seq<int>): set<int> {
    set tid | tid in tids
  }

  /** unfinished_remove moves the last element into the gap. */
  function SwapRemove(tids: seq<int>, position: nat): seq<int>
    requires position < |tids|
  {
    tids[position := tids[|tids| - 1]][..|tids| - 1]
  }

  lemma SwapRemoveEffect(tids: seq<int>, position: nat)
    requires Distinct(tids) && position < |tids|
    ensures Distinct(SwapRemove(tids, position))
    ensures Members(SwapRemove(tids, position)) == Members(tids) - {tids[position]}
  {
    var n := |tids| - 1;
    var after := SwapRemove(tids, position);
    forall tid | tid in Members(tids) - {tids[position]} ensures tid in after {
      var i :| 0 <= i < |tids| && tids[i] == tid;
      assert if i == n then after[position] == tid else after[i] == tid;
    }
    forall tid | tid in after ensures tid in tids && tid != tids[position] {
      var i :| 0 <= i < |after| && after[i] == tid;
      assert tid == if i == position then tids[n] else tids[i];
    }
  }

  class Output {
    const summary: bool
    const format: Format
    var unfinished: seq<int>
    ghost var log: seq<Record>

    ghost predicate Valid()
      reads this
    {
      Distinct(unfinished)
    }

    ghost function Open(): set<int>
      reads this
    {
      Members(unfinished)
    }

    /** The state shows the output of this writer. */
    ghost predicate Shows(st: State)
      reads this
    {
      st.log == log && st.open == Open()
    }

    constructor (summary: bool, format: Format)
      ensures Valid() && Open() == {} && log == [] && this.summary == summary && this.format == format
    {
      this.summary, this.format := summary, format;
      unfinished, log := [], [];
    }

    /** unfinished_contains. */
    method Find(tid: int) returns (position: nat, found: bool)
      ensures found <==> tid in Open()
      ensures found ==> position < |unfinished| && unfinished[position] == tid
    {
      position := 0;
      while position < |unfinished| && unfinished[position] != tid
        invariant position <= |unfinished|
        invariant forall i :: 0 <= i < position ==> unfinished[i] != tid
      {
        position := position + 1;
      }
      found := position < |unfinished|;
    }

    /** unfinished_add. */
    method Add(tid: int)
      requires Valid()
      modifies `unfinished
      ensures Valid() && Open() == old(Open()) + {tid}
    {
      var _, found := Find(tid);
      if !found {
        unfinished := unfinished + [tid];
      }
    }

    /** unfinished_remove. */
    method Remove(tid: int) returns (found: bool)
      requires Valid()
      modifies `unfinished
      ensures Valid() && Open() == old(Open()) - {tid}
      ensures found <==> tid in old(Open())
    {
      var position;
      position, found := Find(tid);
      if found {
        SwapRemoveEffect(unfinished, position);
        unfinished := SwapRemove(unfinished, position);
      }
    }

    method PrintLine(line: Line)
      modifies `log
      ensures log == old(log) + [Printed(line)]
    {
      log := log + [Printed(line)];
    }

    /** write_text_syscall. */
    method WriteTextSyscall(event: Event, ghost st: State)
      requires Valid() && Shows(st) && event.body.SyscallBody?
      modifies this
      ensures Valid() && Shows(WriteText(st, event))
    {
      var s := event.body.syscall;
      if !s.completed {
        var _, found := Find(event.tid);
        if found {
          return;
        }
        Add(event.tid);
        PrintLine(Unfinished(event.tid, s.number, s.args));
      } else {
        var resumed := Remove(event.tid);
        if resumed {
          PrintLine(Resumed(event.tid, s.number, s.result, s.errorNumber));
        } else {
          PrintLine(Whole(event.tid, s));
        }
      }
    }

    /** write_text_event. */
    method WriteTextEvent(event: Event, ghost st: State)
      requires Valid() && Shows(st)
      modifies this
      ensures Valid() && Shows(WriteText(st, event))
    {
      if event.body.SyscallBody? {
        WriteTextSyscall(event, st);
      } else {
        if event.body.ExitBody? {
          var _ := Remove(event.tid);
        }
        PrintLine(Plain(event.tid, event.body));
      }
    }

    /** sg_output_write_event. */
    method WriteEvent(event: Event, ghost cfg: Config, ghost st: State)
      requires Valid() && Shows(st) && cfg.summary == summary && cfg.format == format
      modifies this
      ensures Valid() && Shows(Emit(cfg, st, event))
    {
      if summary {
        return;
      }
      if format.Text? {
        WriteTextEvent(event, st);
      } else if !(event.body.SyscallBody? && !event.body.syscall.completed) {
        PrintLine(JsonLine(event));
      }
    }

    /** sg_output_migrate_tid. */
    method MigrateTid(former: int, current: int, ghost st: State)
      requires Valid() && Shows(st)
      modifies this
      ensures Valid() && Shows(RenameOpen(st, former, current))
    {
      if former == current {
        return;
      }
      var position, found := Find(former);
      if !found {
        return;
      }
      var _, present := Find(current);
      if present {
        var _ := Remove(former);
        assert Open() == st.open - {former} + {current};
      } else {
        RenameEffect(unfinished, position, current);
        unfinished := unfinished[position := current];
      }
      log := log + [Renamed(former, current)];
    }
  }

  lemma RenameEffect(tids: seq<int>, position: nat, current: int)
    requires Distinct(tids) && position < |tids| && current !in tids
    ensures Distinct(tids[position := current])
    ensures Members(tids[position := current]) == Members(tids) - {tids[position]} + {current}
  {
    var after := tids[position := current];
    forall tid | tid in Members(tids) - {tids[position]} + {current} ensures tid in after {
      if tid == current {
        assert after[position] == tid;
      } else {
        var i :| 0 <= i < |tids| && tids[i] == tid;
        assert after[i] == tid;
      }
    }
  }
}
