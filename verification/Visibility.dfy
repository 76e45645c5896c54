/** Two states that show the same calls produce the same output. */
module Visibility {
  import opened Bits
  import opened Events
  import opened TraceModel

  /** What a flush would announce for `tid`. */
  ghost function Shown(cfg: Config, st: State, tid: int): Option<Event> {
    if tid in st.tasks && Held(st.tasks[tid]).Some? && Selected(cfg, Held(st.tasks[tid]).value.number) then
      Some(Announcement(tid, st.tasks[tid], Held(st.tasks[tid]).value))
    else None
  }

  ghost predicate SameForm(c: Config, d: Config) { c.summary == d.summary && c.format == d.format }

  ghost predicate SameOutput(a: State, b: State) { a.log == b.log && a.open == b.open }

  lemma EmitAlike(c: Config, d: Config, a: State, b: State, event: Event)
    requires SameForm(c, d) && SameOutput(a, b)
    ensures SameOutput(Emit(c, a, event), Emit(d, b, event))
  {
  }

  lemma {:induction false} FlushAlike(c: Config, d: Config, a: State, b: State, except: int, order: seq<int>)
    requires SameForm(c, d) && SameOutput(a, b)
    requires forall tid :: Shown(c, a, tid) == Shown(d, b, tid)
    ensures SameOutput(FlushSlots(c, a, except, order), FlushSlots(d, b, except, order))
    ensures SameOutput(Flush(c, a, except, order), Flush(d, b, except, order))
  {
    if order != [] {
      var front, tid := order[..|order| - 1], order[|order| - 1];
      FlushAlike(c, d, a, b, except, front);
      var x, y := FlushSlots(c, a, except, front), FlushSlots(d, b, except, front);
      assert Shown(c, x, tid) == Shown(c, a, tid) && Shown(d, y, tid) == Shown(d, b, tid);
      if tid != except && Shown(c, a, tid).Some? { EmitAlike(c, d, x, y, Shown(c, a, tid).value); }
    }
  }

  /** A flush that spares `tid` has nothing to print. */
  ghost predicate FlushIdle(cfg: Config, st: State, tid: int) {
    cfg.format.Text? && !cfg.summary ==>
      forall u | u in st.tasks && u != tid :: Shown(cfg, st, u).Some? ==> u in st.open
  }

  lemma {:induction false} IdleFlush(cfg: Config, st: State, tid: int, order: seq<int>)
    requires FlushIdle(cfg, st, tid)
    ensures FlushSlots(cfg, st, tid, order) == st || cfg.summary
    ensures Flush(cfg, st, tid, order) == st
  {
    if order != [] {
      IdleFlush(cfg, st, tid, order[..|order| - 1]);
      var u := order[|order| - 1];
      if u in st.tasks && u != tid {
        assert Shown(cfg, st, u).Some? ==> u in st.open || !cfg.format.Text? || cfg.summary;
      }
    }
  }
}
