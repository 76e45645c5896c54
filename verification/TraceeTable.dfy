/** The open-addressed table of tracked tasks (src/tracee_table.c). */
module TraceeTables {
  import opened Bits
  import opened TraceModel

  datatype Slot = Empty | Tombstone | Occupied(tid: int, tracee: Tracee)

  const INITIAL_CAPACITY: nat := 16

  /** hash_tid, on 64-bit words.  The table below works with any hash. */
  function HashTid(tid: int): (h: nat)
    ensures h < TWO_64
  {
    var value := tid % TWO_64;
    var a := Xor(value, value / 0x2_0000_0000);
    var b := a * 0xff51_afd7_ed55_8ccd % TWO_64;
    Pow2Of64();
    XorBound(b, b / 0x2_0000_0000, 64);
    Xor(b, b / 0x2_0000_0000)
  }

  /** The capacity is a power of two, so that masking is the remainder. */
  ghost predicate PowerOfTwo(capacity: nat) {
    exists k: nat :: capacity == Pow2(k)
  }

  /** The first slot a TID is looked for in. */
  function Home(hash: int -> nat, tid: int, capacity: nat): (h: nat)
    requires capacity > 0
    ensures h < capacity
  {
    AndBound(hash(tid), capacity - 1);
    And(hash(tid), capacity - 1)
  }

  /** The slot `steps` after `home`, cyclically. */
  function At(home: nat, steps: nat, capacity: nat): (p: nat)
    requires home < capacity && steps < capacity
    ensures p < capacity
  {
    if home + steps < capacity then home + steps else home + steps - capacity
  }

  function Distance(home: nat, p: nat, capacity: nat): (d: nat)
    requires home < capacity && p < capacity
    ensures d < capacity && At(home, d, capacity) == p
  {
    if p >= home then p - home else p + capacity - home
  }

  /** `(index + 1) & mask` goes to the next slot. */
  lemma MaskedSuccessor(home: nat, steps: nat, capacity: nat)
    requires PowerOfTwo(capacity) && home < capacity && steps + 1 < capacity
    ensures And(At(home, steps, capacity) + 1, capacity - 1) == At(home, steps + 1, capacity)
  {
    var k: nat :| capacity == Pow2(k);
    var next := At(home, steps, capacity) + 1;
    if next == capacity { MaskWraps(k); } else { MaskKeeps(next, k); }
  }

  // ----- what a well-formed table is

  /** No slot on the way from the home of `tid` to `p` is empty. */
  ghost predicate Reaches(hash: int -> nat, slots: seq<Slot>, tid: int, p: nat)
    requires p < |slots|
  {
    var home := Home(hash, tid, |slots|);
    forall j :: 0 <= j < Distance(home, p, |slots|) ==> !slots[At(home, j, |slots|)].Empty?
  }

  /** `place` says where each TID is. */
  ghost predicate WellPlaced(hash: int -> nat, slots: seq<Slot>, place: map<int, nat>) {
    && (forall tid | tid in place ::
          && tid > 0 && place[tid] < |slots|
          && slots[place[tid]].Occupied? && slots[place[tid]].tid == tid
          && Reaches(hash, slots, tid, place[tid]))
    && (forall p :: 0 <= p < |slots| && slots[p].Occupied? ==> slots[p].tid in place && place[slots[p].tid] == p)
  }

  function CountOccupied(slots: seq<Slot>): nat {
    if slots == [] then 0 else CountOccupied(slots[..|slots| - 1]) + (if slots[|slots| - 1].Occupied? then 1 else 0)
  }

  function CountTombstones(slots: seq<Slot>): nat {
    if slots == [] then 0 else CountTombstones(slots[..|slots| - 1]) + (if slots[|slots| - 1].Tombstone? then 1 else 0)
  }

  lemma {:induction false} CountUpdate(slots: seq<Slot>, p: nat, s: Slot)
    requires p < |slots|
    ensures CountOccupied(slots[p := s]) ==
            CountOccupied(slots) + (if s.Occupied? then 1 else 0) - (if slots[p].Occupied? then 1 else 0)
    ensures CountTombstones(slots[p := s]) ==
            CountTombstones(slots) + (if s.Tombstone? then 1 else 0) - (if slots[p].Tombstone? then 1 else 0)
  {
    var n := |slots| - 1;
    if p < n {
      CountUpdate(slots[..n], p, s);
      assert slots[p := s][..n] == slots[..n][p := s];
    } else {
      assert slots[p := s][..n] == slots[..n];
    }
  }

  /** While the counters stay below the capacity there is an empty slot. */
  lemma {:induction false} SomeEmpty(slots: seq<Slot>) returns (p: nat)
    requires CountOccupied(slots) + CountTombstones(slots) < |slots|
    ensures p < |slots| && slots[p].Empty?
  {
    var n := |slots| - 1;
    if slots[n].Empty? { p := n; } else { p := SomeEmpty(slots[..n]); }
  }

  lemma {:induction false} AllEmptyCounts(slots: seq<Slot>)
    requires forall p :: 0 <= p < |slots| ==> slots[p].Empty?
    ensures CountOccupied(slots) == 0 && CountTombstones(slots) == 0
  {
    if slots != [] { AllEmptyCounts(slots[..|slots| - 1]); }
  }

  /** Putting a new TID where a probe for it ended. */
  lemma Placed(hash: int -> nat, slots: seq<Slot>, place: map<int, nat>, tid: int, p: nat, t: Tracee)
    requires WellPlaced(hash, slots, place) && tid > 0 && tid !in place
    requires p < |slots| && !slots[p].Occupied? && Reaches(hash, slots, tid, p)
    ensures WellPlaced(hash, slots[p := Occupied(tid, t)], place[tid := p])
  {
    var after, now := slots[p := Occupied(tid, t)], place[tid := p];
    forall u | u in now ensures now[u] < |after| && u > 0 && Reaches(hash, after, u, now[u]) {
      if u != tid { assert Reaches(hash, slots, u, place[u]); }
    }
  }

  /** A removed TID leaves a tombstone, so that nobody's way is cut. */
  lemma Unplaced(hash: int -> nat, slots: seq<Slot>, place: map<int, nat>, tid: int)
    requires WellPlaced(hash, slots, place) && tid in place
    ensures WellPlaced(hash, slots[place[tid] := Tombstone], place - {tid})
  {
    var after, now := slots[place[tid] := Tombstone], place - {tid};
    forall u | u in now ensures now[u] < |after| && u > 0 && Reaches(hash, after, u, now[u]) {
      assert Reaches(hash, slots, u, place[u]);
    }
  }

  lemma Overwritten(hash: int -> nat, slots: seq<Slot>, place: map<int, nat>, tid: int, t: Tracee)
    requires WellPlaced(hash, slots, place) && tid in place
    ensures WellPlaced(hash, slots[place[tid] := Occupied(tid, t)], place)
  {
    var after := slots[place[tid] := Occupied(tid, t)];
    forall u | u in place ensures place[u] < |after| && u > 0 && Reaches(hash, after, u, place[u]) {
      assert Reaches(hash, slots, u, place[u]);
    }
  }

  /** A probe that meets an empty slot after `steps` others proves the TID absent. */
  lemma ProbeEnds(hash: int -> nat, slots: seq<Slot>, place: map<int, nat>, tid: int, steps: nat)
    requires WellPlaced(hash, slots, place) && tid > 0 && steps < |slots|
    requires slots[At(Home(hash, tid, |slots|), steps, |slots|)].Empty?
    requires forall j :: 0 <= j < steps ==>
               var s := slots[At(Home(hash, tid, |slots|), j, |slots|)]; !(s.Occupied? && s.tid == tid)
    ensures tid !in place
  {
    forall u | u in place ensures u != tid || !slots[At(Home(hash, tid, |slots|), steps, |slots|)].Empty? {
      assert Reaches(hash, slots, u, place[u]);
      assert At(Home(hash, u, |slots|), Distance(Home(hash, u, |slots|), place[u], |slots|), |slots|) == place[u];
    }
  }

  // ----- the table as a map

  ghost function Mapping(slots: seq<Slot>, place: map<int, nat>): map<int, Tracee> {
    map tid | tid in place && place[tid] < |slots| && slots[place[tid]].Occupied? :: slots[place[tid]].tracee
  }

  /** The TIDs in the order of the slots. */
  function Order(slots: seq<Slot>): seq<int> {
    if slots == [] then []
    else Order(slots[..|slots| - 1]) + (if slots[|slots| - 1].Occupied? then [slots[|slots| - 1].tid] else [])
  }

  lemma {:induction false} OrderMembers(slots: seq<Slot>)
    ensures forall tid :: tid in Order(slots) <==> exists p :: 0 <= p < |slots| && slots[p].Occupied? && slots[p].tid == tid
    ensures |Order(slots)| == CountOccupied(slots)
  {
    if slots != [] {
      var n := |slots| - 1;
      var front := slots[..n];
      OrderMembers(front);
      forall tid
        ensures tid in Order(slots) <==> exists p :: 0 <= p < |slots| && slots[p].Occupied? && slots[p].tid == tid
      {
        if tid in Order(front) {
          var p :| 0 <= p < n && front[p].Occupied? && front[p].tid == tid;
          assert slots[p].Occupied? && slots[p].tid == tid;
        }
        if p :| 0 <= p < |slots| && slots[p].Occupied? && slots[p].tid == tid {
          if p < n { assert front[p].Occupied? && front[p].tid == tid; }
        }
      }
    }
  }

  lemma {:induction false} OrderAt(slots: seq<Slot>, i: nat) returns (p: nat)
    requires i < |Order(slots)|
    ensures p < |slots| && slots[p].Occupied? && slots[p].tid == Order(slots)[i]
  {
    var n := |slots| - 1;
    if i < |Order(slots[..n])| { p := OrderAt(slots[..n], i); } else { p := n; }
  }

  /** Overwriting an entry does not move it. */
  lemma {:induction false} OrderKept(slots: seq<Slot>, p: nat, t: Tracee)
    requires p < |slots| && slots[p].Occupied?
    ensures Order(slots[p := Occupied(slots[p].tid, t)]) == Order(slots)
  {
    var n := |slots| - 1;
    var after := slots[p := Occupied(slots[p].tid, t)];
    if p < n {
      OrderKept(slots[..n], p, t);
      assert after[..n] == slots[..n][p := Occupied(slots[p].tid, t)];
    } else {
      assert after[..n] == slots[..n];
    }
  }

  /** A flush over the slots visits every tracked task, once. */
  lemma OrderCovers(hash: int -> nat, slots: seq<Slot>, place: map<int, nat>)
    requires WellPlaced(hash, slots, place)
    ensures forall tid :: tid in Order(slots) <==> tid in Mapping(slots, place)
    ensures forall i, j :: 0 <= i < j < |Order(slots)| ==> Order(slots)[i] != Order(slots)[j]
  {
    OrderMembers(slots);
    OrderDistinct(slots, place);
  }

  lemma {:induction false} OrderDistinct(slots: seq<Slot>, place: map<int, nat>)
    requires forall p :: 0 <= p < |slots| && slots[p].Occupied? ==> slots[p].tid in place && place[slots[p].tid] == p
    ensures forall i, j :: 0 <= i < j < |Order(slots)| ==> Order(slots)[i] != Order(slots)[j]
  {
    if slots != [] {
      var n := |slots| - 1;
      var front := slots[..n];
      OrderDistinct(front, place);
      var order := Order(slots);
      forall i, j | 0 <= i < j < |order| ensures order[i] != order[j] {
        if j == |Order(front)| {
          var p := OrderAt(front, i);
        }
      }
    }
  }

  /** At most 7 of 10 slots are in use, which leaves an empty one; the bound on the capacity is where an
      allocation of that many slots can no longer succeed. */
  ghost predicate Good(hash: int -> nat, slots: seq<Slot>, place: map<int, nat>, count: nat, tombstones: nat) {
    && WellPlaced(hash, slots, place)
    && count == CountOccupied(slots) && tombstones == CountTombstones(slots)
    && (|slots| == 0 ==> place == map[])
    && (|slots| > 0 ==>
          && PowerOfTwo(|slots|) && INITIAL_CAPACITY <= |slots| <= 0x2000_0000_0000_0000
          && (count + tombstones) * 10 < |slots| * 7)
  }

  lemma StoreEffect(hash: int -> nat, slots: seq<Slot>, place: map<int, nat>, count: nat, tombstones: nat, tid: int,
                    p: nat, t: Tracee)
    requires Good(hash, slots, place, count, tombstones) && (count + tombstones + 1) * 10 < |slots| * 7
    requires tid > 0 && tid !in place && p < |slots| && !slots[p].Occupied? && Reaches(hash, slots, tid, p)
    ensures slots[p].Tombstone? ==> tombstones > 0
    ensures Good(hash, slots[p := Occupied(tid, t)], place[tid := p], count + 1,
                 if slots[p].Tombstone? then tombstones - 1 else tombstones)
    ensures Mapping(slots[p := Occupied(tid, t)], place[tid := p]) == Mapping(slots, place)[tid := t]
  {
    Placed(hash, slots, place, tid, p, t);
    CountUpdate(slots, p, Occupied(tid, t));
    CountUpdate(slots, p, Empty);
    forall u | u in place ensures place[u] != p {}
  }

  lemma RemoveEffect(hash: int -> nat, slots: seq<Slot>, place: map<int, nat>, count: nat, tombstones: nat, tid: int)
    requires Good(hash, slots, place, count, tombstones) && tid in place
    ensures count > 0 && Good(hash, slots[place[tid] := Tombstone], place - {tid}, count - 1, tombstones + 1)
    ensures Mapping(slots[place[tid] := Tombstone], place - {tid}) == Mapping(slots, place) - {tid}
  {
    Unplaced(hash, slots, place, tid);
    CountUpdate(slots, place[tid], Tombstone);
    forall u | u in place && u != tid ensures place[u] != place[tid] {}
  }

  lemma UpdateEffect(hash: int -> nat, slots: seq<Slot>, place: map<int, nat>, count: nat, tombstones: nat, tid: int,
                     t: Tracee)
    requires Good(hash, slots, place, count, tombstones) && tid in place
    ensures Good(hash, slots[place[tid] := Occupied(tid, t)], place, count, tombstones)
    ensures Mapping(slots[place[tid] := Occupied(tid, t)], place) == Mapping(slots, place)[tid := t]
  {
    Overwritten(hash, slots, place, tid, t);
    CountUpdate(slots, place[tid], Occupied(tid, t));
    forall u | u in place && u != tid ensures place[u] != place[tid] {}
  }

  /** What a rehash has moved so far: the entries of the first `index` old slots. */
  ghost predicate Moved(source: seq<Slot>, was: map<int, nat>, index: nat, now: map<int, Tracee>) {
    var all := Mapping(source, was);
    forall tid :: (tid in now <==> tid in all && was[tid] < index) && (tid in now ==> now[tid] == all[tid])
  }

  lemma MovedNext(hash: int -> nat, source: seq<Slot>, was: map<int, nat>, index: nat, now: map<int, Tracee>)
    requires WellPlaced(hash, source, was) && index < |source| && Moved(source, was, index, now)
    ensures source[index].Occupied? ==>
              && source[index].tid > 0 && source[index].tid !in now
              && Moved(source, was, index + 1, now[source[index].tid := source[index].tracee])
    ensures !source[index].Occupied? ==> Moved(source, was, index + 1, now)
  {
    assert forall tid | tid in was && was[tid] == index :: source[index].Occupied? && source[index].tid == tid;
  }

  lemma MovedAll(source: seq<Slot>, was: map<int, nat>, now: map<int, Tracee>)
    requires Moved(source, was, |source|, now)
    ensures now == Mapping(source, was)
  {
    var all := Mapping(source, was);
    assert forall tid :: tid in now <==> tid in all;
    assert now.Keys == all.Keys;
    assert forall tid | tid in now :: now[tid] == all[tid];
  }

  lemma {:induction false} CountSplit(slots: seq<Slot>, n: nat)
    requires n < |slots|
    ensures CountOccupied(slots[..n + 1]) ==
            CountOccupied(slots[..n]) + (if slots[n].Occupied? then 1 else 0) <= CountOccupied(slots)
  {
    assert slots[..n + 1][..n] == slots[..n];
    CountPrefix(slots, n + 1);
  }

  // ----- the C structure

  class TraceeTable {
    const hash: int -> nat
    var slots: array<Slot>
    var count: nat
    var tombstones: nat
    ghost var place: map<int, nat>

    ghost predicate Valid()
      reads this, slots
    {
      Good(hash, slots[..], place, count, tombstones)
    }

    /** The abstract value of the table. */
    ghost function Contents(): map<int, Tracee>
      requires Valid()
      reads this, slots
    {
      Mapping(slots[..], place)
    }

    /** sg_tracee_table_init. */
    constructor (hash: int -> nat)
      ensures Valid() && Contents() == map[] && fresh(slots) && slots.Length == 0 && this.hash == hash
    {
      this.hash := hash;
      slots := new Slot[0];
      count, tombstones, place := 0, 0, map[];
    }

    /** find_slot: where the TID is, or where it may be put. */
    method FindSlot(tid: int) returns (index: nat, found: bool)
      requires Valid() && slots.Length > 0 && tid > 0
      ensures index < slots.Length
      ensures found <==> tid in place
      ensures found ==> index == place[tid]
      ensures !found ==> !slots[index].Occupied? && Reaches(hash, slots[..], tid, index)
    {
      var mask := slots.Length - 1;
      var home := And(hash(tid), mask);
      ghost var capacity, s := slots.Length, slots[..];
      assert home == Home(hash, tid, capacity);
      index := home;
      var firstTombstone: Option<nat> := None;
      ghost var steps := 0;
      ghost var empty := SomeEmpty(s);
      while true
        invariant steps < capacity && index == At(home, steps, capacity)
        invariant forall j :: 0 <= j < steps ==>
                    var seen := s[At(home, j, capacity)]; !seen.Empty? && !(seen.Occupied? && seen.tid == tid)
        invariant firstTombstone.Some? ==>
                    && firstTombstone.value < capacity && s[firstTombstone.value].Tombstone?
                    && Distance(home, firstTombstone.value, capacity) < steps
        invariant steps <= Distance(home, empty, capacity)
        decreases capacity - steps
      {
        if slots[index].Empty? {
          ProbeEnds(hash, s, place, tid, steps);
          if firstTombstone.Some? { index := firstTombstone.value; }
          found := false;
          return;
        }
        if slots[index].Occupied? && slots[index].tid == tid {
          found := true;
          return;
        }
        if slots[index].Tombstone? && firstTombstone.None? {
          firstTombstone := Some(index);
        }
        assert steps < Distance(home, empty, capacity);
        MaskedSuccessor(home, steps, capacity);
        index := And(index + 1, mask);
        steps := steps + 1;
      }
    }

    /** sg_tracee_table_get. */
    method Get(tid: int) returns (t: Option<Tracee>)
      requires Valid()
      ensures t == if tid in Contents() then Some(Contents()[tid]) else None
    {
      if slots.Length == 0 || tid <= 0 {
        return None;
      }
      var index, found := FindSlot(tid);
      if !found {
        return None;
      }
      return Some(slots[index].tracee);
    }

    /** Writing through the pointer that sg_tracee_table_get returns. */
    method Update(tid: int, t: Tracee)
      requires Valid() && tid in Contents()
      modifies slots
      ensures Valid() && Contents() == old(Contents())[tid := t]
      ensures Order(slots[..]) == old(Order(slots[..]))
    {
      var index, found := FindSlot(tid);
      ghost var s := slots[..];
      slots[index] := Occupied(tid, t);
      assert slots[..] == s[index := Occupied(tid, t)];
      OrderKept(s, index, t);
      UpdateEffect(hash, s, place, count, tombstones, tid, t);
    }

    /** sg_tracee_table_remove. */
    method Remove(tid: int) returns (removed: Option<Tracee>)
      requires Valid()
      modifies this, slots
      ensures Valid() && slots == old(slots)
      ensures removed == if tid in old(Contents()) then Some(old(Contents())[tid]) else None
      ensures Contents() == old(Contents()) - {tid}
    {
      if slots.Length == 0 || tid <= 0 {
        return None;
      }
      var index, found := FindSlot(tid);
      if !found {
        return None;
      }
      ghost var s := slots[..];
      removed := Some(slots[index].tracee);
      slots[index] := Tombstone;
      assert slots[..] == s[index := Tombstone];
      RemoveEffect(hash, s, place, count, tombstones, tid);
      count := count - 1;
      tombstones := tombstones + 1;
      place := place - {tid};
    }

    /** Storing a TID where a probe for it ended. */
    method Store(tid: int, index: nat, t: Tracee)
      requires Valid() && tid > 0 && tid !in place && index < slots.Length
      requires !slots[index].Occupied? && Reaches(hash, slots[..], tid, index)
      requires (count + tombstones + 1) * 10 < slots.Length * 7
      modifies this, slots
      ensures Valid() && slots == old(slots) && Contents() == old(Contents())[tid := t]
      ensures count == old(count) + 1
      ensures tombstones <= old(tombstones)
    {
      ghost var s := slots[..];
      StoreEffect(hash, s, place, count, tombstones, tid, index, t);
      if slots[index].Tombstone? {
        tombstones := tombstones - 1;
      }
      slots[index] := Occupied(tid, t);
      assert slots[..] == s[index := Occupied(tid, t)];
      count := count + 1;
      place := place[tid := index];
    }

    /** resize_table: every entry moves to a table of the new capacity. */
    method Resize(capacity: nat, memory: bool) returns (ok: bool)
      requires Valid()
      requires PowerOfTwo(capacity) && INITIAL_CAPACITY <= capacity && (count + 1) * 10 < capacity * 7
      modifies this
      ensures Valid() && Contents() == old(Contents())
      ensures ok <==> memory && capacity <= 0x2000_0000_0000_0000
      ensures ok ==> fresh(slots) && slots.Length == capacity && (count + tombstones + 1) * 10 < slots.Length * 7
      ensures !ok ==> slots == old(slots) && count == old(count) && tombstones == old(tombstones)
    {
      if !memory || capacity > 0x2000_0000_0000_0000 {
        return false;
      }
      var oldSlots := slots;
      ghost var s, was := slots[..], place;
      slots := new Slot[capacity](_ => Empty);
      count, tombstones, place := 0, 0, map[];
      AllEmptyCounts(slots[..]);
      for index := 0 to oldSlots.Length
        invariant fresh(slots) && slots.Length == capacity && Valid() && tombstones == 0
        invariant oldSlots[..] == s
        invariant count == CountOccupied(s[..index])
        invariant Moved(s, was, index, Contents())
      {
        CountSplit(s, index);
        MovedNext(hash, s, was, index, Contents());
        if oldSlots[index].Occupied? {
          MoveEntry(oldSlots[index].tid, oldSlots[index].tracee);
        }
      }
      assert s[..|s|] == s;
      MovedAll(s, was, Contents());
      ok := true;
    }

    /** One entry of the old slots. */
    method MoveEntry(tid: int, t: Tracee)
      requires Valid() && slots.Length > 0 && tid > 0 && tid !in Contents() && tombstones == 0
      requires (count + 1) * 10 < slots.Length * 7
      modifies this, slots
      ensures Valid() && slots == old(slots) && Contents() == old(Contents())[tid := t]
      ensures count == old(count) + 1 && tombstones == 0
    {
      var destination, found := FindSlot(tid);
      Store(tid, destination, t);
    }

    /** ensure_capacity: room for one more entry. */
    method EnsureCapacity(memory: bool) returns (ok: bool)
      requires Valid()
      modifies this
      ensures Valid() && Contents() == old(Contents())
      ensures slots == old(slots) || fresh(slots)
      ensures ok ==> slots.Length > 0 && (count + tombstones + 1) * 10 < slots.Length * 7
      ensures memory && old(slots.Length) <= 0x1000_0000_0000_0000 ==> ok
      ensures old(slots.Length) <= slots.Length <= 2 * old(slots.Length) + INITIAL_CAPACITY
    {
      if slots.Length == 0 {
        assert Pow2(4) == 16;
        ok := Resize(INITIAL_CAPACITY, memory);
        return;
      }
      // The size_t arithmetic below does not wrap.
      assert (count + tombstones + 1) * 10 < TWO_64 && slots.Length * 7 < TWO_64;
      if (count + tombstones + 1) * 10 < slots.Length * 7 {
        return true;
      }
      assert PowerOfTwo(slots.Length * 2) by {
        var k: nat :| slots.Length == Pow2(k);
        assert slots.Length * 2 == Pow2(k + 1);
      }
      ok := Resize(slots.Length * 2, memory);
    }

    /** sg_tracee_table_insert: a present TID is left alone, a new one starts as given. */
    method Insert(tid: int, t: Tracee, memory: bool) returns (ok: bool, inserted: bool)
      requires Valid()
      modifies this, slots
      ensures Valid()
      ensures slots == old(slots) || fresh(slots)
      ensures tid <= 0 || t.tgid <= 0 ==> !ok
      ensures tid > 0 && t.tgid > 0 && memory && old(slots.Length) <= 0x1000_0000_0000_0000 ==> ok
      ensures ok ==> inserted == (tid !in old(Contents()))
      ensures old(slots.Length) <= slots.Length <= 2 * old(slots.Length) + INITIAL_CAPACITY
      ensures Contents() == if ok && inserted then old(Contents())[tid := t] else old(Contents())
    {
      inserted := false;
      if tid <= 0 || t.tgid <= 0 {
        return false, false;
      }
      ok := EnsureCapacity(memory);
      if !ok {
        return;
      }
      var index, found := FindSlot(tid);
      if !found {
        Store(tid, index, t);
        inserted := true;
      }
    }

    /** The loop over the wait events ends when the count is zero. */
    method IsEmpty() returns (empty: bool)
      requires Valid()
      ensures empty <==> Contents() == map[]
    {
      NoneOccupied(slots[..]);
      empty := count == 0;
      if empty {
        assert forall tid :: tid !in Contents();
        assert Contents() == map[];
      } else {
        ghost var p :| 0 <= p < slots.Length && slots[..][p].Occupied?;
        assert slots[..][p].tid in Contents();
      }
    }

    /** The order in which a loop over the raw slots meets the tasks. */
    method SlotOrder() returns (order: seq<int>)
      requires Valid()
      ensures order == Order(slots[..])
      ensures forall tid :: tid in order <==> tid in Contents()
    {
      order := [];
      for index := 0 to slots.Length
        invariant order == Order(slots[..index])
      {
        assert slots[..index + 1][..index] == slots[..index];
        if slots[index].Occupied? {
          order := order + [slots[index].tid];
        }
      }
      assert slots[..slots.Length] == slots[..];
      OrderCovers(hash, slots[..], place);
    }
  }

  lemma {:induction false} NoneOccupied(slots: seq<Slot>)
    ensures CountOccupied(slots) == 0 <==> forall p :: 0 <= p < |slots| ==> !slots[p].Occupied?
  {
    if slots != [] {
      var n := |slots| - 1;
      NoneOccupied(slots[..n]);
      assert forall p :: 0 <= p < n ==> slots[..n][p] == slots[p];
    }
  }

  lemma {:induction false} CountPrefix(slots: seq<Slot>, n: nat)
    requires n <= |slots|
    ensures CountOccupied(slots[..n]) <= CountOccupied(slots)
    decreases |slots|
  {
    if n < |slots| {
      var front := slots[..|slots| - 1];
      CountPrefix(front, n);
      assert front[..n] == slots[..n];
    } else {
      assert slots[..n] == slots;
    }
  }
}
