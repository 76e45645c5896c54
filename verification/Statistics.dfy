/** The aggregated statistics (src/stats.c). */
module Statistics {
  import opened Bits
  import opened Events
  import Catalog

  datatype Row = Row(number: int, calls: nat, errors: nat, nanoseconds: nat)
  datatype Summary = Summary(rows: seq<Row>, calls: nat, errors: nat, nanoseconds: nat)

  const EMPTY := Summary([], 0, 0, 0)

  // ----- elapsed time

  /** The true duration, clamped at zero. */
  function Span(entered: Timespec, exited: Timespec): (d: nat) {
    var d := (exited.sec - entered.sec) * 1_000_000_000 + (exited.nsec - entered.nsec);
    if d < 0 then 0 else d
  }

  /** elapsed_nanoseconds, with the unsigned product and sum reduced modulo 2^64. */
  function Elapsed(entered: Timespec, exited: Timespec): Option<nat> {
    var seconds := exited.sec - entered.sec;
    var nanoseconds := exited.nsec - entered.nsec;
    if seconds < 0 || (seconds == 0 && nanoseconds < 0) then Some(0)
    else
      var borrow := nanoseconds < 0;
      var s := if borrow then seconds - 1 else seconds;
      var n := if borrow then nanoseconds + 1_000_000_000 else nanoseconds;
      if s > UINT64_MAX / 1_000_000_000 then None
      else Some((s * 1_000_000_000 + n) % TWO_64)
  }

  /** The guard on whole seconds is one second too generous: the computed duration is the true one
      exactly when that fits in 64 bits. */
  lemma ElapsedExact(entered: Timespec, exited: Timespec)
    requires Normalised(entered) && Normalised(exited)
    ensures Elapsed(entered, exited) == Some(Span(entered, exited)) <==> Span(entered, exited) <= UINT64_MAX
    ensures exited.sec - entered.sec < 18446744073 ==> Span(entered, exited) <= UINT64_MAX
  {
    var r := Elapsed(entered, exited);
    if r.Some? && Span(entered, exited) > UINT64_MAX {
      assert r.value < TWO_64;
    }
  }

  /** A duration in the last whole second below 2^64 nanoseconds that the guard lets wrap to zero. */
  lemma ElapsedWraps()
    ensures Elapsed(Timespec(0, 0), Timespec(18446744073, 709551616)) == Some(0)
    ensures Span(Timespec(0, 0), Timespec(18446744073, 709551616)) == TWO_64
  {
  }

  // ----- recording

  predicate Recordable(e: SyscallEvent) {
    e.completed && Elapsed(e.enteredAt, e.exitedAt).Some?
  }

  function Cost(e: SyscallEvent): nat {
    match Elapsed(e.enteredAt, e.exitedAt) case Some(ns) => ns case None => 0
  }

  function Failure(e: SyscallEvent): nat {
    if e.errorNumber != 0 then 1 else 0
  }

  /** find_row: the position of the row of `number`, or the number of rows. */
  function FindRow(rows: seq<Row>, number: int): (i: nat)
    ensures i <= |rows|
    ensures i < |rows| ==> rows[i].number == number
    ensures forall j :: 0 <= j < i ==> rows[j].number != number
  {
    if rows == [] then 0
    else if rows[0].number == number then 0
    else
      var i := FindRow(rows[1..], number);
      assert forall j :: 0 < j < 1 + i ==> rows[j] == rows[1..][j - 1];
      1 + i
  }

  function Bump(row: Row, e: SyscallEvent): Row {
    row.(calls := row.calls + 1, errors := row.errors + Failure(e), nanoseconds := row.nanoseconds + Cost(e))
  }

  function BumpRows(rows: seq<Row>, e: SyscallEvent): seq<Row> {
    var i := FindRow(rows, e.number);
    if i < |rows| then rows[i := Bump(rows[i], e)]
    else rows + [Bump(Row(e.number, 0, 0, 0), e)]
  }

  lemma BumpedAt(rows: seq<Row>, e: SyscallEvent, i: nat)
    requires i == FindRow(rows, e.number)
    ensures i < |rows| ==> BumpRows(rows, e) == rows[i := Bump(rows[i], e)]
    ensures i == |rows| ==> BumpRows(rows, e) == rows + [Bump(Row(e.number, 0, 0, 0), e)]
  {
  }

  /** The guards on the totals. */
  predicate TotalsAdmit(s: Summary, e: SyscallEvent) {
    && Recordable(e)
    && s.calls < UINT64_MAX
    && s.nanoseconds + Cost(e) <= UINT64_MAX
    && s.errors + Failure(e) <= UINT64_MAX
  }

  /** sg_stats_record without the guards on the single row, which TallyWithinTotals shows idle. */
  function AddEvent(s: Summary, e: SyscallEvent): Option<Summary> {
    if TotalsAdmit(s, e) then
      Some(Summary(BumpRows(s.rows, e), s.calls + 1, s.errors + Failure(e), s.nanoseconds + Cost(e)))
    else None
  }

  // ----- what a list of events adds up to

  function Tally(es: seq<SyscallEvent>, number: int): Row {
    if es == [] then Row(number, 0, 0, 0)
    else
      var before := Tally(es[..|es| - 1], number);
      var e := es[|es| - 1];
      if e.number == number then Bump(before, e) else before
  }

  function Total(es: seq<SyscallEvent>): Row {
    if es == [] then Row(-1, 0, 0, 0) else Bump(Total(es[..|es| - 1]), es[|es| - 1])
  }

  function RecordAll(es: seq<SyscallEvent>): Option<Summary> {
    if es == [] then Some(EMPTY)
    else
      match RecordAll(es[..|es| - 1])
      case None => None
      case Some(s) => AddEvent(s, es[|es| - 1])
  }

  ghost predicate DistinctRows(rows: seq<Row>) {
    forall i, j :: 0 <= i < j < |rows| ==> rows[i].number != rows[j].number
  }

  ghost predicate Tallies(rows: seq<Row>, es: seq<SyscallEvent>) {
    && DistinctRows(rows)
    && (forall i :: 0 <= i < |rows| ==> rows[i] == Tally(es, rows[i].number) && rows[i].calls > 0)
    && (forall e | e in es :: exists i :: 0 <= i < |rows| && rows[i].number == e.number)
  }

  ghost predicate Fits(es: seq<SyscallEvent>) {
    && (forall e | e in es :: Recordable(e))
    && Total(es).calls <= UINT64_MAX && Total(es).errors <= UINT64_MAX && Total(es).nanoseconds <= UINT64_MAX
  }

  lemma {:induction false} TallyAbsent(es: seq<SyscallEvent>, number: int)
    requires forall e | e in es :: e.number != number
    ensures Tally(es, number) == Row(number, 0, 0, 0)
  {
    if es != [] { TallyAbsent(es[..|es| - 1], number); }
  }

  lemma {:induction false} TallyNumber(es: seq<SyscallEvent>, number: int)
    ensures Tally(es, number).number == number
    ensures Tally(es, number).errors <= Tally(es, number).calls
    ensures Tally(es, number).calls > 0 ==> exists e :: e in es && e.number == number
  {
    if es != [] { TallyNumber(es[..|es| - 1], number); }
  }

  /** No row exceeds the totals, so the guards on a single row cannot fire once the guards on the
      totals have passed. */
  lemma {:induction false} TallyWithinTotals(es: seq<SyscallEvent>, number: int)
    ensures Tally(es, number).calls <= Total(es).calls
    ensures Tally(es, number).errors <= Total(es).errors
    ensures Tally(es, number).nanoseconds <= Total(es).nanoseconds
  {
    if es != [] { TallyWithinTotals(es[..|es| - 1], number); }
  }

  lemma BumpedRowsTally(rows: seq<Row>, es: seq<SyscallEvent>, e: SyscallEvent)
    requires Tallies(rows, es)
    ensures Tallies(BumpRows(rows, e), es + [e])
  {
    var all := es + [e];
    assert all[..|all| - 1] == es;
    var i := FindRow(rows, e.number);
    var bumped := BumpRows(rows, e);
    if i == |rows| {
      forall x | x in es ensures x.number != e.number {
        var j :| 0 <= j < |rows| && rows[j].number == x.number;
      }
      TallyAbsent(es, e.number);
      forall x | x in all ensures exists j :: 0 <= j < |bumped| && bumped[j].number == x.number {
        if x in es {
          var j :| 0 <= j < |rows| && rows[j].number == x.number;
          assert bumped[j] == rows[j];
        } else {
          assert bumped[|rows|].number == x.number;
        }
      }
    } else {
      forall x | x in all ensures exists j :: 0 <= j < |bumped| && bumped[j].number == x.number {
        if x in es {
          var j :| 0 <= j < |rows| && rows[j].number == x.number;
          assert bumped[j].number == rows[j].number;
        } else {
          assert bumped[i].number == x.number;
        }
      }
    }
  }

  /** Recording succeeds exactly on lists whose totals fit, and then the rows are the tallies. */
  lemma {:induction false} RecordAllTallies(es: seq<SyscallEvent>)
    ensures RecordAll(es).Some? <==> Fits(es)
    ensures RecordAll(es).Some? ==>
              var s := RecordAll(es).value;
              && Tallies(s.rows, es)
              && Row(-1, s.calls, s.errors, s.nanoseconds) == Total(es)
  {
    if es != [] {
      var front, e := es[..|es| - 1], es[|es| - 1];
      RecordAllTallies(front);
      assert es == front + [e];
      assert Total(es) == Bump(Total(front), e);
      assert Total(es).calls == Total(front).calls + 1;
      if Fits(es) {
        assert Fits(front);
      }
      if RecordAll(front).Some? {
        BumpedRowsTally(RecordAll(front).value.rows, front, e);
      }
    }
  }

  // ----- conservation

  function SumRows(rows: seq<Row>): Row {
    if rows == [] then Row(-1, 0, 0, 0)
    else
      var s := SumRows(rows[..|rows| - 1]);
      var r := rows[|rows| - 1];
      Row(-1, s.calls + r.calls, s.errors + r.errors, s.nanoseconds + r.nanoseconds)
  }

  lemma {:induction false} SumOfBumped(rows: seq<Row>, i: nat, e: SyscallEvent)
    requires i < |rows|
    ensures SumRows(rows[i := Bump(rows[i], e)]) == Bump(SumRows(rows), e)
  {
    var n := |rows| - 1;
    var bumped := rows[i := Bump(rows[i], e)];
    if i < n {
      SumOfBumped(rows[..n], i, e);
      assert bumped[..n] == rows[..n][i := Bump(rows[i], e)];
    } else {
      assert bumped[..n] == rows[..n];
    }
  }

  /** The rows always add up to the totals, and no row has more errors than calls. */
  lemma {:induction false} Conserved(es: seq<SyscallEvent>)
    requires RecordAll(es).Some?
    ensures var s := RecordAll(es).value;
            && SumRows(s.rows) == Row(-1, s.calls, s.errors, s.nanoseconds)
            && DistinctRows(s.rows)
            && forall r | r in s.rows :: r.errors <= r.calls
  {
    RecordAllTallies(es);
    var s := RecordAll(es).value;
    forall r | r in s.rows ensures r.errors <= r.calls { TallyNumber(es, r.number); }
    if es != [] {
      var front, e := es[..|es| - 1], es[|es| - 1];
      Conserved(front);
      var rows := RecordAll(front).value.rows;
      var i := FindRow(rows, e.number);
      if i < |rows| {
        SumOfBumped(rows, i, e);
      } else {
        assert (rows + [Bump(Row(e.number, 0, 0, 0), e)])[..|rows|] == rows;
      }
    }
  }

  // ----- what the rows count, in plain terms

  /** The events of one syscall, and those among them that failed. */
  ghost function CallsOf(es: seq<SyscallEvent>, number: int): set<nat> {
    set i: nat | i < |es| && es[i].number == number
  }

  ghost function FailuresOf(es: seq<SyscallEvent>, number: int): set<nat> {
    set i: nat | i < |es| && es[i].number == number && es[i].errorNumber != 0
  }

  /** All events that failed. */
  ghost function AllFailures(es: seq<SyscallEvent>): set<nat> {
    set i: nat | i < |es| && es[i].errorNumber != 0
  }

  /** The true time spent in one syscall, and in all. */
  function TimeOf(es: seq<SyscallEvent>, number: int): nat {
    if es == [] then 0
    else
      var e := es[|es| - 1];
      TimeOf(es[..|es| - 1], number) + (if e.number == number then Span(e.enteredAt, e.exitedAt) else 0)
  }

  function AllTime(es: seq<SyscallEvent>): nat {
    if es == [] then 0
    else AllTime(es[..|es| - 1]) + Span(es[|es| - 1].enteredAt, es[|es| - 1].exitedAt)
  }

  /** Normalised stamps whose difference fits in 64 bits. */
  ghost predicate Measurable(e: SyscallEvent) {
    Normalised(e.enteredAt) && Normalised(e.exitedAt) && Span(e.enteredAt, e.exitedAt) <= UINT64_MAX
  }

  /** One more index, if the last event is of the kind counted. */
  lemma OneMoreIndex(before: set<nat>, after: set<nat>, n: nat, counted: bool)
    requires forall i: nat :: i in after <==> i in before || (counted && i == n)
    requires forall i | i in before :: i < n
    ensures |after| == |before| + (if counted then 1 else 0)
  {
    if counted {
      assert after == before + {n};
    } else {
      assert after == before;
    }
  }

  lemma {:induction false} TallyCounts(es: seq<SyscallEvent>, number: int)
    ensures Tally(es, number).calls == |CallsOf(es, number)|
    ensures Tally(es, number).errors == |FailuresOf(es, number)|
  {
    if es != [] {
      var n := |es| - 1;
      var front, e := es[..n], es[n];
      TallyCounts(front, number);
      OneMoreIndex(CallsOf(front, number), CallsOf(es, number), n, e.number == number);
      OneMoreIndex(FailuresOf(front, number), FailuresOf(es, number), n, e.number == number && e.errorNumber != 0);
    } else {
      assert CallsOf(es, number) == {} && FailuresOf(es, number) == {};
    }
  }

  lemma {:induction false} TotalCounts(es: seq<SyscallEvent>)
    ensures Total(es).calls == |es| && Total(es).errors == |AllFailures(es)|
  {
    if es != [] {
      var n := |es| - 1;
      TotalCounts(es[..n]);
      OneMoreIndex(AllFailures(es[..n]), AllFailures(es), n, es[n].errorNumber != 0);
    } else {
      assert AllFailures(es) == {};
    }
  }

  lemma CostIsSpan(e: SyscallEvent)
    requires Measurable(e)
    ensures Elapsed(e.enteredAt, e.exitedAt) == Some(Span(e.enteredAt, e.exitedAt))
    ensures Cost(e) == Span(e.enteredAt, e.exitedAt)
  {
    ElapsedExact(e.enteredAt, e.exitedAt);
  }

  lemma {:induction false} TallyTimes(es: seq<SyscallEvent>, number: int)
    requires forall e | e in es :: Measurable(e)
    ensures Tally(es, number).nanoseconds == TimeOf(es, number) && Total(es).nanoseconds == AllTime(es)
  {
    if es != [] {
      TallyTimes(es[..|es| - 1], number);
      CostIsSpan(es[|es| - 1]);
    }
  }

  /** What the statistics say: each row has the number of calls of its syscall, how many of them failed
      and the time they took, every syscall called has its row, and the totals are those of all calls. */
  lemma RowsCount(es: seq<SyscallEvent>)
    requires RecordAll(es).Some?
    ensures var s := RecordAll(es).value;
            && (forall r | r in s.rows :: r.calls == |CallsOf(es, r.number)| && r.errors == |FailuresOf(es, r.number)|)
            && (forall e | e in es :: exists r :: r in s.rows && r.number == e.number)
            && s.calls == |es| && s.errors == |AllFailures(es)|
    ensures (forall e | e in es :: Measurable(e)) ==>
              var s := RecordAll(es).value;
              && (forall r | r in s.rows :: r.nanoseconds == TimeOf(es, r.number))
              && s.nanoseconds == AllTime(es)
  {
    RecordAllTallies(es);
    TotalCounts(es);
    var s := RecordAll(es).value;
    forall r | r in s.rows ensures r.calls == |CallsOf(es, r.number)| && r.errors == |FailuresOf(es, r.number)| {
      TallyCounts(es, r.number);
    }
    forall e | e in es ensures exists r :: r in s.rows && r.number == e.number {
      var i :| 0 <= i < |s.rows| && s.rows[i].number == e.number;
      assert s.rows[i] in s.rows;
    }
    if forall e | e in es :: Measurable(e) {
      forall r | r in s.rows ensures r.nanoseconds == TimeOf(es, r.number) { TallyTimes(es, r.number); }
      TallyTimes(es, 0);
    }
  }

  /** Recording measurable events succeeds exactly when all are completed and the totals fit. */
  lemma RecordingSucceeds(es: seq<SyscallEvent>)
    requires forall e | e in es :: Measurable(e)
    ensures RecordAll(es).Some? <==>
              && (forall e | e in es :: e.completed)
              && |es| <= UINT64_MAX && |AllFailures(es)| <= UINT64_MAX && AllTime(es) <= UINT64_MAX
  {
    RecordAllTallies(es);
    TotalCounts(es);
    TallyTimes(es, 0);
    forall e | e in es ensures Recordable(e) <==> e.completed { CostIsSpan(e); }
  }

  // ----- the order of the report

  ghost predicate Known(catalog: seq<Catalog.Descriptor>, number: int) {
    exists d :: d in catalog && d.number == number
  }

  /** The syscall that took longer comes first; then the names of the catalogue decide, known syscalls
      before unknown ones, and then the numbers. */
  lemma ReportOrder(catalog: seq<Catalog.Descriptor>, a: Row, b: Row)
    requires Catalog.Valid(catalog)
    ensures a.nanoseconds > b.nanoseconds ==> CompareRows(catalog, a, b) < 0
    ensures a.nanoseconds == b.nanoseconds ==>
              && (forall d, e | d in catalog && e in catalog && d.number == a.number && e.number == b.number ::
                    Catalog.StrCmp(d.name, e.name) != 0 ==> CompareRows(catalog, a, b) == Catalog.StrCmp(d.name, e.name))
              && (Known(catalog, a.number) && !Known(catalog, b.number) ==> CompareRows(catalog, a, b) < 0)
              && (!Known(catalog, a.number) && !Known(catalog, b.number) && a.number < b.number ==>
                    CompareRows(catalog, a, b) < 0)
  {
    forall d | d in catalog ensures Catalog.Find(catalog, d.number) == Some(d) {
      var k :| 0 <= k < |catalog| && catalog[k] == d;
      Catalog.FindAt(catalog, k);
    }
  }

  /** compare_rows. */
  function CompareRows(catalog: seq<Catalog.Descriptor>, left: Row, right: Row): int {
    if left.nanoseconds != right.nanoseconds then (if left.nanoseconds > right.nanoseconds then -1 else 1)
    else
      var l, r := Catalog.Find(catalog, left.number), Catalog.Find(catalog, right.number);
      var names := if l.Some? && r.Some? then Catalog.StrCmp(l.value.name, r.value.name) else 0;
      if names != 0 then names
      else if l.Some? && r.None? then -1
      else if l.None? && r.Some? then 1
      else if left.number == right.number then 0
      else if left.number < right.number then -1 else 1
  }

  lemma CompareSign(catalog: seq<Catalog.Descriptor>, a: Row, b: Row)
    requires Catalog.Valid(catalog)
    ensures a.number != b.number ==> CompareRows(catalog, a, b) != 0
    ensures CompareRows(catalog, a, b) < 0 <==> CompareRows(catalog, b, a) > 0
  {
    var l, r := Catalog.Find(catalog, a.number), Catalog.Find(catalog, b.number);
    if l.Some? && r.Some? {
      Catalog.StrCmpZero(l.value.name, r.value.name);
      Catalog.StrCmpZero(r.value.name, l.value.name);
      Catalog.StrCmpAntisymmetric(l.value.name, r.value.name);
      Catalog.StrCmpAntisymmetric(r.value.name, l.value.name);
    }
  }

  lemma CompareTransitive(catalog: seq<Catalog.Descriptor>, a: Row, b: Row, c: Row)
    requires Catalog.Valid(catalog)
    requires CompareRows(catalog, a, b) < 0 && CompareRows(catalog, b, c) < 0
    ensures CompareRows(catalog, a, c) < 0
  {
    var la, lb, lc := Catalog.Find(catalog, a.number), Catalog.Find(catalog, b.number), Catalog.Find(catalog, c.number);
    if la.Some? && lb.Some? && lc.Some? {
      var na, nb, nc := la.value.name, lb.value.name, lc.value.name;
      Catalog.StrCmpZero(na, nb);
      Catalog.StrCmpZero(nb, nc);
      Catalog.StrCmpZero(na, nc);
      if Catalog.StrCmp(na, nb) < 0 && Catalog.StrCmp(nb, nc) < 0 {
        Catalog.StrCmpTransitive(na, nb, nc);
      }
    }
  }

  /** What qsort promises: the same rows, no later row comparing below an earlier one. */
  ghost predicate SortedCopyOf(catalog: seq<Catalog.Descriptor>, rows: seq<Row>, out: seq<Row>) {
    && multiset(out) == multiset(rows)
    && forall i, j :: 0 <= i < j < |out| ==> CompareRows(catalog, out[i], out[j]) <= 0
  }

  ghost predicate StrictlySorted(catalog: seq<Catalog.Descriptor>, out: seq<Row>) {
    forall i, j :: 0 <= i < j < |out| ==> CompareRows(catalog, out[i], out[j]) < 0
  }

  lemma {:induction false} SortedUnique(catalog: seq<Catalog.Descriptor>, a: seq<Row>, b: seq<Row>)
    requires Catalog.Valid(catalog)
    requires StrictlySorted(catalog, a) && StrictlySorted(catalog, b)
    requires forall r :: r in a <==> r in b
    ensures a == b
  {
    assert |b| > 0 ==> b[0] in b;
    if a != [] {
      assert a[0] in b;
      assert b[0] in a;
      assert a[0] == b[0] by {
        if a[0] != b[0] {
          var i :| 0 < i < |a| && a[i] == b[0];
          var j :| 0 < j < |b| && b[j] == a[0];
          CompareSign(catalog, a[0], b[0]);
        }
      }
      CompareSign(catalog, a[0], a[0]);
      forall r ensures r in a[1..] <==> r in b[1..] {
        assert r in a <==> r in b;
        if r in a[1..] {
          var i :| 0 <= i < |a| - 1 && a[1..][i] == r;
          assert CompareRows(catalog, a[0], a[i + 1]) < 0;
        }
        if r in b[1..] {
          var i :| 0 <= i < |b| - 1 && b[1..][i] == r;
          assert CompareRows(catalog, b[0], b[i + 1]) < 0;
        }
      }
      SortedUnique(catalog, a[1..], b[1..]);
      assert a == [a[0]] + a[1..] && b == [b[0]] + b[1..];
    }
  }

  lemma SortedStrictly(catalog: seq<Catalog.Descriptor>, rows: seq<Row>, out: seq<Row>)
    requires Catalog.Valid(catalog) && DistinctRows(rows) && SortedCopyOf(catalog, rows, out)
    ensures StrictlySorted(catalog, out) && forall r :: r in out <==> r in rows
  {
    forall r ensures r in out <==> r in rows {
      assert r in multiset(out) <==> r in multiset(rows);
    }
    forall i, j | 0 <= i < j < |out| ensures CompareRows(catalog, out[i], out[j]) < 0 {
      OnceEach(rows, out, i, j);
      CompareSign(catalog, out[i], out[j]);
    }
  }

  lemma {:induction false} CountedOnce(rows: seq<Row>, r: Row)
    requires DistinctRows(rows)
    ensures multiset(rows)[r] <= 1
  {
    if rows != [] {
      var n := |rows| - 1;
      assert rows == rows[..n] + [rows[n]];
      CountedOnce(rows[..n], r);
      if r == rows[n] { assert r !in rows[..n]; }
    }
  }

  lemma CountedTwice(out: seq<Row>, i: nat, j: nat)
    requires i < j < |out| && out[i] == out[j]
    ensures multiset(out)[out[i]] >= 2
  {
    assert out == out[..j] + out[j..];
    assert out[..j][i] in out[..j] && out[j..][0] in out[j..];
  }

  lemma OnceEach(rows: seq<Row>, out: seq<Row>, i: nat, j: nat)
    requires DistinctRows(rows) && multiset(out) == multiset(rows) && i < j < |out|
    ensures out[i].number != out[j].number
  {
    assert out[i] in multiset(rows) && out[j] in multiset(rows);
    var p :| 0 <= p < |rows| && rows[p] == out[i];
    var q :| 0 <= q < |rows| && rows[q] == out[j];
    if p == q {
      CountedOnce(rows, out[i]);
      CountedTwice(out, i, j);
    }
  }

  // ----- the report does not depend on the order of the events

  lemma {:induction false} TallyWithout(es: seq<SyscallEvent>, i: nat, rest: seq<SyscallEvent>, number: int)
    requires i < |es| && rest == es[..i] + es[i + 1..]
    ensures Tally(es, number) ==
            if es[i].number == number then Bump(Tally(rest, number), es[i]) else Tally(rest, number)
    ensures Total(es) == Bump(Total(rest), es[i])
  {
    var n := |es| - 1;
    var front, e, x := es[..n], es[n], es[i];
    if i < n {
      var less := rest[..n - 1];
      assert less == front[..i] + front[i + 1..] && rest[n - 1] == e;
      TallyWithout(front, i, less, number);
      BumpCommutes(Total(less), x, e);
      BumpCommutes(Tally(less, number), x, e);
    } else {
      assert rest == front;
    }
  }

  lemma BumpCommutes(r: Row, x: SyscallEvent, y: SyscallEvent)
    ensures Bump(Bump(r, x), y) == Bump(Bump(r, y), x)
  {
  }

  lemma {:induction false} TallyPermuted(a: seq<SyscallEvent>, b: seq<SyscallEvent>, number: int)
    requires multiset(a) == multiset(b)
    ensures Tally(a, number) == Tally(b, number) && Total(a) == Total(b)
  {
    assert |multiset(a)| == |a| && |multiset(b)| == |b|;
    if a != [] {
      var n := |a| - 1;
      var e := a[n];
      assert e in multiset(b);
      var i :| 0 <= i < |b| && b[i] == e;
      var rest := b[..i] + b[i + 1..];
      assert a == a[..n] + [e];
      assert b == b[..i] + [e] + b[i + 1..];
      assert multiset(rest) == multiset(b) - multiset{e};
      assert multiset(a[..n]) == multiset(a) - multiset{e};
      TallyPermuted(a[..n], rest, number);
      TallyWithout(b, i, rest, number);
    }
  }

  lemma SameTallies(a: seq<SyscallEvent>, b: seq<SyscallEvent>, ra: seq<Row>, rb: seq<Row>, r: Row)
    requires multiset(a) == multiset(b)
    requires Tallies(ra, a) && Tallies(rb, b) && r in ra
    ensures r in rb
  {
    TallyPermuted(a, b, r.number);
    TallyNumber(a, r.number);
    var e :| e in a && e.number == r.number;
    assert e in multiset(b);
    assert e in b;
    var i :| 0 <= i < |rb| && rb[i].number == e.number;
    assert rb[i] == r;
  }

  /** The summary is canonical: two orders of the same events are both recorded or both refused,
      and any two sorts of the resulting rows give the same report. */
  lemma ReportIsCanonical(catalog: seq<Catalog.Descriptor>, a: seq<SyscallEvent>, b: seq<SyscallEvent>)
    requires Catalog.Valid(catalog)
    requires multiset(a) == multiset(b)
    ensures RecordAll(a).Some? <==> RecordAll(b).Some?
    ensures RecordAll(a).Some? ==>
              forall x, y :: SortedCopyOf(catalog, RecordAll(a).value.rows, x) && SortedCopyOf(catalog, RecordAll(b).value.rows, y)
                ==> x == y
  {
    RecordAllTallies(a);
    RecordAllTallies(b);
    TallyPermuted(a, b, 0);
    assert forall e :: e in a <==> e in multiset(a);
    assert forall e :: e in b <==> e in multiset(b);
    if RecordAll(a).Some? {
      var ra, rb := RecordAll(a).value.rows, RecordAll(b).value.rows;
      forall x, y | SortedCopyOf(catalog, ra, x) && SortedCopyOf(catalog, rb, y) ensures x == y {
        SortedStrictly(catalog, ra, x);
        SortedStrictly(catalog, rb, y);
        forall r ensures r in x <==> r in y {
          if r in ra { SameTallies(a, b, ra, rb, r); }
          if r in rb { SameTallies(b, a, rb, ra, r); }
        }
        SortedUnique(catalog, x, y);
      }
    }
  }

  lemma RecordedNext(es: seq<SyscallEvent>, s: Summary, e: SyscallEvent)
    requires RecordAll(es) == Some(s)
    ensures RecordAll(es + [e]) == AddEvent(s, e)
    ensures Fits(es + [e]) <==> TotalsAdmit(s, e)
  {
    var after := es + [e];
    assert after[..|after| - 1] == es;
    RecordAllTallies(after);
  }

  lemma RecordedDistinct(es: seq<SyscallEvent>, s: Summary)
    requires RecordAll(es) == Some(s)
    ensures DistinctRows(s.rows)
  {
    RecordAllTallies(es);
  }

  lemma RowGuardsIdle(es: seq<SyscallEvent>, s: Summary, e: SyscallEvent, row: Row)
    requires RecordAll(es) == Some(s) && TotalsAdmit(s, e)
    requires row in s.rows || row == Row(e.number, 0, 0, 0)
    ensures row.calls < UINT64_MAX
    ensures row.nanoseconds + Cost(e) <= UINT64_MAX
    ensures row.errors + Failure(e) <= UINT64_MAX
  {
    RecordAllTallies(es);
    TallyWithinTotals(es, row.number);
  }

  // ----- the C structure, updated in place

  /** struct sg_stats.  `recorded` is the history of accepted events. */
  class StatsTable {
    var rows: seq<Row>
    var totalCalls: nat
    var totalErrors: nat
    var totalNanoseconds: nat
    ghost var recorded: seq<SyscallEvent>

    ghost function Value(): Summary
      reads this
    {
      Summary(rows, totalCalls, totalErrors, totalNanoseconds)
    }

    ghost predicate Valid()
      reads this
    {
      RecordAll(recorded) == Some(Value())
    }

    constructor ()
      ensures Valid() && Value() == EMPTY && recorded == []
    {
      rows, totalCalls, totalErrors, totalNanoseconds := [], 0, 0, 0;
      recorded := [];
    }

    /** sg_stats_record: all or nothing. */
    method Record(e: SyscallEvent) returns (ok: bool)
      requires Valid()
      modifies this
      ensures Valid()
      ensures ok <==> Fits(old(recorded) + [e])
      ensures recorded == if ok then old(recorded) + [e] else old(recorded)
      ensures AddEvent(old(Value()), e) == if ok then Some(Value()) else None
      ensures !ok ==> Value() == old(Value())
    {
      ghost var before, after := Value(), recorded + [e];
      RecordedNext(recorded, before, e);
      var elapsed := Elapsed(e.enteredAt, e.exitedAt);
      if !e.completed || elapsed.None? || totalCalls == UINT64_MAX || totalNanoseconds > UINT64_MAX - elapsed.value {
        return false;
      }
      var error, nanoseconds := e.errorNumber != 0, elapsed.value;
      if error && totalErrors == UINT64_MAX {
        return false;
      }
      assert nanoseconds == Cost(e) && TotalsAdmit(before, e);
      ghost var target := AddEvent(before, e).value;
      assert RecordAll(after) == Some(target);
      var i := RowIndex(e.number);
      var row := if i < |rows| then rows[i] else Row(e.number, 0, 0, 0);
      RowGuardsIdle(recorded, before, e, row);
      if row.calls == UINT64_MAX || row.nanoseconds > UINT64_MAX - nanoseconds || (error && row.errors == UINT64_MAX) {
        assert false;
      }
      StoreRow(i,
               Row(row.number, row.calls + 1, row.errors + (if error then 1 else 0), row.nanoseconds + nanoseconds), e);
      totalCalls := totalCalls + 1;
      totalErrors := totalErrors + (if error then 1 else 0);
      totalNanoseconds := totalNanoseconds + nanoseconds;
      recorded := after;
      assert Value() == target;
      ok := true;
    }

    method StoreRow(i: nat, row: Row, ghost e: SyscallEvent)
      requires i == FindRow(rows, e.number)
      requires row == Bump(if i < |rows| then rows[i] else Row(e.number, 0, 0, 0), e)
      modifies `rows
      ensures rows == BumpRows(old(rows), e)
    {
      BumpedAt(rows, e, i);
      if i < |rows| {
        rows := rows[i := row];
      } else {
        rows := rows + [row];
      }
    }

    /** find_row. */
    method RowIndex(number: int) returns (i: nat)
      ensures i == FindRow(rows, number)
    {
      i := 0;
      while i < |rows| && rows[i].number != number
        invariant 0 <= i <= |rows|
        invariant forall j :: 0 <= j < i ==> rows[j].number != number
      {
        i := i + 1;
      }
    }

    /** sg_stats_sorted_copy, with an insertion in the place of qsort. */
    method SortedCopy(catalog: seq<Catalog.Descriptor>) returns (out: seq<Row>)
      requires Valid() && Catalog.Valid(catalog)
      ensures SortedCopyOf(catalog, rows, out)
    {
      RecordedDistinct(recorded, Value());
      out := [];
      for i := 0 to |rows|
        invariant multiset(out) == multiset(rows[..i])
        invariant StrictlySorted(catalog, out)
      {
        NotYetThere(rows, i, out);
        out := Insert(catalog, out, rows[i]);
      }
      assert rows[..|rows|] == rows;
    }
  }

  lemma NotYetThere(rows: seq<Row>, i: nat, out: seq<Row>)
    requires DistinctRows(rows) && i < |rows| && multiset(out) == multiset(rows[..i])
    ensures forall r | r in out :: r.number != rows[i].number
    ensures multiset(rows[..i + 1]) == multiset(out) + multiset{rows[i]}
  {
    assert rows[..i + 1] == rows[..i] + [rows[i]];
    forall r | r in out ensures r.number != rows[i].number {
      assert r in multiset(rows[..i]);
    }
  }

  method Insert(catalog: seq<Catalog.Descriptor>, sorted: seq<Row>, row: Row) returns (out: seq<Row>)
    requires Catalog.Valid(catalog) && StrictlySorted(catalog, sorted)
    requires forall r | r in sorted :: r.number != row.number
    ensures StrictlySorted(catalog, out) && multiset(out) == multiset(sorted) + multiset{row}
  {
    var k := 0;
    while k < |sorted| && CompareRows(catalog, sorted[k], row) < 0
      invariant 0 <= k <= |sorted|
      invariant forall i :: 0 <= i < k ==> CompareRows(catalog, sorted[i], row) < 0
    {
      k := k + 1;
    }
    out := sorted[..k] + [row] + sorted[k..];
    forall i | k <= i < |sorted| ensures CompareRows(catalog, row, sorted[i]) < 0 {
      BelowFrom(catalog, sorted, k, row, i);
    }
    InsertedInOrder(catalog, sorted, k, row, out);
    assert sorted == sorted[..k] + sorted[k..];
  }

  /** A row that does not follow the `k`-th precedes it and all later ones. */
  lemma BelowFrom(catalog: seq<Catalog.Descriptor>, sorted: seq<Row>, k: nat, row: Row, i: nat)
    requires Catalog.Valid(catalog) && StrictlySorted(catalog, sorted) && k <= i < |sorted|
    requires CompareRows(catalog, sorted[k], row) >= 0 && sorted[k].number != row.number
    ensures CompareRows(catalog, row, sorted[i]) < 0
  {
    CompareSign(catalog, row, sorted[k]);
    CompareSign(catalog, sorted[k], row);
    if i > k { CompareTransitive(catalog, row, sorted[k], sorted[i]); }
  }

  lemma InsertedInOrder(catalog: seq<Catalog.Descriptor>, sorted: seq<Row>, k: nat, row: Row, out: seq<Row>)
    requires StrictlySorted(catalog, sorted) && k <= |sorted|
    requires forall i :: 0 <= i < k ==> CompareRows(catalog, sorted[i], row) < 0
    requires forall i :: k <= i < |sorted| ==> CompareRows(catalog, row, sorted[i]) < 0
    requires out == sorted[..k] + [row] + sorted[k..]
    ensures StrictlySorted(catalog, out)
  {
    forall i, j | 0 <= i < j < |out| ensures CompareRows(catalog, out[i], out[j]) < 0 {
      InsertedAt(sorted, k, row, out, i);
      InsertedAt(sorted, k, row, out, j);
      if i != k && j != k {
        var a, b := if i < k then i else i - 1, if j < k then j else j - 1;
        assert CompareRows(catalog, sorted[a], sorted[b]) < 0;
      } else if i == k {
        assert CompareRows(catalog, row, sorted[j - 1]) < 0;
      } else {
        assert CompareRows(catalog, sorted[i], row) < 0;
      }
    }
  }

  lemma InsertedAt(sorted: seq<Row>, k: nat, row: Row, out: seq<Row>, i: nat)
    requires k <= |sorted| && out == sorted[..k] + [row] + sorted[k..] && i < |out|
    ensures out[i] == if i < k then sorted[i] else if i == k then row else sorted[i - 1]
  {
  }
}
