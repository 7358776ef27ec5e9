/** When later successful windows supersede an earlier failed one. */
module WindowCoverage {
  import opened Wrappers
  import opened Calendar
  import opened Windows
  import opened WindowNames

  type Time = int

  /** A network-validated success of a window. */
  datatype Recovery = Recovery(identity: Identity, startedAt: Time, finishedAt: Time)

  /** A window as day numbers. */
  datatype Span = Span(lo: int, hi: int)

  /** Identities come from parsed names: their dates are valid and in order. */
  predicate WellFormed(id: Identity) {
    InRange(id.start) && InRange(id.end) && !Before(id.end, id.start)
  }

  function SpanOf(id: Identity): (s: Span)
    requires WellFormed(id)
    ensures s.lo <= s.hi
  {
    OrdinalIsOrder(id.end, id.start);
    Span(Ordinal(id.start), Ordinal(id.end))
  }

  /** A recovery counts if it is of the same series and ran entirely after the failure. */
  predicate Counts(r: Recovery, failed: Identity, failedAt: Time) {
    && r.identity.kind == failed.kind && r.identity.code == failed.code
    && r.startedAt > failedAt && r.finishedAt > failedAt
  }

  // ---------- the specification: sets of days ----------

  predicate Covers(spans: seq<Span>, day: int) {
    exists i :: 0 <= i < |spans| && spans[i].lo <= day <= spans[i].hi
  }

  /** A recovery restores a day of a failed window: same series, started and finished after the failure, and the
      day lies in its own window. */
  predicate Restores(r: Recovery, failed: Identity, failedAt: Time, day: int)
    requires WellFormed(r.identity)
  {
    && r.identity.kind == failed.kind && r.identity.code == failed.code
    && failedAt < r.startedAt && failedAt < r.finishedAt
    && Ordinal(r.identity.start) <= day <= Ordinal(r.identity.end)
  }

  predicate CountedDay(recoveries: seq<Recovery>, failed: Identity, failedAt: Time, day: int)
    requires forall i :: 0 <= i < |recoveries| ==> WellFormed(recoveries[i].identity)
  {
    exists i :: 0 <= i < |recoveries| && Restores(recoveries[i], failed, failedAt, day)
  }

  /** Every day of the failed window is restored by some recovery. */
  ghost predicate Recovered(failed: Identity, recoveries: seq<Recovery>, failedAt: Time)
    requires WellFormed(failed) && forall i :: 0 <= i < |recoveries| ==> WellFormed(recoveries[i].identity)
  {
    forall day :: Ordinal(failed.start) <= day <= Ordinal(failed.end) ==>
      CountedDay(recoveries, failed, failedAt, day)
  }

  // ---------- sort and merge ----------

  predicate SpanLess(a: Span, b: Span) {
    a.lo < b.lo || (a.lo == b.lo && a.hi < b.hi)
  }

  predicate Ordered(spans: seq<Span>) {
    && (forall i :: 0 <= i < |spans| ==> spans[i].lo <= spans[i].hi)
    && (forall i, j :: 0 <= i < j < |spans| ==> !SpanLess(spans[j], spans[i]))
  }

  function InsertSpan(s: Span, sorted: seq<Span>): seq<Span> {
    if sorted == [] || SpanLess(s, sorted[0]) then [s] + sorted else [sorted[0]] + InsertSpan(s, sorted[1..])
  }

  lemma {:induction false} InsertKeeps(s: Span, sorted: seq<Span>, day: int)
    requires Ordered(sorted) && s.lo <= s.hi
    ensures Ordered(InsertSpan(s, sorted))
    ensures forall x :: x in InsertSpan(s, sorted) <==> x == s || x in sorted
    ensures Covers(InsertSpan(s, sorted), day) <==> s.lo <= day <= s.hi || Covers(sorted, day)
  {
    if sorted == [] || SpanLess(s, sorted[0]) {
      ConsCovers(s, sorted, day);
    } else {
      InsertKeeps(s, sorted[1..], day);
      var rest := InsertSpan(s, sorted[1..]);
      forall k | 0 <= k < |rest| ensures !SpanLess(rest[k], sorted[0]) {
        assert rest[k] in rest;
        assert rest[k] == s || rest[k] in sorted[1..];
      }
      ConsCovers(sorted[0], rest, day);
      ConsCovers(sorted[0], sorted[1..], day);
      assert sorted == [sorted[0]] + sorted[1..];
    }
  }

  lemma {:induction false} ConsCovers(s: Span, rest: seq<Span>, day: int)
    ensures Covers([s] + rest, day) <==> s.lo <= day <= s.hi || Covers(rest, day)
  {
    var all := [s] + rest;
    assert all[0] == s && forall i :: 0 <= i < |rest| ==> all[i + 1] == rest[i];
    if i :| 0 <= i < |all| && all[i].lo <= day <= all[i].hi { assert i > 0 ==> all[i] == rest[i - 1]; }
  }

  /** sorted(...) of the recoveries that count. */
  function Intervals(recoveries: seq<Recovery>, failed: Identity, failedAt: Time): seq<Span>
    requires forall i :: 0 <= i < |recoveries| ==> WellFormed(recoveries[i].identity)
  {
    if recoveries == [] then []
    else
      var rest := Intervals(recoveries[1..], failed, failedAt);
      if Counts(recoveries[0], failed, failedAt) then InsertSpan(SpanOf(recoveries[0].identity), rest) else rest
  }

  lemma {:induction false} IntervalsCover(recoveries: seq<Recovery>, failed: Identity, failedAt: Time, day: int)
    requires forall i :: 0 <= i < |recoveries| ==> WellFormed(recoveries[i].identity)
    ensures Ordered(Intervals(recoveries, failed, failedAt))
    ensures Covers(Intervals(recoveries, failed, failedAt), day) <==> CountedDay(recoveries, failed, failedAt, day)
  {
    if recoveries != [] {
      var rest, r := recoveries[1..], recoveries[0];
      IntervalsCover(rest, failed, failedAt, day);
      if Counts(r, failed, failedAt) { InsertKeeps(SpanOf(r.identity), Intervals(rest, failed, failedAt), day); }
      if CountedDay(rest, failed, failedAt, day) {
        var i :| 0 <= i < |rest| && Restores(rest[i], failed, failedAt, day);
        assert recoveries[i + 1] == rest[i];
      }
      if CountedDay(recoveries, failed, failedAt, day) {
        var i :| 0 <= i < |recoveries| && Restores(recoveries[i], failed, failedAt, day);
        if i > 0 { assert recoveries[i] == rest[i - 1]; }
      }
    }
  }

  /** Merged spans run forward and leave at least one day between neighbours. */
  predicate Apart(merged: seq<Span>) {
    && (forall i :: 0 <= i < |merged| ==> merged[i].lo <= merged[i].hi)
    && (forall i, j :: 0 <= i < j < |merged| ==> merged[i].hi + 1 < merged[j].lo)
  }

  lemma {:induction false} AppendCovers(spans: seq<Span>, s: Span, day: int)
    ensures Covers(spans + [s], day) <==> Covers(spans, day) || s.lo <= day <= s.hi
  {
    var all := spans + [s];
    assert all[|spans|] == s && forall i :: 0 <= i < |spans| ==> all[i] == spans[i];
    if i :| 0 <= i < |spans| && spans[i].lo <= day <= spans[i].hi { assert all[i].lo <= day <= all[i].hi; }
  }

  lemma {:induction false} ExtendCovers(merged: seq<Span>, hi: int, day: int)
    requires merged != []
    ensures
      var n, last := |merged| - 1, merged[|merged| - 1];
      Covers(merged[n := Span(last.lo, hi)], day) <==> Covers(merged[..n], day) || last.lo <= day <= hi
  {
    var n := |merged| - 1;
    AppendCovers(merged[..n], Span(merged[n].lo, hi), day);
    assert merged[n := Span(merged[n].lo, hi)] == merged[..n] + [Span(merged[n].lo, hi)];
  }

  /** The merge loop: the same days, as spans with gaps between them. */
  method Merge(intervals: seq<Span>) returns (merged: seq<Span>)
    requires Ordered(intervals)
    ensures Apart(merged) && forall day :: Covers(merged, day) <==> Covers(intervals, day)
  {
    merged := [];
    for k := 0 to |intervals|
      invariant Apart(merged)
      invariant merged != [] ==> k > 0 && merged[|merged| - 1].lo <= intervals[k - 1].lo
      invariant forall day :: Covers(merged, day) <==> Covers(intervals[..k], day)
    {
      var next := intervals[k];
      ghost var before := merged;
      assert k > 0 ==> !SpanLess(next, intervals[k - 1]);
      assert intervals[..k + 1] == intervals[..k] + [next];
      if merged != [] && next.lo <= merged[|merged| - 1].hi + 1 {
        var last := merged[|merged| - 1];
        var hi := if last.hi >= next.hi then last.hi else next.hi;
        merged := merged[|merged| - 1 := Span(last.lo, hi)];
        forall day ensures Covers(merged, day) <==> Covers(intervals[..k + 1], day) {
          AppendCovers(intervals[..k], next, day);
          ExtendCovers(before, hi, day);
          ExtendCovers(before, last.hi, day);
          assert before[|before| - 1 := last] == before;
        }
      } else {
        merged := merged + [next];
        forall day ensures Covers(merged, day) <==> Covers(intervals[..k + 1], day) {
          AppendCovers(intervals[..k], next, day);
          AppendCovers(before, next, day);
        }
      }
    }
    assert intervals[..|intervals|] == intervals;
  }

  /** With a gap between neighbours, a range is covered day by day exactly if one span contains it. */
  lemma {:induction false} OneSpanContains(merged: seq<Span>, lo: int, hi: int)
    requires Apart(merged) && lo <= hi
    ensures (exists i :: 0 <= i < |merged| && merged[i].lo <= lo && hi <= merged[i].hi)
       <==> (forall day :: lo <= day <= hi ==> Covers(merged, day))
  {
    if forall day :: lo <= day <= hi ==> Covers(merged, day) {
      assert Covers(merged, lo);
      var i :| 0 <= i < |merged| && merged[i].lo <= lo <= merged[i].hi;
      if merged[i].hi < hi {
        assert Covers(merged, merged[i].hi + 1);
        var j :| 0 <= j < |merged| && merged[j].lo <= merged[i].hi + 1 <= merged[j].hi;
      }
    }
  }

  /** _window_interval_is_covered: true exactly if every day of the failed window lies in a recovery of the
      same series that started and finished after the failure. */
  method IntervalIsCovered(failed: Identity, recoveries: seq<Recovery>, failedAt: Time) returns (covered: bool)
    requires WellFormed(failed) && forall i :: 0 <= i < |recoveries| ==> WellFormed(recoveries[i].identity)
    ensures covered <==> Recovered(failed, recoveries, failedAt)
  {
    var span := SpanOf(failed);
    var intervals := Intervals(recoveries, failed, failedAt);
    forall day ensures Covers(intervals, day) <==> CountedDay(recoveries, failed, failedAt, day) {
      IntervalsCover(recoveries, failed, failedAt, day);
    }
    IntervalsCover(recoveries, failed, failedAt, span.lo);
    if intervals == [] {
      assert !CountedDay(recoveries, failed, failedAt, span.lo);
      return false;
    }
    var merged := Merge(intervals);
    OneSpanContains(merged, span.lo, span.hi);
    covered := exists i :: 0 <= i < |merged| && merged[i].lo <= span.lo && span.hi <= merged[i].hi;
    assert covered <==> forall day :: span.lo <= day <= span.hi ==> Covers(merged, day);
  }

  /** More recoveries never take coverage back. */
  lemma {:induction false} CoverageIsMonotone(failed: Identity, recoveries: seq<Recovery>, more: seq<Recovery>,
                                              failedAt: Time)
    requires WellFormed(failed)
    requires forall i :: 0 <= i < |recoveries| ==> WellFormed(recoveries[i].identity)
    requires forall i :: 0 <= i < |more| ==> WellFormed(more[i].identity)
    requires forall r :: r in recoveries ==> r in more
    requires Recovered(failed, recoveries, failedAt)
    ensures Recovered(failed, more, failedAt)
  {
    forall day | Ordinal(failed.start) <= day <= Ordinal(failed.end) ensures CountedDay(more, failed, failedAt, day) {
      assert CountedDay(recoveries, failed, failedAt, day);
      var i :| 0 <= i < |recoveries| && Restores(recoveries[i], failed, failedAt, day);
      assert recoveries[i] in more;
    }
  }

  // ---------- names, annual windows and coverage together ----------

  /** A task's latest status row; lastAttempt is None unless it is a timestamp with an offset. */
  datatype TaskRow = TaskRow(task: string, status: string, lastAttempt: Option<Time>)

  const SUPERSEDING_VERSIONS: set<string> := {"daily-refresh-v4", "daily-refresh-v5", "daily-refresh-v6"}

  /** A failed or partial window task whose whole window was recovered after its last attempt. */
  ghost predicate Superseded(row: TaskRow, recoveries: seq<Recovery>)
    requires forall i :: 0 <= i < |recoveries| ==> WellFormed(recoveries[i].identity)
  {
    && row.status in {"error", "partial"}
    && row.lastAttempt.Some?
    && WindowIdentity(row.task).Some?
    && (ParsedIdentityIsCanonical(row.task);
        Recovered(WindowIdentity(row.task).value, recoveries, row.lastAttempt.value))
  }

  /** _superseded_window_error_names on the validated recoveries: exactly the tasks of superseded rows, for the
      manifests that have annual windows. */
  method SupersededNames(rows: seq<TaskRow>, version: Option<string>, recoveries: seq<Recovery>)
    returns (names: set<string>)
    requires forall i :: 0 <= i < |recoveries| ==> WellFormed(recoveries[i].identity)
    ensures version.None? || version.value !in SUPERSEDING_VERSIONS ==> names == {}
    ensures version.Some? && version.value in SUPERSEDING_VERSIONS ==>
              forall task :: task in names <==> SomeSuperseded(rows, task, recoveries)
  {
    hide Superseded;
    names := {};
    if version.None? || version.value !in SUPERSEDING_VERSIONS { return; }
    for k := 0 to |rows|
      invariant forall task :: task in names <==> SomeSuperseded(rows[..k], task, recoveries)
    {
      var superseded := IsSuperseded(rows[k], recoveries);
      if superseded { names := names + {rows[k].task}; }
      forall task
        ensures SomeSuperseded(rows[..k + 1], task, recoveries)
           <==> SomeSuperseded(rows[..k], task, recoveries) || (superseded && task == rows[k].task)
      {
        OneMoreRow(rows, k, task, recoveries);
      }
    }
    assert rows[..|rows|] == rows;
  }

  ghost predicate SomeSuperseded(rows: seq<TaskRow>, task: string, recoveries: seq<Recovery>)
    requires forall i :: 0 <= i < |recoveries| ==> WellFormed(recoveries[i].identity)
  {
    exists k :: 0 <= k < |rows| && rows[k].task == task && Superseded(rows[k], recoveries)
  }

  lemma {:induction false} OneMoreRow(rows: seq<TaskRow>, k: nat, task: string, recoveries: seq<Recovery>)
    requires forall i :: 0 <= i < |recoveries| ==> WellFormed(recoveries[i].identity)
    requires k < |rows|
    ensures SomeSuperseded(rows[..k + 1], task, recoveries)
       <==> SomeSuperseded(rows[..k], task, recoveries) || (rows[k].task == task && Superseded(rows[k], recoveries))
  {
    hide Superseded;
    assert rows[..k + 1][k] == rows[k];
    assert forall i :: 0 <= i < k ==> rows[..k + 1][i] == rows[..k][i];
  }

  /** The body of that loop. */
  method IsSuperseded(row: TaskRow, recoveries: seq<Recovery>) returns (superseded: bool)
    requires forall i :: 0 <= i < |recoveries| ==> WellFormed(recoveries[i].identity)
    ensures superseded <==> Superseded(row, recoveries)
  {
    var identity := WindowIdentity(row.task);
    if identity.None? || row.status !in {"error", "partial"} || row.lastAttempt.None? { return false; }
    ParsedIdentityIsCanonical(row.task);
    superseded := IntervalIsCovered(identity.value, recoveries, row.lastAttempt.value);
  }

  ghost predicate WindowRecovered(id: Identity, recoveries: seq<Recovery>, failedAt: Time) {
    exists i :: 0 <= i < |recoveries| && recoveries[i].identity == id
      && recoveries[i].startedAt > failedAt && recoveries[i].finishedAt > failedAt
  }

  /** A series whose annual windows all succeeded after a failure. */
  ghost predicate AllAnnualWindowsRecovered(kind: Kind, code: nat, s: Date, e: Date, recoveries: seq<Recovery>,
                                            failedAt: Time)
    requires InRange(s) && InRange(e)
  {
    forall k :: 0 <= k < |YearCut(s, e)| ==>
      WindowRecovered(Identity(kind, code, YearCut(s, e)[k].start, YearCut(s, e)[k].end), recoveries, failedAt)
  }

  lemma {:induction false} OrdinalOfSomeDay(a: Date, day: int)
    requires Valid(a)
    ensures exists d :: Valid(d) && Ordinal(d) == day
  {
    AddDaysShifts(a, day - Ordinal(a));
    assert Valid(AddDays(a, day - Ordinal(a)));
  }

  /** Once every annual window of a series has succeeded after a failure, every failed window of that series
      inside the range is superseded, whatever its own boundaries. */
  lemma {:induction false} AnnualRecoverySupersedes(failed: Identity, s: Date, e: Date, recoveries: seq<Recovery>,
                                                    failedAt: Time)
    requires InRange(s) && InRange(e) && Printable(failed) && !Before(failed.start, s) && !Before(e, failed.end)
    requires forall i :: 0 <= i < |recoveries| ==> WellFormed(recoveries[i].identity)
    requires AllAnnualWindowsRecovered(failed.kind, failed.code, s, e, recoveries, failedAt)
    ensures Superseded(TaskRow(TaskName(failed), "error", Some(failedAt)), recoveries)
    ensures Superseded(TaskRow(TaskName(failed), "partial", Some(failedAt)), recoveries)
  {
    NameParsesBack(failed);
    forall day | Ordinal(failed.start) <= day <= Ordinal(failed.end)
      ensures CountedDay(recoveries, failed, failedAt, day)
    {
      OrdinalOfSomeDay(s, day);
      var d :| Valid(d) && Ordinal(d) == day;
      DayIsRecovered(failed, s, e, recoveries, failedAt, d);
    }
  }

  lemma {:induction false} DayIsRecovered(failed: Identity, s: Date, e: Date, recoveries: seq<Recovery>,
                                          failedAt: Time, d: Date)
    requires InRange(s) && InRange(e) && Printable(failed) && !Before(failed.start, s) && !Before(e, failed.end)
    requires forall i :: 0 <= i < |recoveries| ==> WellFormed(recoveries[i].identity)
    requires AllAnnualWindowsRecovered(failed.kind, failed.code, s, e, recoveries, failedAt)
    requires Valid(d) && Ordinal(failed.start) <= Ordinal(d) <= Ordinal(failed.end)
    ensures CountedDay(recoveries, failed, failedAt, Ordinal(d))
  {
    OrdinalIsOrder(d, failed.start);
    OrdinalIsOrder(failed.end, d);
    EachDayInOneAnnualWindow(s, e, d);
    var windows := YearCut(s, e);
    var k :| 0 <= k < |windows| && Within(d, windows[k]);
    assert WindowRecovered(Identity(failed.kind, failed.code, windows[k].start, windows[k].end), recoveries, failedAt);
    OrdinalIsOrder(d, windows[k].start);
    OrdinalIsOrder(windows[k].end, d);
  }
}
