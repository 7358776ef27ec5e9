/** Splitting a date range into request windows, and collapsing a provider's rows window by window. */
module Windows {
  import opened Wrappers
  import opened Calendar

  /** An inclusive range of days. */
  datatype Window = Window(start: Date, end: Date)

  predicate Within(d: Date, w: Window) {
    !Before(d, w.start) && !Before(w.end, d)
  }

  function Earlier(a: Date, b: Date): Date {
    if Before(b, a) then b else a
  }

  // ---------- ten-year windows ----------

  const MAX_RANGE_YEARS := 10

  /** cursor.replace(year=cursor.year + 10), or the ValueError: ten years after a leap day is never one. */
  function PlusTenYears(d: Date): (r: Option<Date>)
    requires InRange(d)
    ensures r.Some? ==> InRange(r.value) && Before(d, r.value)
  {
    var moved := d.(year := d.year + MAX_RANGE_YEARS);
    if InRange(moved) then Some(moved) else None
  }

  function Cut(cursor: Date, e: Date): Option<seq<Window>>
    requires InRange(cursor) && InRange(e)
    decreases 9999 - cursor.year + (if Before(cursor, e) then 10 else 0)
  {
    if !Before(cursor, e) then Some([])
    else
      var next := PlusTenYears(cursor);
      if next.None? then None
      else
        var end := Earlier(next.value, e);
        Prepend([Window(cursor, end)], Cut(end, e))
  }

  function Prepend(cuts: seq<Window>, rest: Option<seq<Window>>): Option<seq<Window>> {
    if rest.None? then None else Some(cuts + rest.value)
  }

  lemma {:induction false} PrependMore(cuts: seq<Window>, w: Window, rest: Option<seq<Window>>)
    ensures Prepend(cuts, Prepend([w], rest)) == Prepend(cuts + [w], rest)
    ensures Prepend([], rest) == rest
  {
    if rest.Some? {
      assert cuts + ([w] + rest.value) == (cuts + [w]) + rest.value;
      assert [] + rest.value == rest.value;
    }
  }

  /** One provider request, its bounds optional. */
  datatype Bounds = Bounds(start: Option<Date>, end: Option<Date>)

  function LastDay(end: Option<Date>, today: Date): Date {
    if end.Some? then end.value else today
  }

  function Requests(cuts: seq<Window>): (r: seq<Bounds>)
    ensures |r| == |cuts| && forall i :: 0 <= i < |cuts| ==> r[i] == Bounds(Some(cuts[i].start), Some(cuts[i].end))
  {
    seq(|cuts|, i requires 0 <= i < |cuts| => Bounds(Some(cuts[i].start), Some(cuts[i].end)))
  }

  /** _make_windows: an open start is one request, an absent end is today, an empty or reversed range is passed
      on as it came; None when datetime raises. */
  method MakeWindows(start: Option<Date>, end: Option<Date>, today: Date) returns (requests: Option<seq<Bounds>>)
    requires (start.Some? ==> InRange(start.value)) && (end.Some? ==> InRange(end.value)) && InRange(today)
    ensures start.None? ==> requests == Some([Bounds(None, end)])
    ensures start.Some? ==>
              var cut := Cut(start.value, LastDay(end, today));
              requests == if cut.None? then None
                          else if cut.value == [] then Some([Bounds(start, end)])
                          else Some(Requests(cut.value))
  {
    if start.None? { return Some([Bounds(None, end)]); }
    var s, e := start.value, LastDay(end, today);
    var cursor, windows: seq<Bounds> := s, [];
    ghost var cuts: seq<Window> := [];
    PrependMore([], Window(s, e), Cut(s, e));
    while Before(cursor, e)
      invariant InRange(cursor)
      invariant Cut(s, e) == Prepend(cuts, Cut(cursor, e)) && windows == Requests(cuts)
      decreases 9999 - cursor.year + (if Before(cursor, e) then 10 else 0)
    {
      var next := PlusTenYears(cursor);
      if next.None? { return None; }
      var window := Window(cursor, Earlier(next.value, e));
      PrependMore(cuts, window, Cut(window.end, e));
      cuts := cuts + [window];
      windows := windows + [Bounds(Some(window.start), Some(window.end))];
      cursor := window.end;
    }
    assert cuts + [] == cuts;
    return Some(if windows == [] then [Bounds(start, end)] else windows);
  }

  /** Windows chained end to start, from first to last. */
  predicate Chained(windows: seq<Window>, first: Date, last: Date) {
    && windows != []
    && windows[0].start == first && windows[|windows| - 1].end == last
    && (forall i :: 0 <= i < |windows| - 1 ==> windows[i].end == windows[i + 1].start)
  }

  /** Every window runs forward and ends at most ten years on; all but the last end exactly ten years on. */
  predicate TenYearSteps(windows: seq<Window>) {
    forall i :: 0 <= i < |windows| ==>
      && InRange(windows[i].start) && InRange(windows[i].end) && Before(windows[i].start, windows[i].end)
      && (var limit := PlusTenYears(windows[i].start);
          && limit.Some? && !Before(limit.value, windows[i].end)
          && (i < |windows| - 1 ==> windows[i].end == limit.value))
  }

  lemma {:induction false} CutIsChained(s: Date, e: Date)
    requires InRange(s) && InRange(e) && Before(s, e) && Cut(s, e).Some?
    ensures Chained(Cut(s, e).value, s, e) && TenYearSteps(Cut(s, e).value)
    decreases 9999 - s.year + (if Before(s, e) then 10 else 0)
  {
    var end := Earlier(PlusTenYears(s).value, e);
    if Before(end, e) {
      CutIsChained(end, e);
      var rest := Cut(end, e).value;
      assert Cut(s, e).value == [Window(s, end)] + rest;
    } else {
      assert end == e;
      assert Cut(s, e).value == [Window(s, e)];
    }
  }

  /** The last cursor the loop can stand on before year 9999 is over. */
  function LastCursor(s: Date): Date {
    s.(year := 9990 + s.year % 10)
  }

  /** Stepping ten years fails on 29 February and in the last ten years; otherwise it keeps month, day and
      the last cursor. */
  lemma {:induction false} TenYearsOn(s: Date, e: Date)
    requires InRange(s) && InRange(e)
    ensures PlusTenYears(s).Some? <==> !(s.month == 2 && s.day == 29) && s != LastCursor(s)
    ensures PlusTenYears(s).Some? ==>
              var next := PlusTenYears(s).value;
              && LastCursor(next) == LastCursor(s) && (next.month, next.day) == (s.month, s.day)
              && next.year == s.year + 10
              && (!Before(next, e) ==> !Before(LastCursor(s), e))
  {
  }

  /** The splitting raises exactly for a start on 29 February, or for an end past the last ten-year step. */
  lemma {:induction false} CutFailsExactly(s: Date, e: Date)
    requires InRange(s) && InRange(e) && Before(s, e)
    ensures Cut(s, e).None? <==> (s.month == 2 && s.day == 29) || Before(LastCursor(s), e)
    decreases 9999 - s.year + 10
  {
    hide PlusTenYears, LastCursor;
    TenYearsOn(s, e);
    var next := PlusTenYears(s);
    if next.Some? {
      var end := Earlier(next.value, e);
      if Before(end, e) { CutFailsExactly(end, e); }
    }
  }

  /** One day from a leap day on, and the splitting raises. */
  lemma {:induction false} LeapStartFails()
    ensures InRange(Date(2024, 2, 29)) && InRange(Date(2024, 3, 1))
    ensures Cut(Date(2024, 2, 29), Date(2024, 3, 1)).None?
  {
    CutFailsExactly(Date(2024, 2, 29), Date(2024, 3, 1));
  }

  // ---------- annual windows ----------

  function YearCut(cursor: Date, e: Date): (windows: seq<Window>)
    requires Valid(cursor) && Valid(e)
    decreases e.year - cursor.year + 1
  {
    if Before(e, cursor) then []
    else
      var end := Earlier(Date(cursor.year, 12, 31), e);
      [Window(cursor, end)] + if end == e then [] else YearCut(Next(end), e)
  }

  /** sgs_annual_windows: ValueError for a reversed range, OverflowError past the last representable day. */
  method AnnualWindows(s: Date, e: Date) returns (windows: Option<seq<Window>>)
    requires InRange(s) && InRange(e)
    ensures windows == if Before(e, s) || e == Date(9999, 12, 31) then None else Some(YearCut(s, e))
  {
    if Before(e, s) { return None; }
    var cursor, cuts: seq<Window> := s, [];
    while !Before(e, cursor)
      invariant InRange(cursor) && (!Before(e, cursor) || cursor == Next(e))
      invariant cuts + YearCut(cursor, e) == YearCut(s, e)
      decreases if Before(e, cursor) then 0 else e.year - cursor.year + 2
    {
      var end := Earlier(Date(cursor.year, 12, 31), e);
      if end == Date(9999, 12, 31) { return None; }
      assert end == e ==> YearCut(Next(end), e) == [];
      assert cuts + YearCut(cursor, e) == (cuts + [Window(cursor, end)]) + YearCut(Next(end), e);
      cuts := cuts + [Window(cursor, end)];
      cursor := Next(end);
    }
    assert e != Date(9999, 12, 31) && YearCut(cursor, e) == [] && cuts + [] == cuts;
    return Some(cuts);
  }

  /** Consecutive single-year windows that together are exactly the range. */
  predicate PartitionsByYear(windows: seq<Window>, s: Date, e: Date) {
    && windows != []
    && windows[0].start == s && windows[|windows| - 1].end == e
    && (forall i :: 0 <= i < |windows| ==>
          && Valid(windows[i].start) && Valid(windows[i].end) && !Before(windows[i].end, windows[i].start)
          && windows[i].start.year == windows[i].end.year)
    && (forall i :: 0 <= i < |windows| - 1 ==> windows[i + 1].start == Next(windows[i].end))
  }

  lemma {:induction false} AnnualWindowsPartition(s: Date, e: Date)
    requires Valid(s) && Valid(e) && !Before(e, s)
    ensures PartitionsByYear(YearCut(s, e), s, e)
    decreases e.year - s.year + 1
  {
    var end := Earlier(Date(s.year, 12, 31), e);
    if end != e { AnnualWindowsPartition(Next(end), e); }
  }

  predicate InSome(d: Date, windows: seq<Window>) {
    exists i :: 0 <= i < |windows| && Within(d, windows[i])
  }

  predicate InAtMostOne(d: Date, windows: seq<Window>) {
    forall i, j :: 0 <= i < j < |windows| ==> !(Within(d, windows[i]) && Within(d, windows[j]))
  }

  lemma {:induction false} ConsWindow(d: Date, w: Window, rest: seq<Window>)
    ensures InSome(d, [w] + rest) <==> Within(d, w) || InSome(d, rest)
    ensures InAtMostOne(d, rest) && !(Within(d, w) && InSome(d, rest)) ==> InAtMostOne(d, [w] + rest)
  {
    var all := [w] + rest;
    assert all[0] == w && forall i :: 0 <= i < |rest| ==> all[i + 1] == rest[i];
    if i :| 0 <= i < |rest| && Within(d, rest[i]) { assert Within(d, all[i + 1]); }
    if i :| 0 <= i < |all| && Within(d, all[i]) { assert i > 0 ==> Within(d, rest[i - 1]); }
    if InAtMostOne(d, rest) && !(Within(d, w) && InSome(d, rest)) {
      forall i, j | 0 <= i < j < |all| ensures !(Within(d, all[i]) && Within(d, all[j])) {
        assert all[j] == rest[j - 1] && (i > 0 ==> all[i] == rest[i - 1]);
      }
    }
  }

  /** Every day of the range lies in exactly one annual window, and no other day in any. */
  lemma {:induction false} EachDayInOneAnnualWindow(s: Date, e: Date, d: Date)
    requires Valid(s) && Valid(e) && Valid(d) && !Before(e, s)
    ensures InSome(d, YearCut(s, e)) <==> Within(d, Window(s, e))
    ensures InAtMostOne(d, YearCut(s, e))
    decreases e.year - s.year + 1
  {
    var end := Earlier(Date(s.year, 12, 31), e);
    if end == e {
      ConsWindow(d, Window(s, e), []);
      assert [Window(s, e)] + [] == [Window(s, e)];
    } else {
      var next := Next(end);
      EachDayInOneAnnualWindow(next, e, d);
      NothingBetween(end, d);
      ConsWindow(d, Window(s, end), YearCut(next, e));
    }
  }

  lemma {:induction false} NothingBetween(a: Date, d: Date)
    requires Valid(a) && Valid(d)
    ensures Before(a, d) <==> !Before(d, Next(a))
  {
    NextIsOneLater(a);
    OrdinalIsOrder(a, d);
    OrdinalIsOrder(d, Next(a));
  }
}
