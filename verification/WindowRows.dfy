/** Normalising a provider's rows: reject rows outside the window, collapse identical duplicates. */
module WindowRows {
  import opened Wrappers
  import opened Calendar
  import opened Windows

  /** A provider row with its parsed date, its parsed dataFim when present, and its value. */
  datatype Record<V(==)> = Record(date: Date, periodEnd: Option<Date>, value: V)

  /** A point is known by its date, a monthly rate (series 226) by its period. */
  datatype Key = Key(date: Date, periodEnd: Option<Date>)

  datatype Problem = OutsideWindow | InvalidPeriodEnd | InvalidPeriod | ConflictingDuplicate

  datatype Rejected = Rejected(problem: Problem, index: nat)

  function KeyOf<V>(r: Record<V>, monthly: bool): Key {
    Key(r.date, if monthly then r.periodEnd else None)
  }

  /** The checks on a single row, in the order the loop makes them. */
  function RowProblem<V>(r: Record<V>, monthly: bool, w: Window): Option<Problem> {
    if !Within(r.date, w) then Some(OutsideWindow)
    else if monthly && r.periodEnd.None? then Some(InvalidPeriodEnd)
    else if monthly && !Before(r.date, r.periodEnd.value) then Some(InvalidPeriod)
    else None
  }

  /** The first row with a key. */
  function FirstWith<V>(rows: seq<Record<V>>, monthly: bool, k: Key): Option<Record<V>> {
    if rows == [] then None
    else if KeyOf(rows[0], monthly) == k then Some(rows[0])
    else FirstWith(rows[1..], monthly, k)
  }

  /** Every row passes its own checks and agrees with the first row of its key. */
  ghost predicate Acceptable<V>(rows: seq<Record<V>>, monthly: bool, w: Window) {
    forall i :: 0 <= i < |rows| ==> RowProblem(rows[i], monthly, w).None? && Agrees(rows, monthly, rows[i])
  }

  predicate Agrees<V(==)>(rows: seq<Record<V>>, monthly: bool, r: Record<V>) {
    var first := FirstWith(rows, monthly, KeyOf(r, monthly));
    first.Some? ==> first.value.value == r.value
  }

  /** m holds exactly the keys of the rows, each with its first row. */
  ghost predicate Collapses<V>(rows: seq<Record<V>>, monthly: bool, m: map<Key, Record<V>>) {
    forall k: Key {:induction false} :: (if k in m then Some(m[k]) else None) == FirstWith(rows, monthly, k)
  }

  lemma {:induction false} FirstOfLonger<V>(rows: seq<Record<V>>, r: Record<V>, monthly: bool, k: Key)
    ensures FirstWith(rows + [r], monthly, k) ==
      (var first := FirstWith(rows, monthly, k);
       if first.Some? then first else if KeyOf(r, monthly) == k then Some(r) else None)
  {
    if rows == [] {
      assert (rows + [r])[0] == r && (rows + [r])[1..] == [];
    } else {
      FirstOfLonger(rows[1..], r, monthly, k);
      assert (rows + [r])[1..] == rows[1..] + [r];
    }
  }

  lemma {:induction false} FirstHasKey<V>(rows: seq<Record<V>>, monthly: bool, k: Key)
    ensures
      var first := FirstWith(rows, monthly, k);
      && (first.Some? ==> KeyOf(first.value, monthly) == k && first.value in rows)
      && (first.None? ==> forall i :: 0 <= i < |rows| ==> KeyOf(rows[i], monthly) != k)
  {
    if rows != [] { FirstHasKey(rows[1..], monthly, k); }
  }

  /** The loop of _normalize_window_records: it returns a map exactly for acceptable rows, and then the map
      of first rows by key; otherwise the index it raises at is the first offending row. */
  method Normalize<V(==)>(rows: seq<Record<V>>, monthly: bool, w: Window)
    returns (r: Result<map<Key, Record<V>>, Rejected>)
    ensures r.Ok? <==> Acceptable(rows, monthly, w)
    ensures r.Ok? ==> Collapses(rows, monthly, r.value)
    ensures r.Err? ==>
      && r.error.index < |rows|
      && Acceptable(rows[..r.error.index], monthly, w)
      && (var row := rows[r.error.index];
          r.error.problem == if RowProblem(row, monthly, w).Some? then RowProblem(row, monthly, w).value
            else ConflictingDuplicate)
  {
    var byKey: map<Key, Record<V>> := map[];
    for i := 0 to |rows|
      invariant Collapses(rows[..i], monthly, byKey)
      invariant Acceptable(rows[..i], monthly, w)
    {
      var row := rows[i];
      var problem := RowProblem(row, monthly, w);
      var key := KeyOf(row, monthly);
      assert rows[..i + 1] == rows[..i] + [row];
      if problem.Some? {
        RejectedPrefix(rows, i, monthly, w);
        return Err(Rejected(problem.value, i));
      }
      if key in byKey && byKey[key].value != row.value {
        assert FirstWith(rows[..i], monthly, key) == Some(byKey[key]);
        FirstOfLonger(rows[..i], row, monthly, key);
        RejectedPrefix(rows, i, monthly, w);
        return Err(Rejected(ConflictingDuplicate, i));
      }
      AcceptOneMore(rows[..i], row, monthly, w, byKey);
      if key !in byKey { byKey := byKey[key := row]; }
    }
    assert rows[..|rows|] == rows;
    r := Ok(byKey);
  }

  lemma {:induction false} AcceptOneMore<V>(rows: seq<Record<V>>, row: Record<V>, monthly: bool, w: Window,
                                            m: map<Key, Record<V>>)
    requires Acceptable(rows, monthly, w) && Collapses(rows, monthly, m) && RowProblem(row, monthly, w).None?
    requires KeyOf(row, monthly) in m ==> m[KeyOf(row, monthly)].value == row.value
    ensures Acceptable(rows + [row], monthly, w)
    ensures Collapses(rows + [row], monthly, if KeyOf(row, monthly) in m then m else m[KeyOf(row, monthly) := row])
  {
    var key, all := KeyOf(row, monthly), rows + [row];
    forall k: Key ensures FirstWith(all, monthly, k) ==
      (var first := FirstWith(rows, monthly, k); if first.Some? then first else if key == k then Some(row) else None)
    {
      FirstOfLonger(rows, row, monthly, k);
    }
    assert FirstWith(rows, monthly, key) == if key in m then Some(m[key]) else None;
    forall i | 0 <= i < |all| ensures RowProblem(all[i], monthly, w).None? && Agrees(all, monthly, all[i]) {
      if i < |rows| {
        assert Agrees(rows, monthly, rows[i]);
        FirstHasKey(rows, monthly, KeyOf(rows[i], monthly));
      }
    }
  }

  lemma {:induction false} FirstOfPrefix<V>(rows: seq<Record<V>>, n: nat, monthly: bool, k: Key)
    requires n <= |rows|
    ensures FirstWith(rows[..n], monthly, k).Some? ==> FirstWith(rows, monthly, k) == FirstWith(rows[..n], monthly, k)
  {
    if n > 0 {
      assert rows[..n][1..] == rows[1..][..n - 1];
      FirstOfPrefix(rows[1..], n - 1, monthly, k);
    }
  }

  lemma {:induction false} RejectedPrefix<V>(rows: seq<Record<V>>, i: nat, monthly: bool, w: Window)
    requires i < |rows|
    requires RowProblem(rows[i], monthly, w).Some? || !Agrees(rows[..i + 1], monthly, rows[i])
    ensures !Acceptable(rows, monthly, w)
  {
    FirstOfPrefix(rows, i + 1, monthly, KeyOf(rows[i], monthly));
  }

  // ---------- window by window ----------

  /** What the provider answers for a window: its rows of those days, in its order. */
  function Select<V>(rows: seq<Record<V>>, w: Window): seq<Record<V>> {
    if rows == [] then []
    else (if Within(rows[0].date, w) then [rows[0]] else []) + Select(rows[1..], w)
  }

  lemma {:induction false} SelectedRows<V>(rows: seq<Record<V>>, w: Window, r: Record<V>)
    ensures r in Select(rows, w) <==> r in rows && Within(r.date, w)
  {
    if rows != [] {
      SelectedRows(rows[1..], w, r);
      assert rows == [rows[0]] + rows[1..];
    }
  }

  lemma {:induction false} SelectedFirst<V>(rows: seq<Record<V>>, w: Window, monthly: bool, k: Key)
    ensures FirstWith(Select(rows, w), monthly, k) ==
      if Within(k.date, w) then FirstWith(rows, monthly, k) else None
  {
    if rows != [] {
      SelectedFirst(rows[1..], w, monthly, k);
      if Within(rows[0].date, w) {
        assert Select(rows, w)[0] == rows[0] && Select(rows, w)[1..] == Select(rows[1..], w);
      } else {
        assert Select(rows, w) == Select(rows[1..], w);
      }
    }
  }

  /** A row of the provider that any window showing its day rejects. */
  ghost predicate Offends<V>(rows: seq<Record<V>>, monthly: bool, r: Record<V>) {
    || (monthly && (r.periodEnd.None? || !Before(r.date, r.periodEnd.value)))
    || !Agrees(rows, monthly, r)
  }

  /** The provider's answer to a window is acceptable exactly if no row of those days offends. */
  lemma {:induction false} AcceptableAnswer<V>(rows: seq<Record<V>>, monthly: bool, w: Window)
    ensures Acceptable(Select(rows, w), monthly, w) <==>
      forall r :: r in rows && Within(r.date, w) ==> !Offends(rows, monthly, r)
  {
    var answer := Select(rows, w);
    forall r | r in answer || (r in rows && Within(r.date, w))
      ensures r in answer && r in rows && Within(r.date, w)
      ensures Agrees(answer, monthly, r) <==> Agrees(rows, monthly, r)
    {
      SelectedRows(rows, w, r);
      SelectedFirst(rows, w, monthly, KeyOf(r, monthly));
    }
    if Acceptable(answer, monthly, w) {
      forall r | r in rows && Within(r.date, w) ensures !Offends(rows, monthly, r) {
        var i :| 0 <= i < |answer| && answer[i] == r;
      }
    }
  }

  /** Whether every window of a list accepts its answer, and the map of all of them together. */
  ghost predicate AllAcceptable<V>(rows: seq<Record<V>>, monthly: bool, windows: seq<Window>) {
    forall i :: 0 <= i < |windows| ==> Acceptable(Select(rows, windows[i]), monthly, windows[i])
  }

  /** Merging window maps as persistence does: a later window overwrites an earlier one. */
  function MergeMaps<V>(maps: seq<map<Key, Record<V>>>): map<Key, Record<V>> {
    if maps == [] then map[] else MergeMaps(maps[..|maps| - 1]) + maps[|maps| - 1]
  }

  lemma {:induction false} ChainCovers(windows: seq<Window>, first: Date, last: Date, d: Date)
    requires Chained(windows, first, last) && TenYearSteps(windows)
    ensures (exists i :: 0 <= i < |windows| && Within(d, windows[i])) <==> Within(d, Window(first, last))
  {
    if |windows| > 1 {
      var rest := windows[1..];
      assert Chained(rest, windows[0].end, last);
      ChainCovers(rest, windows[0].end, last, d);
      StepsRunForward(rest, windows[0].end, last);
      if i :| 0 <= i < |rest| && Within(d, rest[i]) { assert Within(d, windows[i + 1]); }
      if i :| 0 <= i < |windows| && Within(d, windows[i]) { assert i > 0 ==> Within(d, rest[i - 1]); }
      assert Within(d, windows[0]) || Within(d, Window(windows[0].end, last)) <==> Within(d, Window(first, last));
    } else {
      assert Within(d, windows[0]) <==> Within(d, Window(first, last));
    }
  }

  lemma {:induction false} StepsRunForward(windows: seq<Window>, first: Date, last: Date)
    requires Chained(windows, first, last) && TenYearSteps(windows)
    ensures Before(first, last)
  {
    if |windows| > 1 {
      assert Chained(windows[1..], windows[0].end, last);
      StepsRunForward(windows[1..], windows[0].end, last);
    }
  }

  lemma {:induction false} MergedLookup<V>(rows: seq<Record<V>>, monthly: bool, windows: seq<Window>,
                                           maps: seq<map<Key, Record<V>>>, k: Key)
    requires |maps| == |windows|
    requires forall i :: 0 <= i < |windows| ==> Collapses(Select(rows, windows[i]), monthly, maps[i])
    ensures
      var m := MergeMaps(maps);
      (if k in m then Some(m[k]) else None) ==
        if exists i :: 0 <= i < |windows| && Within(k.date, windows[i]) then FirstWith(rows, monthly, k) else None
  {
    if maps != [] {
      var n := |maps| - 1;
      MergedLookup(rows, monthly, windows[..n], maps[..n], k);
      SelectedFirst(rows, windows[n], monthly, k);
      assert (if k in maps[n] then Some(maps[n][k]) else None) == FirstWith(Select(rows, windows[n]), monthly, k);
      assert forall i :: 0 <= i < n ==> windows[..n][i] == windows[i];
      if i :| 0 <= i < |windows| && Within(k.date, windows[i]) { assert i < n ==> Within(k.date, windows[..n][i]); }
    }
  }

  /** Windowed fetch equals whole fetch: over chained windows, some window is rejected exactly if the whole
      range is, and otherwise merging the window maps gives the map of the whole range, although every inner
      boundary day is fetched twice. */
  lemma {:induction false} WindowedEqualsWhole<V>(rows: seq<Record<V>>, monthly: bool, windows: seq<Window>, s: Date,
                                                  e: Date, maps: seq<map<Key, Record<V>>>, whole: map<Key, Record<V>>)
    requires Chained(windows, s, e) && TenYearSteps(windows)
    ensures AllAcceptable(rows, monthly, windows) <==> Acceptable(Select(rows, Window(s, e)), monthly, Window(s, e))
    ensures
      && |maps| == |windows|
      && (forall i :: 0 <= i < |windows| ==> Collapses(Select(rows, windows[i]), monthly, maps[i]))
      && Collapses(Select(rows, Window(s, e)), monthly, whole)
      ==> MergeMaps(maps) == whole
  {
    AcceptableAnswer(rows, monthly, Window(s, e));
    forall i | 0 <= i < |windows|
      ensures Acceptable(Select(rows, windows[i]), monthly, windows[i]) <==>
        forall r :: r in rows && Within(r.date, windows[i]) ==> !Offends(rows, monthly, r)
    {
      AcceptableAnswer(rows, monthly, windows[i]);
    }
    forall r | r in rows
      ensures (exists i :: 0 <= i < |windows| && Within(r.date, windows[i])) <==> Within(r.date, Window(s, e))
    {
      ChainCovers(windows, s, e, r.date);
    }
    if |maps| == |windows| && (forall i :: 0 <= i < |windows| ==> Collapses(Select(rows, windows[i]), monthly, maps[i]))
       && Collapses(Select(rows, Window(s, e)), monthly, whole) {
      var merged := MergeMaps(maps);
      forall k: Key
        ensures (if k in merged then Some(merged[k]) else None) == if k in whole then Some(whole[k]) else None
      {
        MergedLookup(rows, monthly, windows, maps, k);
        ChainCovers(windows, s, e, k.date);
        SelectedFirst(rows, Window(s, e), monthly, k);
      }
      SameLookupsSameMap(merged, whole);
    }
  }

  lemma {:induction false} SameLookupsSameMap<V>(a: map<Key, Record<V>>, b: map<Key, Record<V>>)
    requires forall k: Key {:induction false} ::
      (if k in a then Some(a[k]) else None) == if k in b then Some(b[k]) else None
    ensures a == b
  {
    forall k: Key ensures (k in a <==> k in b) && (k in a ==> a[k] == b[k]) {
      assert (if k in a then Some(a[k]) else None) == if k in b then Some(b[k]) else None;
    }
  }

  // ---------- acceptance and collapse, of the rows alone ----------

  predicate SameKey<V>(a: Record<V>, b: Record<V>, monthly: bool) {
    a.date == b.date && (monthly ==> a.periodEnd == b.periodEnd)
  }

  lemma {:induction false} FirstIsFirst<V>(rows: seq<Record<V>>, monthly: bool, k: Key)
    ensures
      var first := FirstWith(rows, monthly, k);
      && (first.Some? ==> exists i :: 0 <= i < |rows| && rows[i] == first.value && KeyOf(rows[i], monthly) == k
                                      && forall j :: 0 <= j < i ==> KeyOf(rows[j], monthly) != k)
      && (first.None? ==> forall i :: 0 <= i < |rows| ==> KeyOf(rows[i], monthly) != k)
  {
    if rows != [] {
      if KeyOf(rows[0], monthly) == k {
        assert rows[0] == FirstWith(rows, monthly, k).value;
      } else {
        FirstIsFirst(rows[1..], monthly, k);
        if FirstWith(rows, monthly, k).Some? {
          var i :| 0 <= i < |rows[1..]| && rows[1..][i] == FirstWith(rows, monthly, k).value
            && KeyOf(rows[1..][i], monthly) == k && forall j :: 0 <= j < i ==> KeyOf(rows[1..][j], monthly) != k;
          forall j | 0 <= j < i + 1 ensures KeyOf(rows[j], monthly) != k {
            if j > 0 { assert rows[j] == rows[1..][j - 1]; }
          }
          assert rows[i + 1] == FirstWith(rows, monthly, k).value;
        }
      }
    }
  }

  /** Rows are acceptable exactly if each lies in the window and, for a monthly rate, has a period that ends after
      it starts, and no two of the same key differ in value. */
  lemma {:induction false} AcceptableExactly<V>(rows: seq<Record<V>>, monthly: bool, w: Window)
    ensures Acceptable(rows, monthly, w) <==>
      && (forall i :: 0 <= i < |rows| ==>
            && !Before(rows[i].date, w.start) && !Before(w.end, rows[i].date)
            && (monthly ==> rows[i].periodEnd.Some? && Before(rows[i].date, rows[i].periodEnd.value)))
      && (forall i, j :: 0 <= i < |rows| && 0 <= j < |rows| && SameKey(rows[i], rows[j], monthly) ==>
            rows[i].value == rows[j].value)
  {
    if Acceptable(rows, monthly, w) {
      forall i, j | 0 <= i < |rows| && 0 <= j < |rows| && SameKey(rows[i], rows[j], monthly)
        ensures rows[i].value == rows[j].value
      {
        assert Agrees(rows, monthly, rows[i]) && Agrees(rows, monthly, rows[j]);
        FirstIsFirst(rows, monthly, KeyOf(rows[i], monthly));
      }
    } else {
      var i :| 0 <= i < |rows| && !(RowProblem(rows[i], monthly, w).None? && Agrees(rows, monthly, rows[i]));
      FirstIsFirst(rows, monthly, KeyOf(rows[i], monthly));
    }
  }

  /** The map holds one row for each key, the first. */
  lemma {:induction false} FirstRowsAreKept<V>(rows: seq<Record<V>>, monthly: bool, m: map<Key, Record<V>>, i: nat)
    requires Collapses(rows, monthly, m) && i < |rows|
    ensures
      var k := Key(rows[i].date, if monthly then rows[i].periodEnd else None);
      && k in m
      && SameKey(m[k], rows[i], monthly)
      && ((forall j :: 0 <= j < i ==> !SameKey(rows[j], rows[i], monthly)) ==> m[k] == rows[i])
  {
    var k := KeyOf(rows[i], monthly);
    assert (if k in m then Some(m[k]) else None) == FirstWith(rows, monthly, k);
    FirstIsFirst(rows, monthly, k);
  }

  /** Which objection is raised to a row first. */
  lemma {:induction false} ObjectionsInOrder<V>(r: Record<V>, monthly: bool, w: Window)
    ensures
      var p := RowProblem(r, monthly, w);
      var inside := !Before(r.date, w.start) && !Before(w.end, r.date);
      && (p == Some(OutsideWindow) <==> !inside)
      && (p == Some(InvalidPeriodEnd) <==> inside && monthly && r.periodEnd == None)
      && (p == Some(InvalidPeriod) <==> inside && monthly && r.periodEnd.Some? && !Before(r.date, r.periodEnd.value))
      && p != Some(ConflictingDuplicate)
  {
  }
}
