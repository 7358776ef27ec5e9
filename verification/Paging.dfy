/** Keyset pagination of refresh runs: newest first, resumed by a cursor, while runs are being inserted. */
module Paging {
  import opened Wrappers
  import opened TextClock

  const MAX_LIMIT := 100
  /** Thirty days, in microseconds. */
  const DEFAULT_SPAN := 30 * 86_400 * 1_000_000

  type RunState = string

  /** What paging reads of a run; runId is the key of the table. */
  datatype RunRow = RunRow(createdAt: int, state: RunState)
  type Table = map<string, RunRow>

  datatype Key = Key(createdAt: int, runId: string)

  /** What an issued cursor carries. */
  datatype Cursor = Cursor(limit: int, state: Option<RunState>, since: int, until: int, anchor: int, last: Key)

  datatype Query = Query(limit: int, state: Option<RunState>, since: Option<int>, until: Option<int>,
                         cursor: Option<Cursor>)

  datatype PageError = InvalidLimit | FilterMismatch | InvalidPeriod | InvalidCursor

  datatype Bounds = Bounds(lower: int, until: int, anchor: int)

  datatype RunPage = RunPage(items: seq<Key>, hasMore: bool, next: Option<Cursor>)

  function Least(a: int, b: int): int {
    if a < b then a else b
  }

  function Upper(b: Bounds): int {
    Least(b.until, b.anchor)
  }

  /** The period a request asks for: taken from the cursor if it has one, anchored at now otherwise. */
  function Period(now: int, q: Query): Result<Bounds, PageError> {
    if !(1 <= q.limit <= MAX_LIMIT) then Err(InvalidLimit)
    else if q.cursor.Some? then
      var c := q.cursor.value;
      if c.limit != q.limit || c.state != q.state then Err(FilterMismatch)
      else if (q.since.Some? && q.since.value != c.since)
        || (q.until.Some? && q.until.value != c.until) then Err(FilterMismatch)
      else if c.since >= c.until then Err(InvalidPeriod)
      else if c.anchor > now then Err(InvalidCursor)
      else if c.since >= Least(c.until, c.anchor) then Err(InvalidPeriod)
      else Ok(Bounds(c.since, c.until, c.anchor))
    else
      var until := if q.until.Some? then q.until.value else now;
      var lower := if q.since.Some? then q.since.value else Least(until, now) - DEFAULT_SPAN;
      if lower >= until || lower >= Least(until, now) then Err(InvalidPeriod)
      else Ok(Bounds(lower, until, now))
  }

  /** Rows are ordered by creation time and then run id. */
  predicate Below(a: Key, b: Key) {
    a.createdAt < b.createdAt || (a.createdAt == b.createdAt && LexLess(a.runId, b.runId))
  }

  function KeyOf(t: Table, id: string): Key
    requires id in t
  {
    Key(t[id].createdAt, id)
  }

  predicate InPeriod(b: Bounds, k: Key) {
    b.lower <= k.createdAt < Upper(b) && k.createdAt <= b.anchor
  }

  /** The runs of the period, whatever their state. */
  function Runs(t: Table, b: Bounds): set<Key> {
    set id | id in t && InPeriod(b, KeyOf(t, id)) :: KeyOf(t, id)
  }

  predicate InState(t: Table, state: Option<RunState>, k: Key) {
    state.None? || (k.runId in t && t[k.runId].state == state.value)
  }

  predicate AfterCursor(q: Query, k: Key) {
    q.cursor.None? || Below(k, q.cursor.value.last)
  }

  function Matching(t: Table, q: Query, b: Bounds): set<Key> {
    set k | k in Runs(t, b) && InState(t, q.state, k) && AfterCursor(q, k)
  }

  /** ORDER BY created_at DESC, run_id DESC. */
  ghost function Descending(keys: set<Key>): seq<Key> {
    if keys == {} then []
    else
      HasGreatest(keys);
      var k :| k in keys && forall j :: j in keys && j != k ==> Below(j, k);
      [k] + Descending(keys - {k})
  }

  function Take(s: seq<Key>, n: nat): seq<Key> {
    if |s| < n then s else s[..n]
  }

  /** One request: at most limit + 1 rows are read, the last of them only to see whether there are more. */
  ghost function Page(now: int, t: Table, q: Query): Result<RunPage, PageError> {
    var period := Period(now, q);
    if period.Err? then Err(period.error)
    else
      var b := period.value;
      var rows := Take(Descending(Matching(t, q, b)), q.limit + 1);
      var items := Take(rows, q.limit);
      var hasMore := |rows| > q.limit;
      var next := if hasMore && items != []
                  then Some(Cursor(q.limit, q.state, b.lower, b.until, b.anchor, items[|items| - 1])) else None;
      Ok(RunPage(items, hasMore, next))
  }

  // ---------- the order ----------

  lemma {:induction false} LexTotal(a: string, b: string)
    ensures LexLess(a, b) || a == b || LexLess(b, a)
  {
    if a != [] && b != [] && a[0] == b[0] {
      LexTotal(a[1..], b[1..]);
      assert a[1..] == b[1..] ==> a == [a[0]] + a[1..] == [b[0]] + b[1..] == b;
    }
  }

  lemma {:induction false} LexTransitive(a: string, b: string, c: string)
    requires LexLess(a, b) && LexLess(b, c)
    ensures LexLess(a, c)
  {
    if a != [] && a[0] == b[0] == c[0] { LexTransitive(a[1..], b[1..], c[1..]); }
  }

  lemma {:induction false} BelowIsStrictTotal(a: Key, b: Key)
    ensures !Below(a, a)
    ensures Below(a, b) || a == b || Below(b, a)
    ensures !(Below(a, b) && Below(b, a))
  {
    LexIrreflexive(a.runId);
    LexTotal(a.runId, b.runId);
    if LexLess(a.runId, b.runId) && LexLess(b.runId, a.runId) { LexTransitive(a.runId, b.runId, a.runId); }
  }

  lemma {:induction false} BelowIsTransitive(a: Key, b: Key, c: Key)
    requires Below(a, b) && Below(b, c)
    ensures Below(a, c)
  {
    if a.createdAt == b.createdAt == c.createdAt { LexTransitive(a.runId, b.runId, c.runId); }
  }

  lemma {:induction false} HasGreatest(keys: set<Key>)
    requires keys != {}
    ensures exists k :: k in keys && forall j :: j in keys && j != k ==> Below(j, k)
  {
    hide Below;
    var x :| x in keys;
    var rest := keys - {x};
    if rest == {} {
      assert keys == {x};
    } else {
      HasGreatest(rest);
      var m :| m in rest && forall j :: j in rest && j != m ==> Below(j, m);
      BelowIsStrictTotal(x, m);
      var top := if Below(x, m) then m else x;
      forall j | j in keys && j != top ensures Below(j, top) {
        if top == x && j != m { BelowIsTransitive(j, m, x); }
      }
      assert top in keys;
    }
  }

  /** Strictly descending, so without repeats. */
  ghost predicate Descends(s: seq<Key>) {
    forall i, j :: 0 <= i < j < |s| ==> Below(s[j], s[i])
  }

  /** Descending, and holding exactly the given keys. */
  ghost predicate Lists(s: seq<Key>, keys: set<Key>) {
    && Descends(s)
    && (forall k :: k in s <==> k in keys)
  }

  lemma {:induction false} DescendingLists(keys: set<Key>)
    ensures Lists(Descending(keys), keys)
    ensures |Descending(keys)| == |keys|
  {
    if keys != {} {
      HasGreatest(keys);
      var s := Descending(keys);
      DescendingLists(keys - {s[0]});
      assert s == [s[0]] + s[1..] && s[1..] == Descending(keys - {s[0]});
      forall i, j | 0 <= i < j < |s| ensures Below(s[j], s[i]) {
        if i == 0 { assert s[j] in s[1..]; } else { assert s[i] == s[1..][i - 1] && s[j] == s[1..][j - 1]; }
      }
      forall k ensures k in s <==> k in keys {
        assert k in s <==> k == s[0] || k in s[1..];
      }
    }
  }

  /** There is only one such listing. */
  lemma {:induction false} ListingIsUnique(s: seq<Key>, t: seq<Key>, keys: set<Key>)
    requires Lists(s, keys) && Lists(t, keys)
    ensures s == t
    decreases |s|
  {
    assert t != [] ==> t[0] in keys;
    if s != [] {
      assert s[0] in t;
      assert t[0] in s;
      BelowIsStrictTotal(s[0], t[0]);
      assert s[0] == t[0];
      TailLists(s, keys);
      TailLists(t, keys);
      ListingIsUnique(s[1..], t[1..], keys - {s[0]});
      assert s == [s[0]] + s[1..] && t == [t[0]] + t[1..];
    }
  }

  lemma {:induction false} TailLists(s: seq<Key>, keys: set<Key>)
    requires s != [] && Lists(s, keys)
    ensures Lists(s[1..], keys - {s[0]})
  {
    BelowIsStrictTotal(s[0], s[0]);
    forall i | 1 <= i < |s| ensures s[i] != s[0] {
      assert Below(s[i], s[0]);
    }
    forall k ensures k in s[1..] <==> k in keys - {s[0]} {
      assert k in s <==> k == s[0] || k in s[1..];
    }
  }

  // ---------- following cursors ----------

  /** One visit of a client: the clock and the table it meets. */
  datatype Visit = Visit(now: int, table: Table)

  /** The runs a client is shown, following next_cursor from visit to visit. */
  ghost function Follow(visits: seq<Visit>, q: Query): seq<Key>
    decreases |visits|
  {
    if visits == [] then []
    else
      var page := Page(visits[0].now, visits[0].table, q);
      if page.Err? then []
      else if page.value.next.None? then page.value.items
      else page.value.items + Follow(visits[1..], q.(cursor := page.value.next))
  }

  /** The visits reach a page without a next cursor, and none is refused. */
  ghost predicate Finished(visits: seq<Visit>, q: Query)
    decreases |visits|
  {
    visits != []
    && var page := Page(visits[0].now, visits[0].table, q);
       page.Ok? && (page.value.next.None? || Finished(visits[1..], q.(cursor := page.value.next)))
  }

  ghost predicate Refused(visits: seq<Visit>, q: Query)
    decreases |visits|
  {
    visits != []
    && var page := Page(visits[0].now, visits[0].table, q);
       page.Err? || (page.value.next.Some? && Refused(visits[1..], q.(cursor := page.value.next)))
  }

  /** Runs are never deleted nor redated, may change state, and every run added is created at the anchor or later. */
  predicate Grows(a: Table, b: Table, anchor: int) {
    && (forall id :: id in a ==> id in b && b[id].createdAt == a[id].createdAt)
    && (forall id :: id in b && id !in a ==> b[id].createdAt >= anchor)
  }

  ghost predicate Growing(visits: seq<Visit>, anchor: int) {
    && (forall i :: 0 <= i < |visits| ==> visits[i].now >= anchor)
    && (forall i, j :: 0 <= i <= j < |visits| ==> Grows(visits[i].table, visits[j].table, anchor))
  }

  /** A request that continues a listing of period b. */
  predicate Continues(q: Query, b: Bounds) {
    && 1 <= q.limit <= MAX_LIMIT && b.lower < Upper(b) && q.cursor.Some?
    && var c := q.cursor.value;
       && c.limit == q.limit && c.state == q.state && c.since == b.lower && c.until == b.until && c.anchor == b.anchor
       && (q.since.Some? ==> q.since.value == b.lower) && (q.until.Some? ==> q.until.value == b.until)
  }

  lemma {:induction false} GrowthKeepsRuns(a: Table, b: Table, bounds: Bounds)
    requires Grows(a, b, bounds.anchor)
    ensures Runs(a, bounds) == Runs(b, bounds)
  {
    forall k ensures k in Runs(a, bounds) <==> k in Runs(b, bounds) {
      if k.runId in a { assert KeyOf(b, k.runId) == KeyOf(a, k.runId); }
    }
  }

  /** The first n of a listing, and how the rest lies below their last. */
  lemma {:induction false} PrefixOfListing(all: seq<Key>, keys: set<Key>, n: nat)
    requires Lists(all, keys) && n >= 1
    ensures Descends(Take(all, n))
    ensures forall k :: k in Take(all, n) ==> k in keys
    ensures |all| <= n ==> forall k :: k in keys ==> k in Take(all, n)
    ensures |all| > n ==>
              && |Take(all, n)| == n
              && (forall k :: k in Take(all, n) ==> k == all[n - 1] || Below(all[n - 1], k))
              && all[n] in keys && all[n] !in Take(all, n)
              && (forall k :: k in keys ==> k in Take(all, n) || Below(k, all[n - 1]))
  {
    var items := Take(all, n);
    assert forall k :: k in items ==> k in all;
    if |all| > n {
      forall k | k in keys ensures k in items || Below(k, all[n - 1]) {
        assert k in all;
        var i :| 0 <= i < |all| && all[i] == k;
        if i < n { assert items[i] == k; }
      }
      assert all[n] in all;
      forall i | 0 <= i < n ensures items[i] != all[n] {
        assert Below(all[n], all[i]);
        BelowIsStrictTotal(all[n], all[i]);
        BelowIsStrictTotal(all[n], all[n]);
      }
    }
  }

  /** What one page shows and where it leaves the client. */
  lemma {:induction false} PageIsExact(now: int, t: Table, q: Query, b: Bounds)
    requires Period(now, q) == Ok(b)
    ensures Page(now, t, q).Ok?
    ensures
      var page := Page(now, t, q).value;
      var keys := Matching(t, q, b);
      && Descends(page.items)
      && (forall k :: k in page.items ==> k in keys)
      && (page.next.None? ==> forall k :: k in keys ==> k in page.items)
      && (page.next.Some? ==>
            && |page.items| == q.limit
            && page.items != []
            && page.next == Some(Cursor(q.limit, q.state, b.lower, b.until, b.anchor, page.items[q.limit - 1]))
            && (forall k :: k in page.items ==> k == page.next.value.last || Below(page.next.value.last, k))
            && (exists k :: k in keys && k !in page.items)
            && (forall k :: k in keys ==> k in page.items || Below(k, page.next.value.last)))
  {
    hide Matching, Below, Descending;
    var keys := Matching(t, q, b);
    var all := Descending(keys);
    DescendingLists(keys);
    var page := Page(now, t, q).value;
    assert page.items == Take(all, q.limit);
    PrefixOfListing(all, keys, q.limit);
  }

  lemma {:induction false} NextVisit(visits: seq<Visit>, q: Query, b: Bounds)
    requires visits != [] && Growing(visits, b.anchor) && Period(visits[0].now, q) == Ok(b)
    requires Page(visits[0].now, visits[0].table, q).value.next.Some?
    ensures
      var q' := q.(cursor := Page(visits[0].now, visits[0].table, q).value.next);
      && Growing(visits[1..], b.anchor)
      && (|visits| > 1 ==>
            Period(visits[1].now, q') == Ok(b) && Runs(visits[1].table, b) == Runs(visits[0].table, b))
  {
    hide Page, Runs;
    PageIsExact(visits[0].now, visits[0].table, q, b);
    if |visits| > 1 { GrowthKeepsRuns(visits[0].table, visits[1].table, b); }
  }

  /** A page followed by a listing of runs below its last is strictly descending. */
  lemma {:induction false} PagesChain(items: seq<Key>, rest: seq<Key>, last: Key)
    requires Descends(items)
    requires Descends(rest)
    requires forall k :: k in items ==> k == last || Below(last, k)
    requires forall k :: k in rest ==> Below(k, last)
    ensures
      var s := items + rest;
      Descends(s)
  {
    var s := items + rest;
    forall i, j | 0 <= i < j < |s| ensures Below(s[j], s[i]) {
      if i < |items| <= j {
        assert s[i] in items && s[j] in rest;
        if s[i] != last { BelowIsTransitive(s[j], last, s[i]); }
      }
    }
  }

  lemma {:induction false} CursorsDescend(q: Query, next: Cursor, k: Key)
    requires AfterCursor(q, next.last) && AfterCursor(q.(cursor := Some(next)), k)
    ensures AfterCursor(q, k)
  {
    if q.cursor.Some? { BelowIsTransitive(k, next.last, q.cursor.value.last); }
  }

  ghost predicate SeenInState(visits: seq<Visit>, state: Option<RunState>, k: Key) {
    exists i :: 0 <= i < |visits| && InState(visits[i].table, state, k)
  }

  ghost predicate AlwaysInState(visits: seq<Visit>, state: Option<RunState>, k: Key) {
    forall i :: 0 <= i < |visits| ==> InState(visits[i].table, state, k)
  }

  /** However states change in between: the listing is strictly descending, every run shown was in the
      period and in the wanted state when shown, and a finished listing has missed no run that was in
      the wanted state throughout. */
  lemma {:induction false} FollowIsExact(visits: seq<Visit>, q: Query, b: Bounds)
    requires visits != [] && Growing(visits, b.anchor) && Period(visits[0].now, q) == Ok(b)
    ensures
      var shown := Follow(visits, q);
      && Descends(shown)
      && (forall k :: k in shown ==>
            k in Runs(visits[0].table, b) && AfterCursor(q, k) && SeenInState(visits, q.state, k))
      && (Finished(visits, q) ==>
            forall k :: k in Runs(visits[0].table, b) && AfterCursor(q, k) && AlwaysInState(visits, q.state, k)
                ==> k in shown)
    decreases |visits|
  {
    hide Page, Runs, Below, Period, Growing, InState;
    PageIsExact(visits[0].now, visits[0].table, q, b);
    var page := Page(visits[0].now, visits[0].table, q).value;
    forall k | k in Runs(visits[0].table, b) && AfterCursor(q, k) && AlwaysInState(visits, q.state, k)
      ensures k in Matching(visits[0].table, q, b)
    {
      assert InState(visits[0].table, q.state, k);
    }
    if page.next.Some? && |visits| > 1 {
      var q', last := q.(cursor := page.next), page.next.value.last;
      var rest := Follow(visits[1..], q');
      NextVisit(visits, q, b);
      FollowIsExact(visits[1..], q', b);
      assert forall k :: AfterCursor(q', k) <==> Below(k, last);
      PagesChain(page.items, rest, last);
      forall k | AfterCursor(q', k) ensures AfterCursor(q, k) { CursorsDescend(q, page.next.value, k); }
      forall k | k in rest ensures SeenInState(visits, q.state, k) {
        var i :| 0 <= i < |visits[1..]| && InState(visits[1..][i].table, q.state, k);
        assert InState(visits[i + 1].table, q.state, k);
      }
      forall k | k in Runs(visits[0].table, b) && AfterCursor(q, k) && AlwaysInState(visits, q.state, k)
          && Finished(visits, q)
        ensures k in page.items + rest
      {
        assert k in Matching(visits[0].table, q, b);
        if k !in page.items {
          forall i | 0 <= i < |visits[1..]| ensures InState(visits[1..][i].table, q.state, k) {
            assert InState(visits[i + 1].table, q.state, k);
          }
          assert AlwaysInState(visits[1..], q.state, k);
        }
      }
    } else if page.next.Some? {
      assert !Finished(visits[1..], q.(cursor := page.next));
    }
  }

  /** A client that keeps following is never refused, and every page but the last is full and leaves a
      run unshown that was in the wanted state. */
  lemma {:induction false} FollowEnds(visits: seq<Visit>, q: Query, b: Bounds)
    requires visits != [] && Growing(visits, b.anchor) && Period(visits[0].now, q) == Ok(b)
    ensures !Refused(visits, q)
    ensures !Finished(visits, q) ==>
              && |Follow(visits, q)| == |visits| * q.limit
              && exists k :: k in Runs(visits[0].table, b) && AfterCursor(q, k) && k !in Follow(visits, q)
    decreases |visits|
  {
    hide Page, Runs, Below, Period, Growing, InState;
    PageIsExact(visits[0].now, visits[0].table, q, b);
    var page := Page(visits[0].now, visits[0].table, q).value;
    if page.next.Some? && |visits| > 1 {
      var q', last := q.(cursor := page.next), page.next.value.last;
      NextVisit(visits, q, b);
      FollowEnds(visits[1..], q', b);
      assert |visits| * q.limit == |visits[1..]| * q.limit + q.limit;
      if !Finished(visits, q) {
        var k :| k in Runs(visits[0].table, b) && AfterCursor(q', k) && k !in Follow(visits[1..], q');
        CursorsDescend(q, page.next.value, k);
        BelowIsStrictTotal(k, k);
        forall j | j in page.items ensures j != k { BelowIsStrictTotal(k, last); }
      }
    }
  }

  lemma {:induction false} NoRepeats(s: seq<Key>, keys: set<Key>)
    requires Descends(s)
    requires forall k :: k in s ==> k in keys
    ensures |s| <= |keys|
  {
    if s != [] {
      var last := s[|s| - 1];
      var front := s[..|s| - 1];
      forall k | k in front ensures k in keys - {last} { BelowIsStrictTotal(last, last); }
      NoRepeats(front, keys - {last});
      assert last in s;
    }
  }

  /** Without a state filter a finished listing is exactly the runs that the first request's period held,
      newest first, each once, whatever was inserted while the client was paging; and with enough visits
      the listing is finished. */
  lemma {:induction false} ListingIsExact(visits: seq<Visit>, q: Query, b: Bounds)
    requires visits != [] && q.cursor.None? && q.state.None?
    requires Period(visits[0].now, q) == Ok(b) && Growing(visits, b.anchor)
    ensures Finished(visits, q) ==> Follow(visits, q) == Descending(Runs(visits[0].table, b))
    ensures |visits| * q.limit >= |Runs(visits[0].table, b)| ==> Finished(visits, q)
    ensures !Refused(visits, q)
  {
    hide Page, Runs, Below, Growing;
    var keys := Runs(visits[0].table, b);
    FollowIsExact(visits, q, b);
    var shown := Follow(visits, q);
    FollowEnds(visits, q, b);
    DescendingLists(keys);
    if !Finished(visits, q) {
      var k :| k in keys && k !in Follow(visits, q);
      NoRepeats(Follow(visits, q), keys - {k});
    }
    if Finished(visits, q) {
      forall k | k in keys ensures k in Follow(visits, q) {
        assert AfterCursor(q, k) && AlwaysInState(visits, q.state, k);
      }
      ListingIsUnique(shown, Descending(keys), keys);
    }
  }

  /** A run inserted while a client pages is created at the anchor or later, so no page shows it. */
  lemma {:induction false} InsertedRunsAreNotShown(visits: seq<Visit>, q: Query, b: Bounds, i: nat, id: string)
    requires i < |visits| && Growing(visits, b.anchor) && Period(visits[0].now, q) == Ok(b)
    requires id in visits[i].table && id !in visits[0].table
    ensures forall k :: k in Follow(visits, q) ==> k.runId != id
  {
    FollowIsExact(visits, q, b);
  }

  // ---------- requests without a cursor, and with one ----------

  /** The runs created from lower on and before upper. */
  function CreatedBetween(t: Table, lower: int, upper: int): set<Key> {
    set id | id in t && lower <= t[id].createdAt < upper :: Key(t[id].createdAt, id)
  }

  /** Up to where and from where a fresh request reads: no later than now; thirty days back if it does not say. */
  function FreshUpper(now: int, q: Query): int {
    if q.until.Some? && q.until.value < now then q.until.value else now
  }

  function FreshLower(now: int, q: Query): int {
    if q.since.Some? then q.since.value else FreshUpper(now, q) - 30 * 24 * 60 * 60 * 1_000_000
  }

  /** A fresh request is answered exactly if its limit is from 1 to 100 and its period is not empty. */
  lemma {:induction false} FreshRequestsAnswered(now: int, t: Table, q: Query)
    requires q.cursor == None
    ensures Page(now, t, q).Ok? <==> 1 <= q.limit <= 100 && FreshLower(now, q) < FreshUpper(now, q)
    ensures Page(now, t, q).Err? ==>
      Page(now, t, q).error == if 1 <= q.limit <= 100 then InvalidPeriod else InvalidLimit
  {
  }

  /** What a client then sees over all its pages: exactly the runs of that period that the first visit found,
      newest first, each once, whatever was inserted since. */
  lemma {:induction false} FreshListingIsExact(visits: seq<Visit>, q: Query)
    requires visits != [] && q.cursor == None && q.state == None && 1 <= q.limit <= 100
    requires FreshLower(visits[0].now, q) < FreshUpper(visits[0].now, q) && Growing(visits, visits[0].now)
    ensures
      var keys := CreatedBetween(visits[0].table, FreshLower(visits[0].now, q), FreshUpper(visits[0].now, q));
      && !Refused(visits, q)
      && (Finished(visits, q) ==> Lists(Follow(visits, q), keys))
      && (|visits| * q.limit >= |keys| ==> Finished(visits, q))
  {
    hide Page, Growing, Finished, Refused, Follow, Lists;
    var now, t := visits[0].now, visits[0].table;
    var b := Bounds(FreshLower(now, q), LastMoment(now, q), now);
    assert Period(now, q) == Ok(b);
    assert Runs(t, b) == CreatedBetween(t, FreshLower(now, q), FreshUpper(now, q));
    ListingIsExact(visits, q, b);
    DescendingLists(Runs(t, b));
  }

  function LastMoment(now: int, q: Query): int {
    if q.until.Some? then q.until.value else now
  }

  /** A cursor is honoured exactly with the filters it was issued for, at or after its anchor, and if its period
      is not empty. */
  lemma {:induction false} CursorsAnswered(now: int, t: Table, q: Query)
    requires q.cursor.Some?
    ensures
      var c := q.cursor.value;
      var sameFilters := c.limit == q.limit && c.state == q.state
        && (q.since.Some? ==> q.since.value == c.since) && (q.until.Some? ==> q.until.value == c.until);
      && (Page(now, t, q).Ok? <==>
            1 <= q.limit <= 100 && sameFilters && c.since < c.until && c.since < c.anchor <= now)
      && (1 <= q.limit <= 100 && !sameFilters ==> Page(now, t, q) == Err(FilterMismatch))
      && (1 <= q.limit <= 100 && sameFilters && c.since < c.until && c.anchor > now ==>
            Page(now, t, q) == Err(InvalidCursor))
  {
  }
}
