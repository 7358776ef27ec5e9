/** A worker computes its verdict from a snapshot and records it later: which snapshots are safe. */
module RefreshStale {
  import opened Wrappers
  import opened Scheduler
  import opened RefreshModel
  import opened RefreshInvariants
  import opened RefreshSafety
  import opened RefreshProgress
  import opened RefreshVerdict
  import opened RefreshDrive

  // ---------- the condition ----------

  predicate BadForGood(v6: bool, it: Item) {
    it.status.Skipped? || (it.status.Failed? && Resolved(v6, it))
  }

  /** Every item is resolved; or one is partial; or one succeeded beside one that is bad for good; or, in a
      version 6 run, a pending item has used its acquisitions and so stays pending to the end. */
  predicate FixedBy(v6: bool, items: seq<Item>, rows: seq<Item>) {
    || (forall i :: 0 <= i < |items| ==> Resolved(v6, items[i]))
    || (exists i :: 0 <= i < |items| && items[i].status.Partial?)
    || ((exists i :: 0 <= i < |items| && items[i].status.Succeeded?)
        && (exists i :: 0 <= i < |rows| && BadForGood(v6, rows[i])))
    || (v6 && exists i :: 0 <= i < |items| && AtCap(items[i]))
  }

  predicate VerdictIsFixed(v6: bool, items: seq<Item>) {
    FixedBy(v6, items, items)
  }

  /** The same at a time: an expired claim on its last attempt can only become a failure. */
  predicate VerdictIsFixedAt(v6: bool, items: seq<Item>, clock: Time) {
    FixedBy(v6, items, Exhausted(items, clock))
  }

  /** The rows are the items, but for claims that turned into failures. */
  ghost predicate Fewer(items: seq<Item>, rows: seq<Item>) {
    |items| == |rows|
    && forall i :: 0 <= i < |items| ==> rows[i] == items[i] || (items[i].status.Claimed? && rows[i].status.Failed?)
  }

  lemma {:induction false} MixedIsPartial(items: seq<Item>, i: nat, j: nat)
    requires i < |items| && j < |items| && !items[i].status.Succeeded?
    requires items[j].status != Failed && items[j].status != Skipped
    ensures FinalState(items) == RunPartial
  {
  }

  lemma {:induction false} FixedVerdictStays(v6: bool, items: seq<Item>, rows: seq<Item>, last: seq<Item>)
    requires Fewer(items, rows) && FixedBy(v6, items, rows) && |last| == |items|
    requires forall i :: 0 <= i < |rows| && (Resolved(v6, rows[i]) || (v6 && AtCap(rows[i]))) ==> last[i] == rows[i]
    ensures FinalState(last) == FinalState(items)
  {
    hide FinalState;
    if forall i :: 0 <= i < |items| ==> Resolved(v6, items[i]) {
      assert last == items;
    } else if i :| 0 <= i < |items| && items[i].status.Partial? {
      MixedIsPartial(items, i, i);
      MixedIsPartial(last, i, i);
    } else if i :| v6 && 0 <= i < |items| && AtCap(items[i]) {
      MixedIsPartial(items, i, i);
      MixedIsPartial(last, i, i);
    } else {
      var good :| 0 <= good < |items| && items[good].status.Succeeded?;
      var bad :| 0 <= bad < |rows| && BadForGood(v6, rows[bad]);
      MixedIsPartial(items, bad, good);
      MixedIsPartial(last, bad, good);
    }
  }

  /** The outcome that turns an open verdict into another one. */
  function OtherWay(items: seq<Item>): Status {
    var good := exists i :: 0 <= i < |items| && items[i].status.Succeeded?;
    if FinalState(items).RunFailed? || good then Succeeded else Skipped
  }

  lemma {:induction false} OpenVerdictTurns(v6: bool, items: seq<Item>, rows: seq<Item>, last: seq<Item>)
    requires Fewer(items, rows) && !FixedBy(v6, items, rows) && Ended(v6, rows, last, OtherWay(items))
    ensures FinalState(last) != FinalState(items)
  {
    var u :| 0 <= u < |items| && !Resolved(v6, items[u]);
    forall i | 0 <= i < |items|
      ensures last[i].status == OtherWay(items) || last[i].status.Succeeded? || BadForGood(v6, rows[i])
      ensures BadForGood(v6, rows[i]) ==> last[i] == rows[i]
    {
    }
    if FinalState(items).RunFailed? {
      assert rows[u] == items[u];
      assert last[u].status.Succeeded?;
    } else if exists i :: 0 <= i < |items| && items[i].status.Succeeded? {
      assert forall i :: 0 <= i < |items| ==> last[i].status.Succeeded?;
    } else {
      assert forall i :: 0 <= i < |items| ==> !last[i].status.Succeeded?;
    }
  }

  // ---------- rows whose end is settled ----------

  lemma {:induction false} StillRunning(db: Db, e: Event, rest: seq<Event>, r: RunId)
    requires DbOk(db) && WellTyped(e) && AllWellTyped(rest) && r in db.runs
    requires IsRunning(Exec(Apply(db, e), rest), r)
    ensures DbOk(Apply(db, e)) && IsRunning(Apply(db, e), r)
    ensures IsV6(Apply(db, e).runs[r]) == IsV6(db.runs[r]) && |Apply(db, e).runs[r].items| == |db.runs[r].items|
  {
    hide Apply, Exec, DbOk;
    StepKeepsOk(db, e);
    StepEvolves(db, e, r);
    if !IsRunning(Apply(db, e), r) { FinishedRunIsFrozen(Apply(db, e), rest, r); }
  }

  /** A pending item at the cap: no transaction of a run that stays RUNNING touches it. */
  lemma {:induction false} StepKeepsCapped(db: Db, e: Event, r: RunId, i: nat)
    requires DbOk(db) && WellTyped(e) && IsRunning(db, r) && IsV6(db.runs[r]) && IsRunning(Apply(db, e), r)
    requires i < |db.runs[r].items| == |Apply(db, e).runs[r].items| && AtCap(db.runs[r].items[i])
    ensures Apply(db, e).runs[r].items[i] == db.runs[r].items[i]
  {
    if e.Start? {
      StartShape(db, e.start, r);
    } else if IsRowStep(e) {
      RowStepShape(db, e, r);
      assert Apply(db, e).runs[r].items[i] in [db.runs[r].items[i], RowStep(e, db.runs[r].items[i])];
    } else if e.Claim? {
      ClaimKeepsCapped(db.runs[r], db.breakers, e.claim, db.nextToken, i);
    }
  }

  lemma {:induction false} ClaimKeepsCapped(run: Run, breakers: map<Provider, Breaker>, c: ClaimRequest, next: Token,
                                            i: nat)
    requires IsV6(run) && i < |run.items| && AtCap(run.items[i])
    ensures ClaimedRows(run, breakers, c, next)[i] == run.items[i]
  {
    hide Eligible, FirstBlocker;
    var rows := Exhausted(run.items, c.now);
    assert rows[i] == run.items[i] && !Considered(rows[i], c);
  }

  lemma {:induction false} CappedStays(db: Db, events: seq<Event>, r: RunId, i: nat)
    requires DbOk(db) && AllWellTyped(events) && IsRunning(db, r) && IsV6(db.runs[r]) && IsRunning(Exec(db, events), r)
    requires i < |db.runs[r].items| && AtCap(db.runs[r].items[i])
    ensures i < |Exec(db, events).runs[r].items| && Exec(db, events).runs[r].items[i] == db.runs[r].items[i]
    decreases |events|
  {
    hide Apply, DbOk;
    if events != [] {
      StillRunning(db, events[0], events[1..], r);
      StepKeepsCapped(db, events[0], r, i);
      CappedStays(Apply(db, events[0]), events[1..], r, i);
    }
  }

  /** An expired claim on its last attempt that resolves when it is exhausted. */
  predicate Doomed(v6: bool, it: Item, clock: Time) {
    it.status.Claimed? && Resolved(v6, ExhaustItem(it, clock))
  }

  lemma {:induction false} StepKeepsDoomed(db: Db, e: Event, r: RunId, i: nat, clock: Time)
    requires DbOk(db) && WellTyped(e) && IsRunning(db, r) && IsRunning(Apply(db, e), r) && clock <= Tick(e, clock)
    requires i < |db.runs[r].items| == |Apply(db, e).runs[r].items|
        && Doomed(IsV6(db.runs[r]), db.runs[r].items[i], clock)
    ensures Apply(db, e).runs[r].items[i] in [db.runs[r].items[i], ExhaustItem(db.runs[r].items[i], clock)]
  {
    if e.Start? {
      StartShape(db, e.start, r);
    } else if IsRowStep(e) {
      RowStepShape(db, e, r);
      assert Apply(db, e).runs[r].items[i] in [db.runs[r].items[i], RowStep(e, db.runs[r].items[i])];
    } else if e.Claim? {
      ClaimExhausts(db.runs[r], db.breakers, e.claim, db.nextToken, i, clock);
    }
  }

  lemma {:induction false} ClaimExhausts(run: Run, breakers: map<Provider, Breaker>, c: ClaimRequest, next: Token,
                                         i: nat, clock: Time)
    requires i < |run.items| && Doomed(IsV6(run), run.items[i], clock) && clock <= c.now
    ensures ClaimedRows(run, breakers, c, next)[i] == ExhaustItem(run.items[i], clock)
  {
    hide Eligible, FirstBlocker;
    var rows := Exhausted(run.items, c.now);
    assert rows[i] == ExhaustItem(run.items[i], clock);
    if IsV6(run) { assert !Considered(rows[i], c); } else { assert !LegacyEligible(rows[i], c.now); }
  }

  lemma {:induction false} DoomedFails(db: Db, events: seq<Event>, r: RunId, i: nat, clock: Time)
    requires DbOk(db) && AllWellTyped(events) && InOrder(events, clock)
    requires IsRunning(db, r) && IsRunning(Exec(db, events), r)
    requires i < |db.runs[r].items| && Doomed(IsV6(db.runs[r]), db.runs[r].items[i], clock)
    ensures i < |Exec(db, events).runs[r].items|
    ensures Exec(db, events).runs[r].items[i] in [db.runs[r].items[i], ExhaustItem(db.runs[r].items[i], clock)]
    decreases |events|
  {
    hide Apply, DbOk;
    if events != [] {
      var db1, now := Apply(db, events[0]), Tick(events[0], clock);
      StillRunning(db, events[0], events[1..], r);
      StepKeepsDoomed(db, events[0], r, i, clock);
      if db1.runs[r].items[i] == db.runs[r].items[i] {
        assert ExhaustItem(db.runs[r].items[i], now) == ExhaustItem(db.runs[r].items[i], clock);
        DoomedFails(db1, events[1..], r, i, now);
      } else {
        ResolvedRowsAreFrozen(db1, events[1..], r);
      }
    }
  }

  // ---------- safe snapshots ----------

  /** After the events, a finalization with the verdict of this snapshot succeeds. */
  ghost predicate RecordsSnapshot(db: Db, r: RunId, events: seq<Event>, f: Finalization)
    requires r in db.runs
  {
    && AllWellTyped(events) && f.run == r && f.state == FinalState(db.runs[r].items)
    && Finalize(Exec(db, events), f).result == Ok(true)
  }

  /** The recorded state is the verdict of the items recorded with it. */
  predicate RecordsVerdict(db: Db, f: Finalization)
    requires !f.state.Running? && f.run in Finalize(db, f).db.runs
  {
    var run := Finalize(db, f).db.runs[f.run];
    run.state == FinalState(run.items)
  }

  lemma {:induction false} WasRunning(db: Db, r: RunId, events: seq<Event>, f: Finalization)
    requires DbOk(db) && r in db.runs && RecordsSnapshot(db, r, events, f)
    ensures IsRunning(db, r) && IsRunning(Exec(db, events), r) && AllSettled(Exec(db, events).runs[r])
    ensures Evolves(db.runs[r], Exec(db, events).runs[r])
    ensures RecordsVerdict(Exec(db, events), f)
       <==> FinalState(Exec(db, events).runs[r].items) == FinalState(db.runs[r].items)
  {
    hide DbOk, Exec;
    ResolvedRowsAreFrozen(db, events, r);
    if !IsRunning(db, r) { FinishedRunIsFrozen(db, events, r); }
  }

  /** A worker reads a snapshot, other transactions interleave, then it finalizes with the snapshot's verdict:
      if that was fixed, the recorded state is the verdict of the recorded items, whatever the clocks. */
  lemma {:induction false} StaleVerdictIsExact(db: Db, between: seq<Event>, f: Finalization)
    requires DbOk(db) && f.run in db.runs && RecordsSnapshot(db, f.run, between, f)
    requires VerdictIsFixed(IsV6(db.runs[f.run]), db.runs[f.run].items)
    ensures f.run in Exec(db, between).runs && RecordsVerdict(Exec(db, between), f)
  {
    hide DbOk, Exec, FixedBy, Resolved;
    WasRunning(db, f.run, between, f);
    var run, last := db.runs[f.run], Exec(db, between).runs[f.run].items;
    forall i | 0 <= i < |run.items| && (Resolved(IsV6(run), run.items[i]) || (IsV6(run) && AtCap(run.items[i])))
      ensures last[i] == run.items[i]
    {
      if !Resolved(IsV6(run), run.items[i]) { CappedStays(db, between, f.run, i); }
    }
    FixedVerdictStays(IsV6(run), run.items, run.items, last);
  }

  lemma {:induction false} StaleVerdictIsExactInOrder(db: Db, clock: Time, between: seq<Event>, f: Finalization)
    requires DbOk(db) && f.run in db.runs && RecordsSnapshot(db, f.run, between, f) && InOrder(between, clock)
    requires VerdictIsFixedAt(IsV6(db.runs[f.run]), db.runs[f.run].items, clock)
    ensures f.run in Exec(db, between).runs && RecordsVerdict(Exec(db, between), f)
  {
    hide DbOk, Exec, FixedBy;
    WasRunning(db, f.run, between, f);
    var run, last := db.runs[f.run], Exec(db, between).runs[f.run].items;
    var v6, rows := IsV6(run), Exhausted(run.items, clock);
    forall i | 0 <= i < |rows| && (Resolved(v6, rows[i]) || (v6 && AtCap(rows[i]))) ensures last[i] == rows[i] {
      if Doomed(v6, run.items[i], clock) {
        DoomedFails(db, between, f.run, i, clock);
        assert Settled(v6, last[i]);
      } else if AtCap(rows[i]) && v6 {
        CappedStays(db, between, f.run, i);
      }
    }
    FixedVerdictStays(v6, run.items, rows, last);
  }

  /** The condition is exact: a snapshot of a RUNNING run is safe to finalize from, whatever transactions of
      whatever clocks come in between, if and only if its verdict is fixed. */
  lemma {:induction false} FixedExactly(db: Db, r: RunId)
    requires DbOk(db) && IsRunning(db, r)
    ensures VerdictIsFixed(IsV6(db.runs[r]), db.runs[r].items)
       <==> forall between: seq<Event>, f: Finalization {:induction false} :: RecordsSnapshot(db, r, between, f) ==>
              r in Exec(db, between).runs && RecordsVerdict(Exec(db, between), f)
  {
    hide DbOk, Exec, FixedBy, RecordsVerdict, Ended;
    var run := db.runs[r];
    if VerdictIsFixed(IsV6(run), run.items) {
      forall between: seq<Event>, f: Finalization | RecordsSnapshot(db, r, between, f)
        ensures r in Exec(db, between).runs && RecordsVerdict(Exec(db, between), f)
      {
        StaleVerdictIsExact(db, between, f);
      }
    } else {
      OpenMeansNoneAtCap(run, run.items);
      var events, db', now := EndsEitherWayInAnyOrder(db, r, OtherWay(run.items));
      ghost var f := SnapshotVerdict(db, r, run.items, events, now);
      OpenVerdictTurns(IsV6(run), run.items, run.items, db'.runs[r].items);
      WasRunning(db, r, events, f);
      assert RecordsSnapshot(db, r, events, f) && !RecordsVerdict(Exec(db, events), f);
    }
  }

  /** And if all transactions commit in clock order from the snapshot on, exactly if it is fixed at that time. */
  lemma {:induction false} FixedExactlyInOrder(db: Db, r: RunId, clock: Time)
    requires DbOk(db) && IsRunning(db, r)
    ensures VerdictIsFixedAt(IsV6(db.runs[r]), db.runs[r].items, clock)
       <==> forall between: seq<Event>, f: Finalization {:induction false} ::
              RecordsSnapshot(db, r, between, f) && InOrder(between + [Final(f)], clock) ==>
                r in Exec(db, between).runs && RecordsVerdict(Exec(db, between), f)
  {
    hide DbOk, Exec, FixedBy, RecordsVerdict, Ended;
    var run := db.runs[r];
    var rows := Exhausted(run.items, clock);
    if VerdictIsFixedAt(IsV6(run), run.items, clock) {
      forall between: seq<Event>, f: Finalization | RecordsSnapshot(db, r, between, f)
          && InOrder(between + [Final(f)], clock)
        ensures r in Exec(db, between).runs && RecordsVerdict(Exec(db, between), f)
      {
        PrefixInOrder(between, [Final(f)], clock);
        StaleVerdictIsExactInOrder(db, clock, between, f);
      }
    } else {
      OpenMeansNoneAtCap(run, rows);
      var events, db', now := EndsEitherWay(db, r, clock, OtherWay(run.items));
      ghost var f := SnapshotVerdict(db, r, rows, events, now);
      OrderSplit(events, [Final(f)], clock);
      OpenVerdictTurns(IsV6(run), run.items, rows, db'.runs[r].items);
      WasRunning(db, r, events, f);
      assert RecordsSnapshot(db, r, events, f) && !RecordsVerdict(Exec(db, events), f);
    }
  }

  lemma {:induction false} PrefixInOrder(xs: seq<Event>, ys: seq<Event>, clock: Time)
    requires InOrder(xs + ys, clock)
    ensures InOrder(xs, clock)
    decreases |xs|
  {
    if xs != [] {
      assert (xs + ys)[1..] == xs[1..] + ys;
      PrefixInOrder(xs[1..], ys, Tick(xs[0], clock));
    }
  }

  lemma {:induction false} OpenMeansNoneAtCap(run: Run, rows: seq<Item>)
    requires !FixedBy(IsV6(run), run.items, rows)
    ensures NoneAtCap(run)
  {
  }

  /** Once the run has ended, the finalization with the old snapshot's verdict goes through. */
  lemma {:induction false} SnapshotVerdict(db: Db, r: RunId, rows: seq<Item>, events: seq<Event>, now: Time)
    returns (f: Finalization)
    requires DbOk(db) && r in db.runs && AllWellTyped(events) && RunningWithLease(Exec(db, events), r, now)
    requires !FixedBy(IsV6(db.runs[r]), db.runs[r].items, rows)
    requires IsV6(Exec(db, events).runs[r]) == IsV6(db.runs[r])
    requires Ended(IsV6(db.runs[r]), rows, Exec(db, events).runs[r].items, OtherWay(db.runs[r].items))
    ensures f.finishedAt == now && RecordsSnapshot(db, r, events, f)
  {
    hide DbOk, Exec;
    f := Finalization(r, FinalState(db.runs[r].items), "", now, None);
    var v6, last := IsV6(db.runs[r]), Exec(db, events).runs[r].items;
    forall i | 0 <= i < |last| ensures Settled(v6, last[i]) {
      assert if Resolved(v6, rows[i]) then last[i] == rows[i] else last[i].status == OtherWay(db.runs[r].items);
    }
    assert !f.state.RunSucceeded?;
  }
}
