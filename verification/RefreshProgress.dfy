/** When a run can go on: a claim hands out work, or finalization succeeds. */
module RefreshProgress {
  import opened Wrappers
  import opened Scheduler
  import opened RetryPolicy
  import opened RefreshModel
  import opened RefreshInvariants
  import opened RefreshOrder

  /** A claim without an expected key hands out an item. */
  predicate ClaimHandsOut(db: Db, c: ClaimRequest) {
    ClaimNext(db, c).result.Ok? && ClaimNext(db, c).result.value.Some?
  }

  /** The claim hands out nothing, but the state it leaves can be finalized at the same instant. */
  predicate ThenFinalizes(db: Db, c: ClaimRequest, f: Finalization)
    requires !f.state.Running?
  {
    Finalize(ClaimNext(db, c).db, f).result == Ok(true)
  }

  /** A worker's claim, and the verdict it would record on the rows that claim leaves. */
  ghost predicate Attempted(db: Db, c: ClaimRequest, f: Finalization) {
    && DbOk(db)
    && RunningWithLease(db, c.run, c.now)
    && c.expires > c.now
    && c.expected.None?
    && !HasActiveClaim(db.runs[c.run].items, c.now)
    && f.run == c.run && f.finishedAt == c.now && !f.state.Running?
    && (f.state.RunSucceeded? ==> AllSucceeded(Exhausted(db.runs[c.run].items, c.now)))
  }

  lemma {:induction false} ExhaustionEndsNoLiveClaim(items: seq<Item>, now: Time)
    requires !HasActiveClaim(items, now)
    ensures !HasActiveClaim(Exhausted(items, now), now)
  {
    forall i | 0 <= i < |items| ensures !ActiveClaim(Exhausted(items, now)[i], now) {
      assert !ActiveClaim(items[i], now);
    }
  }

  /** Old manifests never stall: with a live lease and no active claim, exactly one of claim and finalize succeeds. */
  lemma {:induction false} LegacyProgress(db: Db, c: ClaimRequest, f: Finalization)
    requires Attempted(db, c, f) && !IsV6(db.runs[c.run])
    ensures ClaimHandsOut(db, c) <==> !ThenFinalizes(db, c, f)
  {
    var run := db.runs[c.run];
    var rows := Exhausted(run.items, c.now);
    ExhaustionEndsNoLiveClaim(run.items, c.now);
    var after := ClaimNext(db, c).db;
    var pick := Pick(run, db.breakers, c);
    if pick.None? {
      assert after.runs[c.run].items == rows;
      forall i | 0 <= i < |rows| ensures ResolvedLegacy(rows[i]) {
        UnselectedIsResolved(run.items, c.now, db.nextToken, db.marked, i);
        assert !((k: nat) => k < |rows| && LegacyEligible(rows[k], c.now))(i);
      }
    } else {
      assert after.runs[c.run].items[pick.value].status.Claimed?;
      assert !Settled(false, after.runs[c.run].items[pick.value]);
    }
  }

  // ---------- version 6 ----------

  /** Every retry time has passed and every provider admits its work. */
  predicate Calm(items: seq<Item>, breakers: map<Provider, Breaker>, now: Time) {
    forall i :: 0 <= i < |items| ==> !Future(items[i].nextAttempt, now) && Eligible(items[i].task, breakers, now)
  }

  predicate AtCap(it: Item) {
    it.status.Pending? && it.acquisitions >= MAX_ATTEMPTS
  }

  function FirstUnresolved(rows: seq<Item>): Option<nat> {
    FirstFrom(|rows|, (i: nat) => i < |rows| && !ResolvedV6(rows[i]), 0)
  }

  /** The first open item has used its acquisitions, yet some item still keeps the run from finalizing. */
  predicate Stuck(rows: seq<Item>) {
    && FirstUnresolved(rows).Some?
    && AtCap(rows[FirstUnresolved(rows).value])
    && exists i :: 0 <= i < |rows| && !Settled(true, rows[i])
  }

  lemma {:induction false} UnresolvedBelowCap(items: seq<Item>, now: Time, next: Token, marked: set<Token>, i: nat)
    requires RowsOk(items, true, next, marked) && i < |items| && !HasActiveClaim(items, now)
    requires !ResolvedV6(Exhausted(items, now)[i]) && !AtCap(Exhausted(items, now)[i])
    ensures Exhausted(items, now)[i].acquisitions < MAX_ATTEMPTS
  {
    assert ItemOk(items[i], true, next, marked) && !ActiveClaim(items[i], now);
  }


  /** In calm weather the scan hands out the first open item, unless that item is at the acquisition cap:
      then it hands out nothing, for any expected key, because the capped item is skipped yet still blocks. */
  lemma {:induction false} CalmPick(run: Run, breakers: map<Provider, Breaker>, c: ClaimRequest, next: Token,
                                    marked: set<Token>)
    requires RunOk(run, next, marked) && run.state.Running? && IsV6(run) && !HasActiveClaim(run.items, c.now)
    requires Calm(run.items, breakers, c.now)
    ensures
      var rows := Exhausted(run.items, c.now);
      var first := FirstUnresolved(rows);
      && (first.Some? && !AtCap(rows[first.value]) && c.expected.None? ==> Pick(run, breakers, c) == first)
      && (first.None? || AtCap(rows[first.value]) ==> Pick(run, breakers, c).None?)
      && (Pick(run, breakers, c).None? ==> ClaimedRows(run, breakers, c, next) == rows)
  {
    hide Ready, FirstBlocker, Eligible, ClaimedRows;
    var rows := Exhausted(run.items, c.now);
    var first := FirstUnresolved(rows);
    ExhaustionEndsNoLiveClaim(run.items, c.now);
    assert forall i :: 0 <= i < |rows| ==>
      rows[i].task == run.items[i].task && rows[i].nextAttempt == run.items[i].nextAttempt;
    forall k | 0 <= k < |rows| && (first.None? || k < first.value) ensures !Ready(rows, k, breakers, c) {
      assert !((i: nat) => i < |rows| && !ResolvedV6(rows[i]))(k);
      ReadyMeansInOrder(rows, k, breakers, c);
    }
    if first.Some? {
      var u := first.value;
      ReadyMeansInOrder(rows, u, breakers, c);
      forall e | 0 <= e < u ensures ResolvedV6(rows[e]) { assert !((i: nat) => i < |rows| && !ResolvedV6(rows[i]))(e); }
      if AtCap(rows[u]) {
        forall k | u <= k < |rows| ensures !Ready(rows, k, breakers, c) { ReadyMeansInOrder(rows, k, breakers, c); }
      } else {
        UnresolvedBelowCap(run.items, c.now, next, marked, u);
        assert !ActiveClaim(rows[u], c.now);
        if c.expected.None? { FirstReadyIs(rows, breakers, c, u); }
      }
    }
    CalmRowsStay(run, breakers, c, next);
  }

  lemma {:induction false} CalmRowsStay(run: Run, breakers: map<Provider, Breaker>, c: ClaimRequest, next: Token)
    requires IsV6(run) && !HasActiveClaim(run.items, c.now) && Calm(run.items, breakers, c.now)
    ensures Pick(run, breakers, c).None? ==> ClaimedRows(run, breakers, c, next) == Exhausted(run.items, c.now)
  {
    var rows := Exhausted(run.items, c.now);
    ExhaustionEndsNoLiveClaim(run.items, c.now);
    if Pick(run, breakers, c).None? {
      forall k | 0 <= k < |rows| ensures PassOver(rows, k, breakers, c) == rows[k] {
        PassOverShape(rows, k, breakers, c);
      }
      assert V6Rows(rows, breakers, c, next) == rows;
    }
  }

  /** Version 6 progress, exactly: in calm weather a claim hands out an item or finalize succeeds if and
      only if the run is not stuck behind an item at the acquisition cap. */
  lemma {:induction false} V6Progress(db: Db, c: ClaimRequest, f: Finalization)
    requires Attempted(db, c, f) && IsV6(db.runs[c.run]) && Calm(db.runs[c.run].items, db.breakers, c.now)
    ensures ClaimHandsOut(db, c) || ThenFinalizes(db, c, f) <==> !Stuck(Exhausted(db.runs[c.run].items, c.now))
  {
    var run := db.runs[c.run];
    var rows := Exhausted(run.items, c.now);
    CalmPick(run, db.breakers, c, db.nextToken, db.marked);
    var first := FirstUnresolved(rows);
    if first.None? {
      forall i | 0 <= i < |rows| ensures ResolvedV6(rows[i]) {
        assert !((k: nat) => k < |rows| && !ResolvedV6(rows[k]))(i);
      }
    }
    if Pick(run, db.breakers, c).None? {
      assert ClaimNext(db, c).db.runs[c.run].items == rows;
    }
  }
}
