/** Safety of the refresh protocol over whole runs: exclusion, fencing, frozen rows, cutoffs, order. */
module RefreshSafety {
  import opened Wrappers
  import opened Scheduler
  import opened RefreshModel
  import opened RefreshInvariants

  // ---------- the clock ----------

  /** The time after a step: every transaction carries its own now. */
  function Tick(e: Event, clock: Time): Time {
    match e
    case Start(s) => s.now
    case Claim(c) => c.now
    case Mark(m) => m.now
    case Deferral(d) => d.now
    case Finish(c) => c.finishedAt
    case Cutoff(u) => u.now
    case Final(f) => f.finishedAt
    case BreakerChange(_, _) => clock
  }

  /** Transactions commit in the order of their nows. */
  predicate InOrder(events: seq<Event>, clock: Time)
    decreases |events|
  {
    events == [] || (clock <= Tick(events[0], clock) && InOrder(events[1..], Tick(events[0], clock)))
  }

  function FinalClock(events: seq<Event>, clock: Time): Time
    decreases |events|
  {
    if events == [] then clock else FinalClock(events[1..], Tick(events[0], clock))
  }

  lemma {:induction false} ExecSplit(db: Db, xs: seq<Event>, ys: seq<Event>)
    requires AllWellTyped(xs) && AllWellTyped(ys)
    ensures AllWellTyped(xs + ys) && Exec(db, xs + ys) == Exec(Exec(db, xs), ys)
    decreases |xs|
  {
    if xs == [] {
      assert xs + ys == ys;
    } else {
      ExecSplit(Apply(db, xs[0]), xs[1..], ys);
      assert (xs + ys)[1..] == xs[1..] + ys;
    }
  }

  lemma {:induction false} OrderSplit(xs: seq<Event>, ys: seq<Event>, clock: Time)
    requires InOrder(xs, clock) && InOrder(ys, FinalClock(xs, clock))
    ensures InOrder(xs + ys, clock) && FinalClock(xs + ys, clock) == FinalClock(ys, FinalClock(xs, clock))
    decreases |xs|
  {
    if xs == [] {
      assert xs + ys == ys;
    } else {
      OrderSplit(xs[1..], ys, Tick(xs[0], clock));
      assert (xs + ys)[1..] == xs[1..] + ys;
    }
  }

  // ---------- at most one unexpired claim ----------

  ghost predicate Exclusive(db: Db, now: Time) {
    forall r, i, j :: r in db.runs && 0 <= i < j < |db.runs[r].items| ==>
      !(ActiveClaim(db.runs[r].items[i], now) && ActiveClaim(db.runs[r].items[j], now))
  }

  /** Outside a hand-out, no step gives a row an unexpired claim it did not have. */
  lemma {:induction false} OnlyHandOutsActivate(db: Db, e: Event, r: RunId, i: nat, now: Time)
    requires WellTyped(e) && !e.Claim? && r in Apply(db, e).runs && i < |Apply(db, e).runs[r].items|
    requires ActiveClaim(Apply(db, e).runs[r].items[i], now)
    ensures r in db.runs && i < |db.runs[r].items| && ActiveClaim(db.runs[r].items[i], now)
  {
    hide CreateOrResume, MarkAcquisition, Defer, Complete, OrderedSpecs;
    if e.Start? { StartShape(db, e.start, r); }
    if IsRowStep(e) { RowStepShape(db, e, r); }
  }

  lemma {:induction false} StepKeepsExclusive(db: Db, e: Event, clock: Time)
    requires DbOk(db) && WellTyped(e) && Exclusive(db, clock) && clock <= Tick(e, clock)
    ensures Exclusive(Apply(db, e), Tick(e, clock))
  {
    var db', now := Apply(db, e), Tick(e, clock);
    forall r, i, j | r in db'.runs && 0 <= i < j < |db'.runs[r].items|
      ensures !(ActiveClaim(db'.runs[r].items[i], now) && ActiveClaim(db'.runs[r].items[j], now))
    {
      if ActiveClaim(db'.runs[r].items[i], now) && ActiveClaim(db'.runs[r].items[j], now) {
        if !e.Claim? {
          OnlyHandOutsActivate(db, e, r, i, now);
          OnlyHandOutsActivate(db, e, r, j, now);
        } else {
          ClaimIsExclusive(db, e.claim, r, i, j, clock);
        }
      }
    }
  }

  lemma {:induction false} ClaimIsExclusive(db: Db, c: ClaimRequest, r: RunId, i: nat, j: nat, clock: Time)
    requires DbOk(db) && Exclusive(db, clock) && clock <= c.now
    requires r in ClaimNext(db, c).db.runs && i < j < |ClaimNext(db, c).db.runs[r].items|
    ensures
      var rows := ClaimNext(db, c).db.runs[r].items;
      !(ActiveClaim(rows[i], c.now) && ActiveClaim(rows[j], c.now))
  {
    var after := ClaimNext(db, c).db.runs[r].items;
    var run := db.runs[r];
    assert !(ActiveClaim(run.items[i], clock) && ActiveClaim(run.items[j], clock));
    if r == c.run && c.expires > c.now && RunningWithLease(db, r, c.now) {
      var rows := Exhausted(run.items, c.now);
      assert after == ClaimedRows(run, db.breakers, c, db.nextToken);
      if !HasActiveClaim(rows, c.now) {
        forall k | k in {i, j} && Pick(run, db.breakers, c) != Some(k) ensures !ActiveClaim(after[k], c.now) {
          PassOverShape(rows, k, db.breakers, c);
          assert !ActiveClaim(rows[k], c.now);
        }
      }
    }
  }

  /** Mutual exclusion: whatever the interleaving, at most one item over all runs holds an unexpired claim,
      and it belongs to the RUNNING run that the lease names. */
  lemma {:induction false} AtMostOneLiveClaim(db: Db, events: seq<Event>, clock: Time)
    requires DbOk(db) && Exclusive(db, clock) && AllWellTyped(events) && InOrder(events, clock)
    ensures
      var db', now := Exec(db, events), FinalClock(events, clock);
      && Exclusive(db', now)
      && (forall r, i, s, j ::
            && r in db'.runs && 0 <= i < |db'.runs[r].items| && ActiveClaim(db'.runs[r].items[i], now)
            && s in db'.runs && 0 <= j < |db'.runs[s].items| && ActiveClaim(db'.runs[s].items[j], now)
            ==> r == s && i == j && IsRunning(db', r) && db'.lease.Some? && db'.lease.value.owner == r)
    decreases |events|
  {
    if events == [] {
      assert RunsOk(db);
      forall r, i | r in db.runs && 0 <= i < |db.runs[r].items| && ActiveClaim(db.runs[r].items[i], clock)
        ensures db.runs[r].state.Running?
      {
        assert ItemOk(db.runs[r].items[i], db.runs[r].state.Running?, db.nextToken, db.marked);
      }
    } else {
      StepKeepsOk(db, events[0]);
      StepKeepsExclusive(db, events[0], clock);
      AtMostOneLiveClaim(Apply(db, events[0]), events[1..], Tick(events[0], clock));
    }
  }

  // ---------- fencing ----------

  /** Some row is claimed under token t. */
  predicate Live(db: Db, t: Token) {
    exists r, i :: r in db.runs && 0 <= i < |db.runs[r].items| && ClaimedUnder(db.runs[r].items[i], t)
  }

  predicate ClaimedUnder(it: Item, t: Token) {
    it.status.Claimed? && it.token == Some(t)
  }

  lemma {:induction false} HandedRowsKeepTokens(run: Run, breakers: map<Provider, Breaker>, c: ClaimRequest,
                                                next: Token, marked: set<Token>, i: nat, t: Token)
    requires RunOk(run, next, marked) && run.state.Running? && (forall m :: m in marked ==> m < next)
    requires i < |run.items| && t < next && ClaimedUnder(ClaimedRows(run, breakers, c, next)[i], t)
    ensures ClaimedUnder(run.items[i], t)
  {
    ClaimedRowsShape(run, breakers, c, next, marked);
  }

  /** A row claimed under an already issued token was claimed under it before the step. */
  lemma {:induction false} ClaimsStayInPlace(db: Db, e: Event, t: Token, r: RunId, i: nat)
    requires DbOk(db) && WellTyped(e) && t < db.nextToken
    requires r in Apply(db, e).runs && i < |Apply(db, e).runs[r].items|
    requires ClaimedUnder(Apply(db, e).runs[r].items[i], t)
    ensures r in db.runs && i < |db.runs[r].items| && ClaimedUnder(db.runs[r].items[i], t)
  {
    if e.Claim? {
      if r == e.claim.run && Apply(db, e) != db {
        HandedRowsKeepTokens(db.runs[r], db.breakers, e.claim, db.nextToken, db.marked, i, t);
      }
    } else if e.Start? {
      StartShape(db, e.start, r);
    } else if IsRowStep(e) {
      RowStepShape(db, e, r);
    }
  }

  /** Two rows, of any runs, are never claimed under the same token. */
  lemma {:induction false} HolderIsUnique(db: Db, t: Token, r: RunId, i: nat, s: RunId, j: nat)
    requires DbOk(db) && r in db.runs && s in db.runs && i < |db.runs[r].items| && j < |db.runs[s].items|
    requires ClaimedUnder(db.runs[r].items[i], t) && ClaimedUnder(db.runs[s].items[j], t)
    ensures r == s && i == j && t < db.nextToken && IsRunning(db, r)
  {
    assert RunOk(db.runs[r], db.nextToken, db.marked) && RunOk(db.runs[s], db.nextToken, db.marked);
    assert ItemOk(db.runs[r].items[i], db.runs[r].state.Running?, db.nextToken, db.marked);
    assert ItemOk(db.runs[s].items[j], db.runs[s].state.Running?, db.nextToken, db.marked);
    assert i < j ==> !SameClaim(db.runs[r].items[i], db.runs[r].items[j]);
    assert j < i ==> !SameClaim(db.runs[r].items[j], db.runs[r].items[i]);
  }

  lemma {:induction false} StepKeepsDead(db: Db, e: Event, t: Token)
    requires DbOk(db) && WellTyped(e) && t < db.nextToken && !Live(db, t)
    ensures !Live(Apply(db, e), t)
  {
    var db' := Apply(db, e);
    forall r, i | r in db'.runs && 0 <= i < |db'.runs[r].items| ensures !ClaimedUnder(db'.runs[r].items[i], t) {
      if ClaimedUnder(db'.runs[r].items[i], t) { ClaimsStayInPlace(db, e, t, r, i); }
    }
  }

  /** A step that takes a claim from its row, by completion, deferral, reclaim, exhaustion or abandonment,
      kills the token everywhere. */
  lemma {:induction false} LosingTheRowKillsTheToken(db: Db, e: Event, t: Token, r: RunId, i: nat)
    requires DbOk(db) && WellTyped(e) && r in db.runs && i < |db.runs[r].items| && ClaimedUnder(db.runs[r].items[i], t)
    requires r in Apply(db, e).runs && i < |Apply(db, e).runs[r].items|
    requires !ClaimedUnder(Apply(db, e).runs[r].items[i], t)
    ensures t < db.nextToken && !Live(Apply(db, e), t)
  {
    HolderIsUnique(db, t, r, i, r, i);
    var db' := Apply(db, e);
    forall s, j | s in db'.runs && 0 <= j < |db'.runs[s].items| ensures !ClaimedUnder(db'.runs[s].items[j], t) {
      if ClaimedUnder(db'.runs[s].items[j], t) {
        ClaimsStayInPlace(db, e, t, s, j);
        HolderIsUnique(db, t, r, i, s, j);
      }
    }
  }

  /** A complete or defer under token t that returns true. */
  predicate TakesEffect(db: Db, e: Event, t: Token) {
    || (e.Finish? && IsOutcome(e.completion.status) && e.completion.token == t
        && Complete(db, e.completion).result == Ok(true))
    || (e.Deferral? && e.deferral.token == t && Defer(db, e.deferral).result == Ok(true))
  }

  /** Row i holds the claim a caller names: its token is current and unexpired, its run is RUNNING and owns a
      live lease. */
  predicate HoldsAt(db: Db, r: RunId, key: ItemKey, token: Token, now: Time, i: nat) {
    && r in db.runs && i < |db.runs[r].items| && db.runs[r].state == Running
    && db.lease.Some? && db.lease.value.owner == r && db.lease.value.expires > now
    && var it := db.runs[r].items[i];
       && it.key == key && it.status == Claimed && it.token == Some(token)
       && it.claimExpires.Some? && it.claimExpires.value > now
  }

  function WithRow(db: Db, r: RunId, i: nat, it: Item): Db
    requires r in db.runs && i < |db.runs[r].items|
  {
    db.(runs := db.runs[r := db.runs[r].(items := db.runs[r].items[i := it])])
  }

  lemma {:induction false} OthersDoNotHold(db: Db, r: RunId, key: ItemKey, token: Token, now: Time, i: nat)
    requires DbOk(db) && HoldsAt(db, r, key, token, now, i)
    ensures forall j :: 0 <= j < |db.runs[r].items| && j != i ==> !HoldsClaim(db.runs[r].items[j], key, token, now)
  {
    assert RunOk(db.runs[r], db.nextToken, db.marked);
  }

  /** Fencing and contents of one completion: it succeeds exactly for the holder of the claim it names, and
      then stores its outcome, its counters, its code and its category in that row and changes nothing else.
      A holder that was reclaimed, expired or abandoned changes nothing. */
  lemma {:induction false} OnlyTheHolderTakesEffect(db: Db, c: Completion)
    requires DbOk(db) && IsOutcome(c.status)
    ensures
      var out := Complete(db, c);
      && out.result == Ok(exists i: nat :: HoldsAt(db, c.run, c.key, c.token, c.finishedAt, i))
      && (out.result == Ok(false) ==> out.db == db)
      && (forall i: nat :: HoldsAt(db, c.run, c.key, c.token, c.finishedAt, i) ==>
            out.db == WithRow(db, c.run, i, db.runs[c.run].items[i].(
              status := c.status, finishedAt := Some(c.finishedAt), seriesUpdated := c.seriesUpdated,
              recordCount := c.recordCount, errorCode := c.code, lastErrorCode := c.code,
              lastErrorCategory := c.category)))
  {
    if RunningWithLease(db, c.run, c.finishedAt) {
      var items := db.runs[c.run].items;
      var after := MapItems(items, it => CompleteItem(it, c));
      if i: nat :| HoldsAt(db, c.run, c.key, c.token, c.finishedAt, i) {
        OthersDoNotHold(db, c.run, c.key, c.token, c.finishedAt, i);
        assert after == items[i := CompleteItem(items[i], c)];
      } else {
        forall j: nat | j < |items| ensures !HoldsClaim(items[j], c.key, c.token, c.finishedAt) {
          assert !HoldsAt(db, c.run, c.key, c.token, c.finishedAt, j);
        }
        assert after == items;
        assert db.runs == db.runs[c.run := db.runs[c.run].(items := items)];
      }
      forall i: nat, j: nat
        | HoldsAt(db, c.run, c.key, c.token, c.finishedAt, i) && HoldsAt(db, c.run, c.key, c.token, c.finishedAt, j)
        ensures i == j
      {
        OthersDoNotHold(db, c.run, c.key, c.token, c.finishedAt, i);
      }
    }
  }

  function Shortened(reason: string): string {
    if |reason| <= 80 then reason else reason[..80]
  }

  /** The same for a deferral: it opens the row again with its retry time, at most 80 characters of its reason,
      its category and its code, and clears the claim. */
  lemma {:induction false} DeferTouchesTheHolderAlone(db: Db, d: DeferRequest)
    requires DbOk(db)
    ensures
      var out := Defer(db, d);
      && (out.result.Err? <==> d.nextAttempt <= d.now || |d.reason| == 0)
      && (out.result.Err? ==> out == Outcome(db, Err(InputError)))
      && (out.result.Ok? ==> out.result.value == exists i: nat :: HoldsAt(db, d.run, d.key, d.token, d.now, i))
      && (out.result == Ok(false) ==> out.db == db)
      && (forall i: nat :: out.result.Ok? && HoldsAt(db, d.run, d.key, d.token, d.now, i) ==>
            out.db == WithRow(db, d.run, i, db.runs[d.run].items[i].(
              status := Pending, token := None, claimExpires := None, finishedAt := None,
              nextAttempt := Some(d.nextAttempt), deferralReason := Some(Shortened(d.reason)),
              errorCode := Some("Deferred"), lastErrorCategory := d.category, lastErrorCode := d.code)))
  {
    if d.nextAttempt > d.now && d.reason != "" && RunningWithLease(db, d.run, d.now) {
      var items := db.runs[d.run].items;
      var after := MapItems(items, it => DeferItem(it, d));
      if i: nat :| HoldsAt(db, d.run, d.key, d.token, d.now, i) {
        OthersDoNotHold(db, d.run, d.key, d.token, d.now, i);
        assert after == items[i := DeferItem(items[i], d)];
      } else {
        forall j: nat | j < |items| ensures !HoldsClaim(items[j], d.key, d.token, d.now) {
          assert !HoldsAt(db, d.run, d.key, d.token, d.now, j);
        }
        assert after == items;
        assert db.runs == db.runs[d.run := db.runs[d.run].(items := items)];
      }
      forall i: nat, j: nat
        | HoldsAt(db, d.run, d.key, d.token, d.now, i) && HoldsAt(db, d.run, d.key, d.token, d.now, j)
        ensures i == j
      {
        OthersDoNotHold(db, d.run, d.key, d.token, d.now, i);
      }
    }
  }

  lemma {:induction false} EffectKillsToken(db: Db, e: Event, t: Token)
    requires DbOk(db) && WellTyped(e) && TakesEffect(db, e, t)
    ensures Live(db, t) && t < db.nextToken && !Live(Apply(db, e), t)
  {
    hide Complete, Defer;
    var r := if e.Finish? then e.completion.run else e.deferral.run;
    if e.Finish? { OnlyTheHolderTakesEffect(db, e.completion); } else { DeferTouchesTheHolderAlone(db, e.deferral); }
    var i :| 0 <= i < |db.runs[r].items| && ClaimedUnder(db.runs[r].items[i], t)
      && |Apply(db, e).runs[r].items| == |db.runs[r].items| && !Apply(db, e).runs[r].items[i].status.Claimed?;
    LosingTheRowKillsTheToken(db, e, t, r, i);
  }

  /** How often a token's complete or defer takes effect in an interleaving. */
  function Effects(db: Db, events: seq<Event>, t: Token): nat
    requires AllWellTyped(events)
    decreases |events|
  {
    if events == [] then 0
    else (if TakesEffect(db, events[0], t) then 1 else 0) + Effects(Apply(db, events[0]), events[1..], t)
  }

  /** A token takes effect at most once, and never after its row was reclaimed, expired away or abandoned. */
  lemma {:induction false} TokenTakesEffectOnce(db: Db, events: seq<Event>, t: Token)
    requires DbOk(db) && AllWellTyped(events)
    ensures Effects(db, events, t) <= 1
    ensures t < db.nextToken && !Live(db, t) ==> Effects(db, events, t) == 0 && !Live(Exec(db, events), t)
    decreases |events|
  {
    if events != [] {
      var e := events[0];
      StepKeepsOk(db, e);
      TokenTakesEffectOnce(Apply(db, e), events[1..], t);
      if TakesEffect(db, e, t) {
        EffectKillsToken(db, e, t);
        TokenIsNotForgotten(db, e);
      } else if t < db.nextToken && !Live(db, t) {
        StepKeepsDead(db, e, t);
      }
    }
  }

  lemma {:induction false} TokenIsNotForgotten(db: Db, e: Event)
    requires WellTyped(e)
    ensures db.nextToken <= Apply(db, e).nextToken
  {
  }

  // ---------- lease ----------

  lemma {:induction false} StepExtendsLease(db: Db, e: Event)
    requires WellTyped(e) && db.lease.Some? && Apply(db, e).lease.Some?
    ensures Apply(db, e).lease.value.expires >= db.lease.value.expires
  {
  }

  /** The lease row exists before, between and after the events. */
  ghost predicate LeaseLives(db: Db, events: seq<Event>)
    requires AllWellTyped(events)
    decreases |events|
  {
    db.lease.Some? && (events == [] || LeaseLives(Apply(db, events[0]), events[1..]))
  }

  /** Over every stretch of an interleaving in which its row lives, the lease is only ever extended, even
      when it changes owner. */
  lemma {:induction false} LeaseOnlyExtends(db: Db, events: seq<Event>)
    requires AllWellTyped(events) && LeaseLives(db, events)
    ensures Exec(db, events).lease.Some? && Exec(db, events).lease.value.expires >= db.lease.value.expires
    decreases |events|
  {
    if events != [] {
      StepExtendsLease(db, events[0]);
      LeaseOnlyExtends(Apply(db, events[0]), events[1..]);
    }
  }

  // ---------- rows that never change again ----------

  /** A run that has left RUNNING is never written again, not even its items or cutoffs. */
  lemma {:induction false} StepKeepsFinishedRun(db: Db, e: Event, r: RunId)
    requires DbOk(db) && WellTyped(e) && r in db.runs && !db.runs[r].state.Running?
    ensures r in Apply(db, e).runs && Apply(db, e).runs[r] == db.runs[r]
  {
    hide CreateOrResume, ClaimedRows;
    if e.Start? {
      StartKeepsRuns(db, e.start);
      StartShape(db, e.start, r);
    }
    assert RunOk(db.runs[r], db.nextToken, db.marked);
    if e.Mark? && e.mark.run == r {
      forall i | 0 <= i < |db.runs[r].items| ensures !MarkMatches(db.runs[r].items[i], e.mark) {
        assert ItemOk(db.runs[r].items[i], false, db.nextToken, db.marked);
      }
    }
  }

  lemma {:induction false} FinishedRunIsFrozen(db: Db, events: seq<Event>, r: RunId)
    requires DbOk(db) && AllWellTyped(events) && r in db.runs && !db.runs[r].state.Running?
    ensures r in Exec(db, events).runs && Exec(db, events).runs[r] == db.runs[r]
    decreases |events|
  {
    if events != [] {
      StepKeepsOk(db, events[0]);
      StepKeepsFinishedRun(db, events[0], r);
      FinishedRunIsFrozen(Apply(db, events[0]), events[1..], r);
    }
  }

  /** The frozen part of a run: what idempotent resume compares. */
  predicate SameFrozenManifest(a: Run, b: Run) {
    && a.cycle == b.cycle && a.force == b.force && a.version == b.version && a.plan == b.plan
    && |a.items| == |b.items|
    && (forall i :: 0 <= i < |a.items| ==> SameIdentity(a.items[i], b.items[i]))
  }

  /** How a run row may change: the manifest stays, resolved items stay exactly as they are, cutoffs are
      write-once. */
  ghost predicate Evolves(a: Run, b: Run) {
    && SameFrozenManifest(a, b)
    && (forall i :: 0 <= i < |a.items| && Resolved(IsV6(a), a.items[i]) ==> b.items[i] == a.items[i])
    && (a.derivedCutoff.Some? ==> b.derivedCutoff == a.derivedCutoff)
    && (a.macroCutoff.Some? ==> b.macroCutoff == a.macroCutoff)
  }

  lemma {:induction false} ClaimEvolves(run: Run, breakers: map<Provider, Breaker>, c: ClaimRequest, next: Token,
                                        marked: set<Token>)
    requires RunOk(run, next, marked) && run.state.Running? && (forall m :: m in marked ==> m < next)
    ensures Evolves(run, run.(items := ClaimedRows(run, breakers, c, next)))
  {
    var rows := Exhausted(run.items, c.now);
    var after := ClaimedRows(run, breakers, c, next);
    ClaimedRowsShape(run, breakers, c, next, marked);
    forall i | 0 <= i < |rows| && Resolved(IsV6(run), run.items[i]) ensures after[i] == run.items[i] {
      assert rows[i] == run.items[i];
      PassOverShape(rows, i, breakers, c);
    }
  }

  lemma {:induction false} StartEvolves(db: Db, s: StartRequest, r: RunId)
    requires DbOk(db) && r in db.runs
    ensures r in CreateOrResume(db, s).db.runs && Evolves(db.runs[r], CreateOrResume(db, s).db.runs[r])
  {
    StartKeepsRuns(db, s);
    StartShape(db, s, r);
  }

  lemma {:induction false} RowStepEvolves(db: Db, e: Event, r: RunId)
    requires DbOk(db) && WellTyped(e) && IsRowStep(e) && r in db.runs
    ensures r in Apply(db, e).runs && Evolves(db.runs[r], Apply(db, e).runs[r])
  {
    RowStepShape(db, e, r);
    var a, b := db.runs[r], Apply(db, e).runs[r];
    forall i | 0 <= i < |a.items| ensures SameIdentity(a.items[i], b.items[i])
      ensures Resolved(IsV6(a), a.items[i]) ==> b.items[i] == a.items[i]
    {
      assert b.items[i] in [a.items[i], RowStep(e, a.items[i])];
    }
  }

  lemma {:induction false} ClaimStepEvolves(db: Db, c: ClaimRequest, r: RunId)
    requires DbOk(db) && r in db.runs
    ensures r in ClaimNext(db, c).db.runs && Evolves(db.runs[r], ClaimNext(db, c).db.runs[r])
  {
    hide ClaimedRows, Resolved;
    if IsRunning(db, r) { ClaimEvolves(db.runs[r], db.breakers, c, db.nextToken, db.marked); }
  }

  lemma {:induction false} StepEvolves(db: Db, e: Event, r: RunId)
    requires DbOk(db) && WellTyped(e) && r in db.runs
    ensures r in Apply(db, e).runs && Evolves(db.runs[r], Apply(db, e).runs[r])
  {
    if e.Start? { StartEvolves(db, e.start, r); }
    else if IsRowStep(e) { RowStepEvolves(db, e, r); }
    else if e.Claim? { ClaimStepEvolves(db, e.claim, r); }
  }

  /** Over a whole run: a resolved row never becomes unresolved, indeed never changes, and neither does
      the manifest; a cutoff once written stays. */
  lemma {:induction false} ResolvedRowsAreFrozen(db: Db, events: seq<Event>, r: RunId)
    requires DbOk(db) && AllWellTyped(events) && r in db.runs
    ensures r in Exec(db, events).runs && Evolves(db.runs[r], Exec(db, events).runs[r])
    decreases |events|
  {
    if events != [] {
      StepKeepsOk(db, events[0]);
      StepEvolves(db, events[0], r);
      ResolvedRowsAreFrozen(Apply(db, events[0]), events[1..], r);
    }
  }

  // ---------- cutoff order ----------

  /** A Macro Score cutoff presupposes a derived cutoff that is not later. */
  predicate CutoffsOrdered(derived: Option<Time>, macro: Option<Time>) {
    macro.Some? ==> derived.Some? && derived.value <= macro.value
  }

  predicate AllCutoffsOrdered(db: Db) {
    forall r :: r in db.runs ==> CutoffsOrdered(db.runs[r].derivedCutoff, db.runs[r].macroCutoff)
  }

  /** Starts that create a run carry ordered cutoffs (the driver passes none). */
  predicate OrderedStart(db: Db, e: Event) {
    e.Start? && e.start.run !in db.runs ==> CutoffsOrdered(e.start.derivedCutoff, e.start.macroCutoff)
  }

  predicate OrderedStarts(db: Db, events: seq<Event>)
    requires AllWellTyped(events)
    decreases |events|
  {
    events == [] || (OrderedStart(db, events[0]) && OrderedStarts(Apply(db, events[0]), events[1..]))
  }

  lemma {:induction false} StepKeepsCutoffOrder(db: Db, e: Event)
    requires WellTyped(e) && AllCutoffsOrdered(db) && OrderedStart(db, e)
    ensures AllCutoffsOrdered(Apply(db, e))
  {
    var db' := Apply(db, e);
    forall r | r in db'.runs ensures CutoffsOrdered(db'.runs[r].derivedCutoff, db'.runs[r].macroCutoff) {
      if e.Start? { StartShape(db, e.start, r); }
      else if IsRowStep(e) { RowStepShape(db, e, r); }
    }
  }

  lemma {:induction false} CutoffsStayOrdered(db: Db, events: seq<Event>)
    requires DbOk(db) && AllWellTyped(events) && AllCutoffsOrdered(db) && OrderedStarts(db, events)
    ensures AllCutoffsOrdered(Exec(db, events))
    decreases |events|
  {
    if events != [] {
      StepKeepsOk(db, events[0]);
      StepKeepsCutoffOrder(db, events[0]);
      CutoffsStayOrdered(Apply(db, events[0]), events[1..]);
    }
  }

  /** What lets a new run in: a lease in the future, distinct keys and orders, and a lease row that is free,
      or expired with no unexpired claim left in its run. */
  predicate AdmitsNewRun(db: Db, s: StartRequest) {
    && s.now < s.leaseExpires
    && UniqueSpecs(s.specs)
    && (db.lease.None?
        || (db.lease.value.expires <= s.now
            && (db.lease.value.owner in db.runs ==> !HasActiveClaim(db.runs[db.lease.value.owner].items, s.now))))
  }

  /** Creation succeeds exactly under those guards, and the order of the cutoffs is not one of them: when it
      succeeds, the cutoffs of every run are ordered afterwards if and only if the request's were. */
  lemma {:induction false} CreationTrustsItsCutoffs(db: Db, s: StartRequest)
    requires DbOk(db) && AllCutoffsOrdered(db) && s.run !in db.runs
    ensures CreateOrResume(db, s).result.Ok? <==> AdmitsNewRun(db, s)
    ensures AdmitsNewRun(db, s) ==>
              (AllCutoffsOrdered(CreateOrResume(db, s).db) <==> CutoffsOrdered(s.derivedCutoff, s.macroCutoff))
  {
    hide OrderedSpecs, FreshItems, AbandonRun, UniqueSpecs;
    var db' := CreateOrResume(db, s).db;
    if AdmitsNewRun(db, s) {
      assert s.run in db'.runs && db'.runs[s.run] == NewRun(s);
      forall r | r in db.runs
        ensures r in db'.runs && CutoffsOrdered(db'.runs[r].derivedCutoff, db'.runs[r].macroCutoff)
      {
        StartKeepsRuns(db, s);
        StartShape(db, s, r);
        assert CutoffsOrdered(db.runs[r].derivedCutoff, db.runs[r].macroCutoff);
        CutoffsOutliveAbandonment(db.runs[r], s.now);
      }
    }
  }

  lemma {:induction false} CutoffsOutliveAbandonment(run: Run, now: Time)
    ensures AbandonRun(run, now).derivedCutoff == run.derivedCutoff
        && AbandonRun(run, now).macroCutoff == run.macroCutoff
  {
  }
}
