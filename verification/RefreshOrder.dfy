/** In which order work is handed out, how often, and when a run can always go on. */
module RefreshOrder {
  import opened Wrappers
  import opened Scheduler
  import opened RetryPolicy
  import opened RefreshModel
  import opened RefreshInvariants
  import opened RefreshSafety

  // ---------- manifests before version 6 run in order ----------

  /** Nothing has been attempted unless everything before it is resolved. */
  ghost predicate LegacyOrdered(items: seq<Item>) {
    forall i, j :: 0 <= i < j < |items| && items[j].attempt > 0 ==> ResolvedLegacy(items[i])
  }

  ghost predicate LegacyRunsOrdered(db: Db) {
    forall r :: r in db.runs && db.runs[r].state.Running? && !IsV6(db.runs[r]) ==> LegacyOrdered(db.runs[r].items)
  }

  /** With no unexpired claim, an item the legacy query does not select is resolved. */
  lemma {:induction false} UnselectedIsResolved(items: seq<Item>, now: Time, next: Token, marked: set<Token>, i: nat)
    requires RowsOk(items, true, next, marked) && i < |items|
    requires !HasActiveClaim(Exhausted(items, now), now)
    ensures LegacyEligible(Exhausted(items, now)[i], now) <==> !ResolvedLegacy(Exhausted(items, now)[i])
  {
    var rows := Exhausted(items, now);
    assert ItemOk(items[i], true, next, marked) && !ActiveClaim(rows[i], now);
  }

  lemma {:induction false} LegacyClaimKeepsOrder(run: Run, breakers: map<Provider, Breaker>, c: ClaimRequest,
                                                 next: Token, marked: set<Token>)
    requires RunOk(run, next, marked) && run.state.Running? && (forall t :: t in marked ==> t < next)
    requires !IsV6(run) && LegacyOrdered(run.items)
    ensures LegacyOrdered(ClaimedRows(run, breakers, c, next))
  {
    var rows := Exhausted(run.items, c.now);
    var after := ClaimedRows(run, breakers, c, next);
    var pick := Pick(run, breakers, c);
    ClaimEvolves(run, breakers, c, next, marked);
    forall i, j | 0 <= i < j < |after| && after[j].attempt > 0 ensures ResolvedLegacy(after[i]) {
      if pick == Some(j) {
        UnselectedIsResolved(run.items, c.now, next, marked, i);
        assert !((k: nat) => k < |rows| && LegacyEligible(rows[k], c.now))(i);
      } else {
        assert after[j].attempt == run.items[j].attempt;
        assert ResolvedLegacy(run.items[i]);
      }
    }
  }

  lemma {:induction false} StepKeepsLegacyOrder(db: Db, e: Event)
    requires DbOk(db) && WellTyped(e) && LegacyRunsOrdered(db)
    ensures LegacyRunsOrdered(Apply(db, e))
  {
    var db' := Apply(db, e);
    forall r | r in db'.runs && db'.runs[r].state.Running? && !IsV6(db'.runs[r])
      ensures LegacyOrdered(db'.runs[r].items)
    {
      if r in db.runs {
        StepEvolves(db, e, r);
        if e.Claim? {
          LegacyClaimKeepsOrder(db.runs[r], db.breakers, e.claim, db.nextToken, db.marked);
        } else {
          OnlyClaimsAttempt(db, e, r);
          forall i, j | 0 <= i < j < |db.runs[r].items| && db'.runs[r].items[j].attempt > 0
            ensures ResolvedLegacy(db'.runs[r].items[i])
          {
            assert db.runs[r].items[j].attempt > 0 && ResolvedLegacy(db.runs[r].items[i]);
          }
        }
      } else {
        StartShape(db, e.start, r);
      }
    }
  }

  /** Only a claim changes an attempt counter, and no step puts a run back into RUNNING. */
  lemma {:induction false} OnlyClaimsAttempt(db: Db, e: Event, r: RunId)
    requires WellTyped(e) && !e.Claim? && r in db.runs
    ensures
      && r in Apply(db, e).runs
      && |Apply(db, e).runs[r].items| == |db.runs[r].items|
      && (Apply(db, e).runs[r].state.Running? ==> db.runs[r].state.Running?)
      && (forall i :: 0 <= i < |db.runs[r].items| ==>
            Apply(db, e).runs[r].items[i].attempt == db.runs[r].items[i].attempt)
  {
    if e.Start? {
      StartKeepsRuns(db, e.start);
      StartShape(db, e.start, r);
    } else if IsRowStep(e) {
      RowStepShape(db, e, r);
      var a, b := db.runs[r], Apply(db, e).runs[r];
      forall i | 0 <= i < |a.items| ensures b.items[i].attempt == a.items[i].attempt {
        assert b.items[i] in [a.items[i], RowStep(e, a.items[i])];
      }
    }
  }

  /** In every reachable RUNNING run of an old manifest, an item was attempted only after every earlier
      item was resolved, deferrals included. */
  lemma {:induction false} LegacyRunsInOrder(db: Db, events: seq<Event>)
    requires DbOk(db) && LegacyRunsOrdered(db) && AllWellTyped(events)
    ensures LegacyRunsOrdered(Exec(db, events))
    decreases |events|
  {
    if events != [] {
      StepKeepsOk(db, events[0]);
      StepKeepsLegacyOrder(db, events[0]);
      LegacyRunsInOrder(Apply(db, events[0]), events[1..]);
    }
  }

  // ---------- at most two claims an item ----------

  function Attempts(items: seq<Item>): nat {
    if items == [] then 0 else items[0].attempt + Attempts(items[1..])
  }

  /** Attempts stay below the cap, and only a first attempt starts from pending. */
  ghost predicate WithinBudget(items: seq<Item>) {
    forall i :: 0 <= i < |items| ==>
      items[i].attempt <= MAX_ATTEMPTS && (items[i].status.Pending? ==> items[i].attempt == 0)
  }

  lemma {:induction false} AttemptsBounded(items: seq<Item>)
    requires WithinBudget(items)
    ensures Attempts(items) <= MAX_ATTEMPTS * |items|
  {
    if items != [] { AttemptsBounded(items[1..]); }
  }

  lemma {:induction false} AttemptsAgree(a: seq<Item>, b: seq<Item>)
    requires |a| == |b| && forall i :: 0 <= i < |a| ==> a[i].attempt == b[i].attempt
    ensures Attempts(a) == Attempts(b)
  {
    if a != [] { AttemptsAgree(a[1..], b[1..]); }
  }

  lemma {:induction false} AttemptsBump(a: seq<Item>, b: seq<Item>, k: nat)
    requires |a| == |b| && k < |a| && b[k].attempt == a[k].attempt + 1
    requires forall i :: 0 <= i < |a| && i != k ==> a[i].attempt == b[i].attempt
    ensures Attempts(b) == Attempts(a) + 1
  {
    if k == 0 { AttemptsAgree(a[1..], b[1..]); } else { AttemptsBump(a[1..], b[1..], k - 1); }
  }

  predicate HandsOut(db: Db, e: Event, r: RunId) {
    e.Claim? && e.claim.run == r && ClaimNext(db, e.claim).result.Ok? && ClaimNext(db, e.claim).result.value.Some?
  }

  function HandOuts(db: Db, events: seq<Event>, r: RunId): nat
    requires AllWellTyped(events)
    decreases |events|
  {
    if events == [] then 0
    else (if HandsOut(db, events[0], r) then 1 else 0) + HandOuts(Apply(db, events[0]), events[1..], r)
  }

  lemma {:induction false} ClaimCountsHandOut(db: Db, c: ClaimRequest)
    requires DbOk(db) && c.expires > c.now && RunningWithLease(db, c.run, c.now)
    requires !IsV6(db.runs[c.run]) && WithinBudget(db.runs[c.run].items)
    ensures
      var a, b := db.runs[c.run].items, ClaimNext(db, c).db.runs[c.run].items;
      && |b| == |a| && WithinBudget(b)
      && Attempts(b) == Attempts(a) + if HandsOut(db, Claim(c), c.run) then 1 else 0
  {
    var run := db.runs[c.run];
    var rows, after := Exhausted(run.items, c.now), ClaimedRows(run, db.breakers, c, db.nextToken);
    var pick := Pick(run, db.breakers, c);
    forall i | 0 <= i < |after|
      ensures after[i].attempt == run.items[i].attempt + if pick == Some(i) then 1 else 0
      ensures after[i].attempt <= MAX_ATTEMPTS && (after[i].status.Pending? ==> after[i].attempt == 0)
    {
      assert run.items[i].attempt <= MAX_ATTEMPTS && (run.items[i].status.Pending? ==> run.items[i].attempt == 0);
      assert rows[i] == ExhaustItem(run.items[i], c.now);
    }
    if pick.Some? { AttemptsBump(run.items, after, pick.value); } else { AttemptsAgree(run.items, after); }
  }

  lemma {:induction false} OtherStepsKeepBudget(db: Db, e: Event, r: RunId)
    requires WellTyped(e) && !e.Claim? && r in db.runs && WithinBudget(db.runs[r].items)
    requires !(e.Deferral? && e.deferral.run == r)
    ensures r in Apply(db, e).runs
    ensures
      var a, b := db.runs[r].items, Apply(db, e).runs[r].items;
      |b| == |a| && WithinBudget(b) && Attempts(b) == Attempts(a)
  {
    OnlyClaimsAttempt(db, e, r);
    var a, b := db.runs[r].items, Apply(db, e).runs[r].items;
    AttemptsAgree(a, b);
    if e.Start? {
      StartShape(db, e.start, r);
    } else if IsRowStep(e) {
      RowStepShape(db, e, r);
      forall i | 0 <= i < |a| ensures b[i].status.Pending? ==> a[i].status.Pending? {
        assert b[i] in [a[i], RowStep(e, a[i])];
      }
    }
  }

  lemma {:induction false} StepCountsHandOuts(db: Db, e: Event, r: RunId)
    requires DbOk(db) && WellTyped(e) && r in db.runs && !IsV6(db.runs[r]) && WithinBudget(db.runs[r].items)
    requires !(e.Deferral? && e.deferral.run == r)
    ensures r in Apply(db, e).runs && !IsV6(Apply(db, e).runs[r])
    ensures WithinBudget(Apply(db, e).runs[r].items)
    ensures |Apply(db, e).runs[r].items| == |db.runs[r].items|
    ensures Attempts(Apply(db, e).runs[r].items) == Attempts(db.runs[r].items) + if HandsOut(db, e, r) then 1 else 0
  {
    StepEvolves(db, e, r);
    if !e.Claim? {
      OtherStepsKeepBudget(db, e, r);
    } else if e.claim.run == r && e.claim.expires > e.claim.now && RunningWithLease(db, r, e.claim.now) {
      ClaimCountsHandOut(db, e.claim);
    }
  }

  /** A run of an old manifest that nobody defers is claimed at most twice per item, whatever else happens:
      the attempts already spent bound the claims still to come. */
  lemma {:induction false} LegacyClaimsAreBounded(db: Db, events: seq<Event>, r: RunId)
    requires DbOk(db) && AllWellTyped(events) && r in db.runs && !IsV6(db.runs[r]) && WithinBudget(db.runs[r].items)
    requires forall i :: 0 <= i < |events| ==> !(events[i].Deferral? && events[i].deferral.run == r)
    ensures Attempts(db.runs[r].items) + HandOuts(db, events, r) <= MAX_ATTEMPTS * |db.runs[r].items|
    decreases |events|
  {
    if events == [] {
      AttemptsBounded(db.runs[r].items);
    } else {
      StepKeepsOk(db, events[0]);
      StepCountsHandOuts(db, events[0], r);
      LegacyClaimsAreBounded(Apply(db, events[0]), events[1..], r);
    }
  }

  // ---------- hand-out order of version 6 ----------

  /** A row's turn has come: it is open, below the cap and due, its provider admits it, and every earlier row is
      resolved, or waits for a future retry (which only source work may overtake), or is refused. */
  predicate InTurn(rows: seq<Item>, k: nat, breakers: map<Provider, Breaker>, c: ClaimRequest)
    requires k < |rows|
  {
    && Considered(rows[k], c)
    && Eligible(rows[k].task, breakers, c.now)
    && (forall e :: 0 <= e < k ==>
          || ResolvedV6(rows[e])
          || (Future(rows[e].nextAttempt, c.now) && !IsPhase(rows[k].task))
          || (!Future(rows[e].nextAttempt, c.now) && !Eligible(rows[e].task, breakers, c.now)))
  }

  lemma {:induction false} ReadyMeansInOrder(rows: seq<Item>, k: nat, breakers: map<Provider, Breaker>, c: ClaimRequest)
    requires k < |rows|
    ensures Ready(rows, k, breakers, c) <==> InTurn(rows, k, breakers, c)
  {
    var blocker := FirstBlocker(rows, k, breakers, c.now);
    if blocker.None? {
      forall e | 0 <= e < k ensures !Blocks(rows[e], rows[k].task, breakers, c.now) {
        assert !((i: nat) => i < k && Blocks(rows[i], rows[k].task, breakers, c.now))(e);
      }
    } else {
      assert Blocks(rows[blocker.value], rows[k].task, breakers, c.now);
    }
  }

  /** Attempted phases sit behind resolved phases. */
  ghost predicate PhasesOrdered(items: seq<Item>) {
    forall i, j :: 0 <= i < j < |items| && IsPhase(items[j].task) && items[j].attempt > 0 && Scope(items[i].task).None?
      ==> ResolvedV6(items[i])
  }

  ghost predicate V6PhasesOrdered(db: Db) {
    forall r :: r in db.runs && db.runs[r].state.Running? && IsV6(db.runs[r]) ==> PhasesOrdered(db.runs[r].items)
  }

  lemma {:induction false} V6ClaimKeepsPhaseOrder(run: Run, breakers: map<Provider, Breaker>, c: ClaimRequest,
                                                  next: Token, marked: set<Token>)
    requires RunOk(run, next, marked) && run.state.Running? && (forall t :: t in marked ==> t < next)
    requires IsV6(run) && PhasesOrdered(run.items)
    ensures PhasesOrdered(ClaimedRows(run, breakers, c, next))
  {
    var rows := Exhausted(run.items, c.now);
    var after := ClaimedRows(run, breakers, c, next);
    var pick := Pick(run, breakers, c);
    ClaimEvolves(run, breakers, c, next, marked);
    forall i, j | 0 <= i < j < |after| && IsPhase(after[j].task) && after[j].attempt > 0 && Scope(after[i].task).None?
      ensures ResolvedV6(after[i])
    {
      assert SameIdentity(run.items[i], after[i]) && SameIdentity(run.items[j], after[j]);
      if pick == Some(j) {
        ReadyMeansInOrder(rows, j, breakers, c);
        PassOverShape(rows, i, breakers, c);
      } else {
        PassOverShape(rows, j, breakers, c);
        assert run.items[j].attempt > 0 && ResolvedV6(run.items[i]);
      }
    }
  }

  lemma {:induction false} StepKeepsPhaseOrder(db: Db, e: Event)
    requires DbOk(db) && WellTyped(e) && V6PhasesOrdered(db)
    ensures V6PhasesOrdered(Apply(db, e))
  {
    var db' := Apply(db, e);
    forall r | r in db'.runs && db'.runs[r].state.Running? && IsV6(db'.runs[r])
      ensures PhasesOrdered(db'.runs[r].items)
    {
      if r in db.runs {
        StepEvolves(db, e, r);
        if e.Claim? {
          V6ClaimKeepsPhaseOrder(db.runs[r], db.breakers, e.claim, db.nextToken, db.marked);
        } else {
          OnlyClaimsAttempt(db, e, r);
          var a, b := db.runs[r].items, db'.runs[r].items;
          forall i, j | 0 <= i < j < |b| && IsPhase(b[j].task) && b[j].attempt > 0 && Scope(b[i].task).None?
            ensures ResolvedV6(b[i])
          {
            assert SameIdentity(a[i], b[i]) && SameIdentity(a[j], b[j]) && ResolvedV6(a[i]);
          }
        }
      } else {
        StartShape(db, e.start, r);
      }
    }
  }

  /** In every reachable RUNNING version 6 run, a derived phase was attempted only after every earlier
      phase was resolved. */
  lemma {:induction false} PhasesRunInOrder(db: Db, events: seq<Event>)
    requires DbOk(db) && V6PhasesOrdered(db) && AllWellTyped(events)
    ensures V6PhasesOrdered(Exec(db, events))
    decreases |events|
  {
    if events != [] {
      StepKeepsOk(db, events[0]);
      StepKeepsPhaseOrder(db, events[0]);
      PhasesRunInOrder(Apply(db, events[0]), events[1..]);
    }
  }

  // ---------- at most two acquisitions an item ----------

  /** Acquisitions counted, and the one a running claim may still count, stay within the cap. */
  ghost predicate AcquisitionsCapped(items: seq<Item>, marked: set<Token>) {
    forall i :: 0 <= i < |items| ==>
      items[i].acquisitions + (if UnmarkedClaim(items[i], marked) then 1 else 0) <= MAX_ATTEMPTS
  }

  ghost predicate V6Capped(db: Db) {
    forall r :: r in db.runs && IsV6(db.runs[r]) ==> AcquisitionsCapped(db.runs[r].items, db.marked)
  }

  lemma {:induction false} ClaimKeepsAcquisitionsCapped(run: Run, breakers: map<Provider, Breaker>, c: ClaimRequest,
                                                        next: Token, marked: set<Token>)
    requires RunOk(run, next, marked) && run.state.Running? && (forall t :: t in marked ==> t < next)
    requires IsV6(run) && AcquisitionsCapped(run.items, marked)
    ensures AcquisitionsCapped(ClaimedRows(run, breakers, c, next), marked)
  {
    hide FirstBlocker, Eligible;
    var rows, after := Exhausted(run.items, c.now), ClaimedRows(run, breakers, c, next);
    forall i | 0 <= i < |after|
      ensures after[i].acquisitions + (if UnmarkedClaim(after[i], marked) then 1 else 0) <= MAX_ATTEMPTS
    {
      assert run.items[i].acquisitions + (if UnmarkedClaim(run.items[i], marked) then 1 else 0) <= MAX_ATTEMPTS;
      PassOverShape(rows, i, breakers, c);
    }
  }

  lemma {:induction false} RowStepKeepsAcquisitionsCapped(db: Db, e: Event, r: RunId)
    requires DbOk(db) && WellTyped(e) && IsRowStep(e) && r in db.runs && AcquisitionsCapped(db.runs[r].items, db.marked)
    ensures r in Apply(db, e).runs && AcquisitionsCapped(Apply(db, e).runs[r].items, Apply(db, e).marked)
  {
    RowStepShape(db, e, r);
    var a, b, marked := db.runs[r].items, Apply(db, e).runs[r].items, Apply(db, e).marked;
    forall i | 0 <= i < |b| ensures b[i].acquisitions + (if UnmarkedClaim(b[i], marked) then 1 else 0) <= MAX_ATTEMPTS {
      assert a[i].acquisitions + (if UnmarkedClaim(a[i], db.marked) then 1 else 0) <= MAX_ATTEMPTS;
      assert b[i] in [a[i], RowStep(e, a[i])];
    }
  }

  lemma {:induction false} StepKeepsAcquisitionCap(db: Db, e: Event)
    requires DbOk(db) && WellTyped(e) && V6Capped(db)
    ensures V6Capped(Apply(db, e))
  {
    hide AcquisitionsCapped, CreateOrResume, ClaimedRows, MarkAcquisition, Defer, Complete;
    var db' := Apply(db, e);
    forall r | r in db'.runs && IsV6(db'.runs[r]) ensures AcquisitionsCapped(db'.runs[r].items, db'.marked) {
      if e.Start? {
        StartShape(db, e.start, r);
        StartMarksNothing(db, e.start);
        FreshRowsAreCapped(e.start, db.marked);
        if r in db.runs { AbandonmentKeepsAcquisitionsCapped(db.runs[r], e.start.now, db.marked); }
      } else if IsRowStep(e) {
        RowStepShape(db, e, r);
        RowStepKeepsAcquisitionsCapped(db, e, r);
      } else if e.Claim? && e.claim.run == r && RunningWithLease(db, r, e.claim.now) {
        ClaimKeepsAcquisitionsCapped(db.runs[r], db.breakers, e.claim, db.nextToken, db.marked);
      }
    }
  }

  lemma {:induction false} StartMarksNothing(db: Db, s: StartRequest)
    ensures CreateOrResume(db, s).db.marked == db.marked
  {
  }

  lemma {:induction false} FreshRowsAreCapped(s: StartRequest, marked: set<Token>)
    ensures AcquisitionsCapped(NewRun(s).items, marked)
  {
  }

  lemma {:induction false} AbandonmentKeepsAcquisitionsCapped(run: Run, now: Time, marked: set<Token>)
    requires IsV6(run) ==> AcquisitionsCapped(run.items, marked)
    ensures IsV6(run) ==> AcquisitionsCapped(AbandonRun(run, now).items, marked)
  {
    forall i | IsV6(run) && 0 <= i < |run.items|
      ensures
        var it := AbandonRun(run, now).items[i];
        it.acquisitions + (if UnmarkedClaim(it, marked) then 1 else 0) <= MAX_ATTEMPTS
    {
      assert run.items[i].acquisitions + (if UnmarkedClaim(run.items[i], marked) then 1 else 0) <= MAX_ATTEMPTS;
    }
  }

  /** Whether a step counts an outbound acquisition of row i. */
  predicate CountsAcquisition(db: Db, e: Event, r: RunId, i: nat)
    requires r in db.runs && i < |db.runs[r].items|
  {
    e.Mark? && e.mark.run == r && MarkMatches(db.runs[r].items[i], e.mark) && e.mark.token !in db.marked
  }

  lemma {:induction false} StepCountsAcquisition(db: Db, e: Event, r: RunId, i: nat)
    requires DbOk(db) && WellTyped(e) && r in db.runs && i < |db.runs[r].items|
    ensures r in Apply(db, e).runs && i < |Apply(db, e).runs[r].items|
    ensures Apply(db, e).runs[r].items[i].acquisitions
         == db.runs[r].items[i].acquisitions + if CountsAcquisition(db, e, r, i) then 1 else 0
  {
    hide CreateOrResume, ClaimedRows, Defer, Complete;
    StepEvolves(db, e, r);
    if e.Start? {
      StartShape(db, e.start, r);
    } else if e.Claim? {
      ClaimAcquiresNothing(db.runs[r], db.breakers, e.claim, db.nextToken, i);
    } else if IsRowStep(e) && !e.Mark? {
      RowStepShape(db, e, r);
      assert Apply(db, e).runs[r].items[i] in [db.runs[r].items[i], RowStep(e, db.runs[r].items[i])];
    }
  }

  lemma {:induction false} ClaimAcquiresNothing(run: Run, breakers: map<Provider, Breaker>, c: ClaimRequest,
                                                next: Token, i: nat)
    requires i < |run.items|
    ensures ClaimedRows(run, breakers, c, next)[i].acquisitions == run.items[i].acquisitions
  {
    hide FirstBlocker, Eligible, PassOver, V6Pick, LegacyPick;
    PassOverShape(Exhausted(run.items, c.now), i, breakers, c);
  }

  /** How many acquisitions of row i an interleaving counts. */
  ghost function Acquisitions(db: Db, events: seq<Event>, r: RunId, i: nat): nat
    requires DbOk(db) && AllWellTyped(events) && r in db.runs && i < |db.runs[r].items|
    decreases |events|
  {
    if events == [] then 0
    else
      StepKeepsOk(db, events[0]);
      StepCountsAcquisition(db, events[0], r, i);
      (if CountsAcquisition(db, events[0], r, i) then 1 else 0) + Acquisitions(Apply(db, events[0]), events[1..], r, i)
  }

  /** Over every interleaving no item of a version 6 run counts more than two acquisitions, however often it is
      reclaimed or deferred: those spent bound those to come. */
  lemma {:induction false} AcquisitionsAreBounded(db: Db, events: seq<Event>, r: RunId, i: nat)
    requires DbOk(db) && AllWellTyped(events) && V6Capped(db)
    requires r in db.runs && IsV6(db.runs[r]) && i < |db.runs[r].items|
    ensures V6Capped(Exec(db, events))
    ensures db.runs[r].items[i].acquisitions + Acquisitions(db, events, r, i) <= MAX_ATTEMPTS
    decreases |events|
  {
    hide Apply, DbOk, CountsAcquisition;
    if events == [] {
      assert AcquisitionsCapped(db.runs[r].items, db.marked);
    } else {
      StepKeepsOk(db, events[0]);
      StepKeepsAcquisitionCap(db, events[0]);
      StepCountsAcquisition(db, events[0], r, i);
      StepEvolves(db, events[0], r);
      AcquisitionsAreBounded(Apply(db, events[0]), events[1..], r, i);
    }
  }
}
