/** What each transaction answers and stores, said of the rows alone, and how long the rows keep it. */
module RefreshContents {
  import opened Wrappers
  import opened Scheduler
  import opened RetryPolicy
  import opened RefreshModel
  import opened RefreshInvariants
  import opened RefreshSafety
  import opened RefreshClaims
  import opened RefreshResume

  function Later(lease: Option<Lease>, expires: Time): Time {
    if lease.Some? && lease.value.expires > expires then lease.value.expires else expires
  }

  // ---------- resuming ----------

  predicate StrictlyInOrder(specs: seq<Spec>) {
    forall i, j :: 0 <= i < j < |specs| ==> specs[i].order < specs[j].order
  }

  lemma {:induction false} HeadsAgree(a: seq<Spec>, b: seq<Spec>)
    requires StrictlyInOrder(a) && InTaskOrder(b) && multiset(a) == multiset(b) && a != [] && b != []
    ensures a[0] == b[0]
  {
    assert b[0] in multiset(a) && a[0] in multiset(b);
    var i :| 0 <= i < |a| && a[i] == b[0];
    var j :| 0 <= j < |b| && b[j] == a[0];
    assert b[0].order <= b[j].order;
  }

  lemma {:induction false} TailOf(a: seq<Spec>)
    requires a != []
    ensures multiset(a[1..]) == multiset(a) - multiset{a[0]} && a == [a[0]] + a[1..]
    ensures StrictlyInOrder(a) ==> StrictlyInOrder(a[1..])
    ensures InTaskOrder(a) ==> InTaskOrder(a[1..])
  {
    assert a == [a[0]] + a[1..];
  }

  /** A strictly ordered list is the only ordered list of its members. */
  lemma {:induction false} OrderIsUnique(a: seq<Spec>, b: seq<Spec>)
    requires StrictlyInOrder(a) && InTaskOrder(b) && multiset(a) == multiset(b)
    ensures a == b
  {
    hide StrictlyInOrder, InTaskOrder;
    assert |a| == |multiset(a)| == |multiset(b)| == |b|;
    if a != [] {
      HeadsAgree(a, b);
      TailOf(a);
      TailOf(b);
      OrderIsUnique(a[1..], b[1..]);
    }
  }

  /** What a start must repeat to resume a run: everything it was created with, its items in any order; a
      cutoff may be left out. */
  predicate Repeats(run: Run, s: StartRequest) {
    && s.cycle == run.cycle && s.force == run.force && s.version == run.version && s.plan == run.plan
    && (s.derivedCutoff.Some? ==> s.derivedCutoff == run.derivedCutoff)
    && (s.macroCutoff.Some? ==> s.macroCutoff == run.macroCutoff)
    && multiset(s.specs) == multiset(SpecsOf(run.items))
  }

  lemma {:induction false} RepeatsIsSameManifest(run: Run, s: StartRequest, next: Token, marked: set<Token>)
    requires RunOk(run, next, marked)
    ensures SameManifest(run, s) <==> Repeats(run, s)
  {
    OrderedIsSortedPermutation(s.specs);
    if multiset(s.specs) == multiset(SpecsOf(run.items)) { OrderIsUnique(SpecsOf(run.items), OrderedSpecs(s.specs)); }
  }

  /** A start that names an existing run resumes it exactly if it repeats what the run was created with, and is
      an idempotency error otherwise. A finished run is only read; a RUNNING one has its lease renewed. */
  lemma {:induction false} ResumesExactlyRepeats(db: Db, s: StartRequest)
    requires DbOk(db) && s.run in db.runs && s.now < s.leaseExpires
    ensures
      var run, out := db.runs[s.run], CreateOrResume(db, s);
      && out.result == (if Repeats(run, s) then Ok(run) else Err(IdempotencyError))
      && out.db == if Repeats(run, s) && run.state == Running
                   then db.(lease := Some(Lease(s.run, Later(db.lease, s.leaseExpires)))) else db
  {
    hide SameManifest, Repeats;
    RepeatsIsSameManifest(db.runs[s.run], s, db.nextToken, db.marked);
    if IsRunning(db, s.run) { SameManifestRenews(db, s); }
  }

  /** Resuming a finished run, at any later point, returns its frozen row to a start that repeats it and is an
      idempotency error to every other. */
  lemma {:induction false} FinishedRunResumes(db: Db, events: seq<Event>, s: StartRequest)
    requires DbOk(db) && AllWellTyped(events) && s.run in db.runs && db.runs[s.run].state != Running
    requires s.now < s.leaseExpires
    ensures CreateOrResume(Exec(db, events), s) ==
      Outcome(Exec(db, events), if Repeats(db.runs[s.run], s) then Ok(db.runs[s.run]) else Err(IdempotencyError))
  {
    hide CreateOrResume, Exec, DbOk, Repeats;
    FinishedRunIsFrozen(db, events, s.run);
    ReachableIsOk(db, events);
    ResumesExactlyRepeats(Exec(db, events), s);
  }

  // ---------- creating ----------

  function NewItem(s: Spec): Item {
    Item(s.key, s.task, s.order, Pending, 0, 0, 0, None, None, None, 0, 0, None, None, None, None, None)
  }

  /** A run as it is created: open, without a result, its items in task order and untouched. */
  ghost predicate IsNew(run: Run, s: StartRequest) {
    && run == Run(Running, s.cycle, s.force, s.version, s.derivedCutoff, s.macroCutoff, None, None, s.plan, run.items)
    && InTaskOrder(SpecsOf(run.items)) && multiset(SpecsOf(run.items)) == multiset(s.specs)
    && forall i :: 0 <= i < |run.items| ==> run.items[i] == NewItem(SpecsOf(run.items)[i])
  }

  /** A run as its expired lease leaves it: failed, its open items failed with it, the others as they were. */
  ghost predicate IsAbandoned(before: Run, after: Run, now: Time) {
    && after == before.(state := RunFailed, finishedAt := Some(now), items := after.items,
                        finalResult := Some("{\"status\":\"error\",\"error_code\":\"RefreshLeaseExpired\"}"))
    && |after.items| == |before.items|
    && forall i :: 0 <= i < |before.items| ==>
         after.items[i] == if before.items[i].status in {Pending, Claimed}
                           then before.items[i].(status := Failed, token := None, claimExpires := None,
                                                 finishedAt := Some(now), errorCode := Some("RefreshLeaseExpired"))
                           else before.items[i]
  }

  lemma {:induction false} NewRunIsNew(s: StartRequest)
    ensures IsNew(NewRun(s), s)
  {
    OrderedIsSortedPermutation(s.specs);
    assert SpecsOf(NewRun(s).items) == OrderedSpecs(s.specs);
  }

  lemma {:induction false} AbandonedRunIs(run: Run, now: Time)
    ensures IsAbandoned(run, AbandonRun(run, now), now)
  {
  }

  /** A creation that is let in stores the new run, takes the lease for it, and abandons the run that let its
      lease expire; every other run stays. */
  lemma {:induction false} CreationStores(db: Db, s: StartRequest)
    requires DbOk(db) && s.run !in db.runs && AdmitsNewRun(db, s)
    ensures
      var out := CreateOrResume(db, s);
      && out.result.Ok? && out.db.runs.Keys == db.runs.Keys + {s.run}
      && out.db.runs[s.run] == out.result.value && IsNew(out.result.value, s)
      && out.db == db.(runs := out.db.runs, lease := Some(Lease(s.run, Later(db.lease, s.leaseExpires))))
      && (forall r :: r in db.runs ==>
            if db.lease.Some? && db.lease.value.owner == r then IsAbandoned(db.runs[r], out.db.runs[r], s.now)
            else out.db.runs[r] == db.runs[r])
  {
    hide NewRun, IsNew, UniqueSpecs, HasActiveClaim, AbandonRun, IsAbandoned;
    NewRunIsNew(s);
    if db.lease.Some? { AbandonedRunIs(db.runs[db.lease.value.owner], s.now); }
  }

  /** A creation that is not let in changes nothing and says why: a lease that is already over, the run that
      holds the lease or still has a claim under it, or items that are not distinct. */
  lemma {:induction false} CreationRefuses(db: Db, s: StartRequest)
    requires DbOk(db) && s.run !in db.runs && !AdmitsNewRun(db, s)
    ensures
      var taken := db.lease.Some?
        && (db.lease.value.expires > s.now || SomeUnexpired(db.runs[db.lease.value.owner].items, s.now));
      CreateOrResume(db, s) == Outcome(db, Err(if s.leaseExpires <= s.now then InputError
                                               else if taken then LeaseConflict(db.lease.value.owner)
                                               else IntegrityError))
  {
    hide NewRun, UniqueSpecs;
    if db.lease.Some? {
      var items := db.runs[db.lease.value.owner].items;
      assert forall i :: 0 <= i < |items| ==> (Unexpired(items[i], s.now) <==> ActiveClaim(items[i], s.now));
    }
  }

  // ---------- counting acquisitions ----------

  /** Row i is claimed under this token in this generation, and the claim is unexpired. */
  predicate Current(db: Db, m: MarkRequest, i: nat) {
    && m.run in db.runs && i < |db.runs[m.run].items|
    && var it := db.runs[m.run].items[i];
       && it.key == m.key && it.status == Claimed && it.token == Some(m.token) && it.generation == m.generation
       && it.claimExpires.Some? && it.claimExpires.value > m.now
  }

  /** A mark counts one acquisition for a current claim, once; without one it raises and changes nothing. */
  lemma {:induction false} MarkCountsOnce(db: Db, m: MarkRequest)
    requires DbOk(db)
    ensures
      var out := MarkAcquisition(db, m);
      && out.result == (if exists i: nat :: Current(db, m, i) then Ok(()) else Err(AcquisitionNotCurrent))
      && (out.result.Err? || m.token in db.marked ==> out.db == db)
      && (forall i: nat :: Current(db, m, i) && m.token !in db.marked ==>
            var it := db.runs[m.run].items[i];
            out.db == WithRow(db, m.run, i, it.(acquisitions := it.acquisitions + 1)).(marked := db.marked + {m.token}))
  {
    if i: nat :| Current(db, m, i) {
      var items := db.runs[m.run].items;
      assert MarkMatches(items[i], m);
      forall j: nat | j < |items| && j != i ensures !MarkMatches(items[j], m) && !Current(db, m, j) {
        assert RunOk(db.runs[m.run], db.nextToken, db.marked);
      }
      assert MapItems(items, it => MarkItem(it, m)) == items[i := items[i].(acquisitions := items[i].acquisitions + 1)];
    } else if m.run in db.runs {
      forall j: nat | j < |db.runs[m.run].items| ensures !MarkMatches(db.runs[m.run].items[j], m) {
        assert !Current(db, m, j);
      }
    }
  }

  // ---------- cutoffs ----------

  /** A cutoff may be written or read back: by the owner of a live lease, and a Macro Score cutoff only after
      the derived one. */
  predicate MayPersist(db: Db, u: CutoffRequest) {
    && u.now < u.leaseExpires
    && db.lease.Some? && db.lease.value.owner == u.run && db.lease.value.expires > u.now && u.run in db.runs
    && (u.phase.MacroPhase? ==>
          db.runs[u.run].derivedCutoff.Some? && db.runs[u.run].derivedCutoff.value <= u.cutoff)
  }

  function Stored(run: Run, phase: Phase): Option<Time> {
    match phase case DerivedPhase => run.derivedCutoff case MacroPhase => run.macroCutoff
  }

  /** The answer is the stored cutoff if there is one, and otherwise the given one, which is stored; the lease
      is renewed. A refusal changes nothing. */
  lemma {:induction false} CutoffIsWrittenOnce(db: Db, u: CutoffRequest)
    requires DbOk(db)
    ensures
      var out := PersistCutoff(db, u);
      && (out.result.Ok? <==> MayPersist(db, u))
      && (out.result.Err? ==> out.db == db)
      && (out.result.Ok? ==>
            var run, after := db.runs[u.run], out.db.runs[u.run];
            && out.result.value == (if Stored(run, u.phase).Some? then Stored(run, u.phase).value else u.cutoff)
            && Stored(after, u.phase) == Some(out.result.value)
            && after == (if u.phase.DerivedPhase? then run.(derivedCutoff := after.derivedCutoff)
                         else run.(macroCutoff := after.macroCutoff))
            && out.db == db.(runs := db.runs[u.run := after],
                             lease := Some(Lease(u.run, Later(db.lease, u.leaseExpires)))))
  {
  }

  /** Why a cutoff is refused. */
  lemma {:induction false} CutoffRefusals(db: Db, u: CutoffRequest)
    requires DbOk(db) && !MayPersist(db, u)
    ensures
      var owned := db.lease.Some? && db.lease.value.owner == u.run && db.lease.value.expires > u.now;
      PersistCutoff(db, u).result
        == Err(if u.leaseExpires <= u.now || db.lease.None? then PersistenceError
               else if !owned then LeaseConflict(db.lease.value.owner)
               else if db.runs[u.run].derivedCutoff.None? then CutoffOrderError
               else PersistenceError)
  {
  }

  // ---------- finalizing ----------

  /** An item a run may end with: in a version 6 run closed or pending under a deferral, in an older one
      succeeded, partial, skipped or failed twice. */
  predicate MayEndWith(version: string, it: Item) {
    if version == "daily-refresh-v6" then IsOver(it) || (it.status == Pending && it.deferralReason.Some?)
    else it.status in {Succeeded, Partial, Skipped} || (it.status == Failed && it.attempt >= 2)
  }

  predicate MayEnd(db: Db, f: Finalization) {
    && db.lease.Some? && db.lease.value.owner == f.run && db.lease.value.expires > f.finishedAt && f.run in db.runs
    && (forall i :: 0 <= i < |db.runs[f.run].items| ==> MayEndWith(db.runs[f.run].version, db.runs[f.run].items[i]))
    && (f.state == RunSucceeded ==>
          forall i :: 0 <= i < |db.runs[f.run].items| ==> db.runs[f.run].items[i].status == Succeeded)
  }

  /** Finalization succeeds exactly then; it stores state, result and end of the run, releases the lease, records
      a last success if one is given, and touches no item; otherwise it changes nothing. */
  lemma {:induction false} FinalizeStores(db: Db, f: Finalization)
    requires DbOk(db) && !f.state.Running?
    ensures
      Finalize(db, f) ==
        if MayEnd(db, f) then
          Outcome(db.(runs := db.runs[f.run := db.runs[f.run].(state := f.state, finishedAt := Some(f.finishedAt),
                                                              finalResult := Some(f.finalResult))],
                      lease := None,
                      lastSuccess := if f.lastSuccess.Some? then f.lastSuccess else db.lastSuccess),
                  Ok(true))
        else Outcome(db, Ok(false))
  {
    hide IsOver, ResolvedV6;
    if f.run in db.runs {
      var run := db.runs[f.run];
      forall i | 0 <= i < |run.items|
        ensures Settled(IsV6(run), run.items[i]) <==> MayEndWith(run.version, run.items[i])
      {
        OverIsResolved(run.items[i]);
      }
    }
  }

  // ---------- how long a row keeps its contents ----------

  /** A row nobody holds and nobody was handed: what a step may still write on it. */
  predicate KeptBy(a: Item, b: Item) {
    && b == a.(nextAttempt := b.nextAttempt, deferralReason := b.deferralReason, errorCode := b.errorCode)
    && (b != a ==> b.errorCode == Some("Deferred"))
  }

  lemma {:induction false} ClaimKeepsFinished(run: Run, breakers: map<Provider, Breaker>, c: ClaimRequest,
                                              next: Token, i: nat)
    requires i < |run.items| && IsOutcome(run.items[i].status)
    ensures
      var a, b := run.items[i], ClaimedRows(run, breakers, c, next)[i];
      if b.generation == a.generation then KeptBy(a, b) && (!IsV6(run) || ResolvedV6(a) ==> b == a)
      else b.generation == a.generation + 1 && b.status == Claimed
  {
    hide FirstBlocker, Eligible, V6Pick, LegacyPick, Considered, DeferralStamp;
    var rows := Exhausted(run.items, c.now);
    assert rows[i] == run.items[i];
    PassOverShape(rows, i, breakers, c);
    var after := ClaimedRows(run, breakers, c, next)[i];
    assert IsV6(run) ==> after in [rows[i], PassOver(rows, i, breakers, c), HandOutV6(rows[i], next, c.expires)];
  }

  /** What one step does to a finished row: nothing, a deferral stamp if it may run again, or a new claim. */
  lemma {:induction false} StepKeepsFinished(db: Db, e: Event, r: RunId, i: nat)
    requires DbOk(db) && WellTyped(e) && r in db.runs && i < |db.runs[r].items| && IsOutcome(db.runs[r].items[i].status)
    requires r in Apply(db, e).runs && i < |Apply(db, e).runs[r].items|
    ensures
      var a, b := db.runs[r].items[i], Apply(db, e).runs[r].items[i];
      if b.generation == a.generation then KeptBy(a, b) && (!IsV6(db.runs[r]) || ResolvedV6(a) ==> b == a)
      else b.generation == a.generation + 1 && b.status == Claimed
  {
    hide CreateOrResume, ClaimedRows, ResolvedV6, Defer, Complete, MarkAcquisition;
    if e.Start? {
      StartShape(db, e.start, r);
    } else if IsRowStep(e) {
      RowStepShape(db, e, r);
      assert Apply(db, e).runs[r].items[i] in [db.runs[r].items[i], RowStep(e, db.runs[r].items[i])];
    } else if e.Claim? {
      ClaimKeepsFinished(db.runs[r], db.breakers, e.claim, db.nextToken, i);
    }
  }

  lemma {:induction false} StepKeepsGeneration(db: Db, e: Event, r: RunId, i: nat)
    requires DbOk(db) && WellTyped(e) && r in db.runs && i < |db.runs[r].items|
    ensures r in Apply(db, e).runs && |Apply(db, e).runs[r].items| == |db.runs[r].items|
    ensures IsV6(Apply(db, e).runs[r]) == IsV6(db.runs[r])
    ensures db.runs[r].items[i].generation <= Apply(db, e).runs[r].items[i].generation
  {
    hide CreateOrResume, ClaimedRows, Defer, Complete, MarkAcquisition;
    StepEvolves(db, e, r);
    if e.Start? {
      StartShape(db, e.start, r);
    } else if IsRowStep(e) {
      RowStepShape(db, e, r);
      assert Apply(db, e).runs[r].items[i] in [db.runs[r].items[i], RowStep(e, db.runs[r].items[i])];
    } else if e.Claim? {
      ClaimKeepsGeneration(db.runs[r], db.breakers, e.claim, db.nextToken, i);
    }
  }

  lemma {:induction false} ClaimKeepsGeneration(run: Run, breakers: map<Provider, Breaker>, c: ClaimRequest,
                                                next: Token,
                                                i: nat)
    requires i < |run.items|
    ensures run.items[i].generation <= ClaimedRows(run, breakers, c, next)[i].generation
  {
    hide FirstBlocker, Eligible, V6Pick, LegacyPick, PassOver;
    PassOverShape(Exhausted(run.items, c.now), i, breakers, c);
  }

  lemma {:induction false} GenerationOnlyGrows(db: Db, events: seq<Event>, r: RunId, i: nat)
    requires DbOk(db) && AllWellTyped(events) && r in db.runs && i < |db.runs[r].items|
    ensures r in Exec(db, events).runs && |Exec(db, events).runs[r].items| == |db.runs[r].items|
    ensures db.runs[r].items[i].generation <= Exec(db, events).runs[r].items[i].generation
    decreases |events|
  {
    hide Apply, DbOk;
    if events != [] {
      StepKeepsOk(db, events[0]);
      StepKeepsGeneration(db, events[0], r, i);
      GenerationOnlyGrows(Apply(db, events[0]), events[1..], r, i);
    }
  }

  /** Over every interleaving, until it is handed out again, a finished row keeps its contents; only if it may
      run again in a version 6 run can a deferral be stamped on it, which overwrites its error code. */
  lemma {:induction false} FinishedRowIsKept(db: Db, events: seq<Event>, r: RunId, i: nat)
    requires DbOk(db) && AllWellTyped(events) && r in db.runs && i < |db.runs[r].items|
    requires IsOutcome(db.runs[r].items[i].status)
    requires r in Exec(db, events).runs && i < |Exec(db, events).runs[r].items|
    requires Exec(db, events).runs[r].items[i].generation == db.runs[r].items[i].generation
    ensures
      var a, b := db.runs[r].items[i], Exec(db, events).runs[r].items[i];
      KeptBy(a, b) && (db.runs[r].version != V6 || IsOver(a) ==> b == a)
    decreases |events|
  {
    hide Apply, DbOk, IsOver, ResolvedV6;
    if events != [] {
      StepKeepsOk(db, events[0]);
      StepKeepsGeneration(db, events[0], r, i);
      StepKeepsFinished(db, events[0], r, i);
      GenerationOnlyGrows(Apply(db, events[0]), events[1..], r, i);
      FinishedRowIsKept(Apply(db, events[0]), events[1..], r, i);
      OverIsResolved(db.runs[r].items[i]);
    }
  }

  /** A completion is kept: from the moment it succeeds, over every interleaving until the row is handed out
      again, the row has its status, instant, counters and category, and its code but for a deferral stamp. */
  lemma {:induction false} CompletionIsKept(db: Db, c: Completion, i: nat, events: seq<Event>)
    requires DbOk(db) && IsOutcome(c.status) && HoldsAt(db, c.run, c.key, c.token, c.finishedAt, i)
        && AllWellTyped(events)
    ensures c.run in Exec(Complete(db, c).db, events).runs && i < |Exec(Complete(db, c).db, events).runs[c.run].items|
    ensures
      var a, b := db.runs[c.run].items[i], Exec(Complete(db, c).db, events).runs[c.run].items[i];
      b.generation == a.generation ==>
        && b.status == c.status && b.finishedAt == Some(c.finishedAt)
        && b.seriesUpdated == c.seriesUpdated && b.recordCount == c.recordCount
        && b.lastErrorCode == c.code && b.lastErrorCategory == c.category
        && (b.errorCode == c.code || (b.errorCode == Some("Deferred") && c.status == Failed))
  {
    hide Exec, DbOk, Complete;
    var after := Apply(db, Finish(c));
    OnlyTheHolderTakesEffect(db, c);
    StepKeepsOk(db, Finish(c));
    GenerationOnlyGrows(after, events, c.run, i);
    if Exec(after, events).runs[c.run].items[i].generation == db.runs[c.run].items[i].generation {
      FinishedRowIsKept(after, events, c.run, i);
    }
  }

  // ---------- deferrals are honoured ----------

  lemma {:induction false} ClaimLeavesWaiting(run: Run, breakers: map<Provider, Breaker>, c: ClaimRequest,
                                              next: Token, i: nat)
    requires IsV6(run) && i < |run.items| && run.items[i].status == Pending && Waits(run.items[i], c.now)
    ensures ClaimedRows(run, breakers, c, next)[i] == run.items[i]
  {
    hide FirstBlocker, Eligible;
    var rows := Exhausted(run.items, c.now);
    assert rows[i] == run.items[i] && !Considered(rows[i], c);
  }

  lemma {:induction false} StepLeavesWaiting(db: Db, e: Event, r: RunId, i: nat, clock: Time)
    requires DbOk(db) && WellTyped(e) && IsRunning(db, r) && IsRunning(Apply(db, e), r) && IsV6(db.runs[r])
    requires i < |db.runs[r].items| == |Apply(db, e).runs[r].items|
    requires db.runs[r].items[i].status == Pending && Waits(db.runs[r].items[i], Tick(e, clock))
    ensures Apply(db, e).runs[r].items[i] == db.runs[r].items[i]
  {
    hide CreateOrResume, ClaimedRows, Defer, Complete, MarkAcquisition;
    if e.Start? {
      StartShape(db, e.start, r);
    } else if IsRowStep(e) {
      RowStepShape(db, e, r);
      assert Apply(db, e).runs[r].items[i] in [db.runs[r].items[i], RowStep(e, db.runs[r].items[i])];
    } else if e.Claim? {
      ClaimLeavesWaiting(db.runs[r], db.breakers, e.claim, db.nextToken, i);
    }
  }

  lemma {:induction false} ClockOnlyGrows(events: seq<Event>, clock: Time)
    requires InOrder(events, clock)
    ensures clock <= FinalClock(events, clock)
    decreases |events|
  {
    if events != [] { ClockOnlyGrows(events[1..], Tick(events[0], clock)); }
  }

  /** Until its retry time has come, a deferred row of a version 6 run that is still RUNNING is exactly as the
      deferral left it: over every interleaving in clock order it is neither handed out nor rewritten. */
  lemma {:induction false} DeferredRowWaits(db: Db, events: seq<Event>, r: RunId, i: nat, clock: Time)
    requires DbOk(db) && AllWellTyped(events) && InOrder(events, clock)
    requires IsRunning(db, r) && IsV6(db.runs[r]) && IsRunning(Exec(db, events), r)
    requires i < |db.runs[r].items| && db.runs[r].items[i].status == Pending
    requires Waits(db.runs[r].items[i], FinalClock(events, clock))
    ensures i < |Exec(db, events).runs[r].items| && Exec(db, events).runs[r].items[i] == db.runs[r].items[i]
    decreases |events|
  {
    hide Apply, DbOk;
    if events != [] {
      var db1, now := Apply(db, events[0]), Tick(events[0], clock);
      StepKeepsOk(db, events[0]);
      StepEvolves(db, events[0], r);
      if !IsRunning(db1, r) { FinishedRunIsFrozen(db1, events[1..], r); }
      ClockOnlyGrows(events[1..], now);
      StepLeavesWaiting(db, events[0], r, i, clock);
      DeferredRowWaits(db1, events[1..], r, i, now);
    }
  }

  /** So a deferral is kept: until its retry time the row it opened has its retry time, reason, category and
      code, and no claim. */
  lemma {:induction false} DeferralIsKept(db: Db, d: DeferRequest, i: nat, events: seq<Event>)
    requires DbOk(db) && HoldsAt(db, d.run, d.key, d.token, d.now, i) && d.nextAttempt > d.now && d.reason != ""
    requires IsV6(db.runs[d.run]) && AllWellTyped(events) && InOrder(events, d.now)
    requires IsRunning(Exec(Defer(db, d).db, events), d.run) && FinalClock(events, d.now) < d.nextAttempt
    ensures i < |Exec(Defer(db, d).db, events).runs[d.run].items|
    ensures
      var b := Exec(Defer(db, d).db, events).runs[d.run].items[i];
      && b.status == Pending && b.nextAttempt == Some(d.nextAttempt) && b.deferralReason == Some(Shortened(d.reason))
      && b.errorCode == Some("Deferred") && b.lastErrorCategory == d.category && b.lastErrorCode == d.code
      && b.token == None && b.claimExpires == None && b.finishedAt == None
  {
    hide Exec, DbOk, Defer;
    var after := Apply(db, Deferral(d));
    DeferTouchesTheHolderAlone(db, d);
    StepKeepsOk(db, Deferral(d));
    DeferredRowWaits(after, events, d.run, i, d.now);
  }
}
