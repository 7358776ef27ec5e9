/** The driver's resume and finalize-if-resolved: two transactions, the second fed by the first. */
module RefreshResume {
  import opened Wrappers
  import opened Scheduler
  import opened RefreshModel
  import opened RefreshInvariants
  import opened RefreshVerdict

  /** Half an hour, with the times of the protocol in seconds. */
  const LEASE_SECONDS := 1800

  function ResumeRequest(r: RunId, run: Run, now: Time): StartRequest {
    StartRequest(r, run.cycle, run.force, run.version, run.derivedCutoff, run.macroCutoff, SpecsOf(run.items),
                 if IsV6(run) then run.plan else None, now, now + LEASE_SECONDS)
  }

  lemma {:induction false} InsertLast(s: Spec, sorted: seq<Spec>)
    requires forall i :: 0 <= i < |sorted| ==> sorted[i].order < s.order
    ensures InsertSpec(s, sorted) == sorted + [s]
  {
    if sorted != [] {
      InsertLast(s, sorted[1..]);
      assert sorted == [sorted[0]] + sorted[1..];
    }
  }

  lemma {:induction false} OrderedStay(specs: seq<Spec>)
    requires forall i, j :: 0 <= i < j < |specs| ==> specs[i].order < specs[j].order
    ensures OrderedSpecs(specs) == specs
  {
    if specs != [] {
      var n := |specs| - 1;
      OrderedStay(specs[..n]);
      InsertLast(specs[n], specs[..n]);
      assert specs == specs[..n] + [specs[n]];
    }
  }

  lemma {:induction false} OwnSpecsAreOrdered(run: Run, next: Token, marked: set<Token>)
    requires RunOk(run, next, marked)
    ensures OrderedSpecs(SpecsOf(run.items)) == SpecsOf(run.items)
  {
    OrderedStay(SpecsOf(run.items));
  }

  /** Starting the RUNNING run again renews its lease if the request has its manifest, even after the lease
      expired, and is refused otherwise. */
  lemma {:induction false} SameManifestRenews(db: Db, s: StartRequest)
    requires DbOk(db) && IsRunning(db, s.run) && s.now < s.leaseExpires
    ensures CreateOrResume(db, s) ==
      if SameManifest(db.runs[s.run], s)
      then Outcome(db.(lease := Some(RenewedLease(db.lease, s.run, s.leaseExpires))), Ok(db.runs[s.run]))
      else Outcome(db, Err(IdempotencyError))
  {
    hide SameManifest;
  }

  /** Resume reads the stored plan of a version 6 run only; creation accepts a plan with any manifest. */
  predicate PlanFits(run: Run) {
    IsV6(run) || run.plan.None?
  }

  /** Resuming a RUNNING run from its own snapshot succeeds, even after its lease expired: it returns the run
      as it is and changes nothing but the expiry of the lease. Only an older manifest with a plan is refused. */
  lemma {:induction false} ResumeOnlyRenewsTheLease(db: Db, r: RunId, now: Time)
    requires DbOk(db) && IsRunning(db, r)
    ensures
      var s := ResumeRequest(r, db.runs[r], now);
      if PlanFits(db.runs[r]) then
        && CreateOrResume(db, s)
             == Outcome(db.(lease := Some(RenewedLease(db.lease, r, now + 1800))), Ok(db.runs[r]))
        && LiveLease(CreateOrResume(db, s).db, r, now)
      else CreateOrResume(db, s) == Outcome(db, Err(IdempotencyError))
  {
    hide CreateOrResume;
    OwnSpecsAreOrdered(db.runs[r], db.nextToken, db.marked);
    SameManifestRenews(db, ResumeRequest(r, db.runs[r], now));
  }

  function FinalizeIfResolved(db: Db, r: RunId, now: Time): Db
    requires r in db.runs
  {
    if !db.runs[r].state.Running? then db
    else
      var resumed := CreateOrResume(db, ResumeRequest(r, db.runs[r], now));
      if resumed.result.Err? || !resumed.result.value.state.Running? then resumed.db
      else
        var items := resumed.result.value.items;
        var usable := exists i :: 0 <= i < |items| && (items[i].status.Succeeded? || items[i].status.Partial?);
        Finalize(resumed.db, Finalization(r, FinalState(items), "", now, if usable then Some(now) else None)).db
  }

  /** Undisturbed, it finalizes exactly the settled runs, with the verdict of their items, releases the lease and
      records a last success if any item gave data; any other run only has its lease renewed, and one that
      cannot be resumed is left alone. */
  lemma {:induction false} FinalizesExactlySettledRuns(db: Db, r: RunId, now: Time)
    requires DbOk(db) && IsRunning(db, r)
    ensures
      var run, db' := db.runs[r], FinalizeIfResolved(db, r, now);
      && r in db'.runs && db'.runs[r].items == run.items
      && (if !PlanFits(run) then db' == db
          else if AllSettled(run) then
            && db'.runs[r].state == FinalState(run.items) && db'.runs[r].finishedAt == Some(now)
            && db'.lease.None?
            && db'.lastSuccess == if exists i :: 0 <= i < |run.items| && run.items[i].status in {Succeeded, Partial}
                                  then Some(now) else db.lastSuccess
          else db' == db.(lease := Some(RenewedLease(db.lease, r, now + 1800))))
  {
    hide CreateOrResume, ResumeRequest;
    ResumeOnlyRenewsTheLease(db, r, now);
  }
}
