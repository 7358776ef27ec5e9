/** The refresh tables as one mutable store: each method is a transaction of the source, proved against the
    function that specifies it. A failing transaction leaves every table as it was. */
module RefreshStore {
  import opened Wrappers
  import opened Scheduler
  import opened RetryPolicy
  import opened RefreshModel

  /** The inner scan of a version 6 claim: the first earlier row that blocks row k. */
  method FindBlocker(rows: seq<Item>, k: nat, breakers: map<Provider, Breaker>, now: Time)
    returns (blocked: bool, prerequisite: Option<Time>)
    requires k < |rows|
    ensures blocked <==> FirstBlocker(rows, k, breakers, now).Some?
    ensures prerequisite ==
      (var b := FirstBlocker(rows, k, breakers, now);
       if b.Some? && Future(rows[b.value].nextAttempt, now) && IsPhase(rows[k].task)
       then rows[b.value].nextAttempt else None)
  {
    blocked, prerequisite := false, None;
    var task := rows[k].task;
    for e := 0 to k
      invariant !blocked && prerequisite.None?
      invariant forall i :: 0 <= i < e ==> !Blocks(rows[i], task, breakers, now)
    {
      var earlier := rows[e];
      if earlier.status.Succeeded? || earlier.status.Partial? || earlier.status.Skipped? { continue; }
      if earlier.status.Failed? && !Retryable(earlier) { continue; }
      if Future(earlier.nextAttempt, now) {
        if IsPhase(task) {
          FirstBlockerIs(rows, k, breakers, now, e);
          return true, earlier.nextAttempt;
        }
        continue;
      }
      if Eligible(earlier.task, breakers, now) {
        FirstBlockerIs(rows, k, breakers, now, e);
        return true, None;
      }
    }
  }

  /** One iteration of a version 6 scan: choose the row, or say what passing over it writes. */
  method VisitRow(rows: seq<Item>, k: nat, breakers: map<Provider, Breaker>, c: ClaimRequest)
    returns (chosen: bool, passed: Item)
    requires k < |rows|
    ensures chosen <==> Ready(rows, k, breakers, c)
    ensures !chosen ==> passed == PassOver(rows, k, breakers, c)
  {
    var row := rows[k];
    if c.expected.Some? && row.key != c.expected.value { return false, row; }
    if row.acquisitions >= MAX_ATTEMPTS { return false, row; }
    if row.status.Failed? && !Retryable(row) { return false, row; }
    if Future(row.nextAttempt, c.now) { return false, row; }
    if row.status.Claimed? && Future(row.claimExpires, c.now) { return false, row; }
    if !(row.status.Pending? || row.status.Failed? || row.status.Claimed?) { return false, row; }
    if !Eligible(row.task, breakers, c.now) {
      return false, PublisherCooldown(row, DeferralStamp(BreakerOf(row.task, breakers)));
    }
    var blocked, prerequisite := FindBlocker(rows, k, breakers, c.now);
    if blocked {
      return false, if prerequisite.Some? then DependencyDeferred(row, prerequisite.value) else row;
    }
    return true, row;
  }

  /** The scan of a version 6 claim, stamping deferrals on the rows it passes over. */
  method ScanV6(rows: seq<Item>, breakers: map<Provider, Breaker>, c: ClaimRequest, token: Token)
    returns (updated: seq<Item>, chosen: Option<nat>)
    ensures chosen == V6Pick(rows, breakers, c) && updated == V6Rows(rows, breakers, c, token)
  {
    updated, chosen := rows, None;
    for k := 0 to |rows|
      invariant |updated| == |rows| && chosen.None?
      invariant forall i :: 0 <= i < k ==> updated[i] == PassOver(rows, i, breakers, c) && !Ready(rows, i, breakers, c)
      invariant forall i :: k <= i < |rows| ==> updated[i] == rows[i]
    {
      var ready, passed := VisitRow(rows, k, breakers, c);
      if ready {
        FirstReadyIs(rows, breakers, c, k);
        updated, chosen := updated[k := HandOutV6(rows[k], token, c.expires)], Some(k);
        return;
      }
      updated := updated[k := passed];
    }
  }

  /** The query of an older manifest: the first eligible row, refused if the caller expects another. */
  method SelectLegacy(rows: seq<Item>, c: ClaimRequest) returns (chosen: Option<nat>)
    ensures chosen == LegacyPick(rows, c)
  {
    for k := 0 to |rows|
      invariant forall i :: 0 <= i < k ==> !LegacyEligible(rows[i], c.now)
    {
      if LegacyEligible(rows[k], c.now) {
        FirstLegacyIs(rows, c.now, k);
        return if c.expected.None? || rows[k].key == c.expected.value then Some(k) else None;
      }
    }
    chosen := None;
  }

  class Store {
    var runs: map<RunId, Run>
    var lease: Option<Lease>
    var breakers: map<Provider, Breaker>
    var nextToken: Token
    var marked: set<Token>
    var lastSuccess: Option<Time>

    function Contents(): Db
      reads this
    {
      Db(runs, lease, breakers, nextToken, marked, lastSuccess)
    }

    constructor ()
      ensures Contents() == EMPTY
    {
      runs, lease, breakers, nextToken, marked, lastSuccess := map[], None, map[], 0, {}, None;
    }

    method CreateOrResume(s: StartRequest) returns (r: Result<Run, Error>)
      modifies this
      ensures RefreshModel.CreateOrResume(old(Contents()), s) == Outcome(Contents(), r)
    {
      if s.leaseExpires <= s.now { return Err(InputError); }
      if s.run in runs && !runs[s.run].state.Running? {
        if !SameManifest(runs[s.run], s) { return Err(IdempotencyError); }
        return Ok(runs[s.run]);
      }
      var table := runs;
      if lease.Some? && lease.value.owner != s.run && lease.value.expires <= s.now {
        var owner := lease.value.owner;
        if owner in table && table[owner].state.Running? {
          if HasActiveClaim(table[owner].items, s.now) { return Err(LeaseConflict(owner)); }
          table := table[owner := AbandonRun(table[owner], s.now)];
        }
      }
      if lease.Some? && lease.value.owner != s.run && lease.value.expires > s.now {
        return Err(LeaseConflict(lease.value.owner));
      }
      var renewed := RenewedLease(lease, s.run, s.leaseExpires);
      if s.run in table {
        if !SameManifest(table[s.run], s) { return Err(IdempotencyError); }
      } else {
        if !UniqueSpecs(s.specs) { return Err(IntegrityError); }
        table := table[s.run := NewRun(s)];
      }
      runs, lease := table, Some(renewed);
      r := Ok(runs[s.run]);
    }

    method ClaimNext(c: ClaimRequest) returns (r: Result<Option<Item>, Error>)
      modifies this`runs, this`nextToken
      ensures RefreshModel.ClaimNext(old(Contents()), c) == Outcome(Contents(), r)
    {
      if c.expires <= c.now { return Err(InputError); }
      if !(c.run in runs && runs[c.run].state.Running?) { return Ok(None); }
      if !(lease.Some? && lease.value.owner == c.run && lease.value.expires > c.now) { return Ok(None); }
      var run := runs[c.run];
      var rows := Exhausted(run.items, c.now);
      var chosen: Option<nat> := None;
      if !HasActiveClaim(rows, c.now) {
        if IsV6(run) {
          rows, chosen := ScanV6(rows, breakers, c, nextToken);
        } else {
          chosen := SelectLegacy(rows, c);
          if chosen.Some? { rows := rows[chosen.value := HandOut(rows[chosen.value], nextToken, c.expires)]; }
        }
      }
      runs := runs[c.run := run.(items := rows)];
      if chosen.None? { return Ok(None); }
      nextToken := nextToken + 1;
      r := Ok(Some(rows[chosen.value]));
    }

    method MarkAcquisition(m: MarkRequest) returns (r: Result<(), Error>)
      modifies this`runs, this`marked
      ensures RefreshModel.MarkAcquisition(old(Contents()), m) == Outcome(Contents(), r)
    {
      if m.run !in runs { return Err(AcquisitionNotCurrent); }
      var items := runs[m.run].items;
      if !exists i :: 0 <= i < |items| && MarkMatches(items[i], m) { return Err(AcquisitionNotCurrent); }
      if m.token !in marked {
        runs := runs[m.run := runs[m.run].(items := MapItems(items, it => MarkItem(it, m)))];
        marked := marked + {m.token};
      }
      r := Ok(());
    }

    method Defer(d: DeferRequest) returns (r: Result<bool, Error>)
      modifies this`runs
      ensures RefreshModel.Defer(old(Contents()), d) == Outcome(Contents(), r)
    {
      if d.nextAttempt <= d.now || d.reason == "" { return Err(InputError); }
      if !RunningWithLease(Contents(), d.run, d.now) { return Ok(false); }
      var items := runs[d.run].items;
      runs := runs[d.run := runs[d.run].(items := MapItems(items, it => DeferItem(it, d)))];
      r := Ok(SomeHolder(items, d.key, d.token, d.now));
    }

    method Complete(c: Completion) returns (r: Result<bool, Error>)
      requires IsOutcome(c.status)
      modifies this`runs
      ensures RefreshModel.Complete(old(Contents()), c) == Outcome(Contents(), r)
    {
      if !RunningWithLease(Contents(), c.run, c.finishedAt) { return Ok(false); }
      var items := runs[c.run].items;
      runs := runs[c.run := runs[c.run].(items := MapItems(items, it => CompleteItem(it, c)))];
      r := Ok(SomeHolder(items, c.key, c.token, c.finishedAt));
    }

    method PersistCutoff(u: CutoffRequest) returns (r: Result<Time, Error>)
      modifies this`runs, this`lease
      ensures RefreshModel.PersistCutoff(old(Contents()), u) == Outcome(Contents(), r)
    {
      if u.leaseExpires <= u.now || lease.None? { return Err(PersistenceError); }
      if lease.value.owner != u.run || lease.value.expires <= u.now { return Err(LeaseConflict(lease.value.owner)); }
      if !(u.run in runs && runs[u.run].state.Running?) { return Err(PersistenceError); }
      var run := runs[u.run];
      var persisted: Option<Time>;
      match u.phase {
        case DerivedPhase =>
          persisted := run.derivedCutoff;
          if persisted.None? { run := run.(derivedCutoff := Some(u.cutoff)); }
        case MacroPhase =>
          if run.derivedCutoff.None? { return Err(CutoffOrderError); }
          if u.cutoff < run.derivedCutoff.value { return Err(PersistenceError); }
          persisted := run.macroCutoff;
          if persisted.None? { run := run.(macroCutoff := Some(u.cutoff)); }
      }
      runs := runs[u.run := run];
      lease := Some(RenewedLease(lease, u.run, u.leaseExpires));
      r := Ok(if persisted.Some? then persisted.value else u.cutoff);
    }

    method Finalize(f: Finalization) returns (r: Result<bool, Error>)
      requires !f.state.Running?
      modifies this`runs, this`lease, this`lastSuccess
      ensures RefreshModel.Finalize(old(Contents()), f) == Outcome(Contents(), r)
    {
      if !RunningWithLease(Contents(), f.run, f.finishedAt) { return Ok(false); }
      var run := runs[f.run];
      for i := 0 to |run.items|
        invariant forall k :: 0 <= k < i ==> Settled(IsV6(run), run.items[k])
      {
        var it := run.items[i];
        if it.status.Claimed? || (it.status.Pending? && !(IsV6(run) && it.deferralReason.Some?)) { return Ok(false); }
        if it.status.Failed? && (if IsV6(run) then Retryable(it) else it.attempt < MAX_ATTEMPTS) { return Ok(false); }
      }
      if f.state.RunSucceeded? && exists i :: 0 <= i < |run.items| && !run.items[i].status.Succeeded? {
        return Ok(false);
      }
      runs := runs[f.run := run.(state := f.state, finishedAt := Some(f.finishedAt),
                                 finalResult := Some(f.finalResult))];
      if f.lastSuccess.Some? { lastSuccess := f.lastSuccess; }
      lease := None;
      r := Ok(true);
    }
  }
}
