/** The verdict a worker computes from a snapshot, and what is recorded in the end. */
module RefreshVerdict {
  import opened Wrappers
  import opened Scheduler
  import opened RetryPolicy
  import opened RefreshModel
  import opened RefreshInvariants
  import opened RefreshSafety

  // ---------- _final_state and _final_result ----------

  function FinalState(items: seq<Item>): RunState {
    if forall i :: 0 <= i < |items| ==> items[i].status.Succeeded? then RunSucceeded
    else if forall i :: 0 <= i < |items| ==> items[i].status.Failed? || items[i].status.Skipped? then RunFailed
    else RunPartial
  }

  datatype TaskStatus = TaskOk | TaskPartial | TaskError | TaskSkipped

  datatype TaskResult = TaskResult(
    name: string, status: TaskStatus, errorCode: Option<string>,
    errorCategory: Option<ErrorCategory>, lastErrorCode: Option<string>,
    retryNotBefore: Option<Time>, deferralReason: Option<string>)

  /** Pending work without a deferral and claimed work are left out of the report. */
  predicate InProgress(it: Item) {
    it.status.Claimed? || (it.status.Pending? && it.deferralReason.None?)
  }

  function ReportedStatus(it: Item): TaskStatus
    requires !InProgress(it)
  {
    match it.status
    case Succeeded => TaskOk
    case Partial => TaskPartial
    case Failed => TaskError
    case Skipped => TaskSkipped
    case Pending => TaskPartial
  }

  function ReportLine(it: Item): TaskResult
    requires !InProgress(it)
  {
    var deferred := it.status.Pending?;
    var detailed := deferred || it.status.Failed?;
    TaskResult(it.task, ReportedStatus(it), it.errorCode,
               if detailed then it.lastErrorCategory else None, if detailed then it.lastErrorCode else None,
               if deferred then it.nextAttempt else None, if deferred then it.deferralReason else None)
  }

  function Report(items: seq<Item>): seq<TaskResult> {
    if items == [] then []
    else
      var last := items[|items| - 1];
      Report(items[..|items| - 1]) + if InProgress(last) then [] else [ReportLine(last)]
  }

  function ReportStatus(results: seq<TaskResult>): TaskStatus {
    if forall i :: 0 <= i < |results| ==> results[i].status.TaskOk? then TaskOk
    else if exists i :: 0 <= i < |results| && results[i].status in {TaskOk, TaskPartial} then TaskPartial
    else TaskError
  }

  method FinalResult(items: seq<Item>) returns (results: seq<TaskResult>, status: TaskStatus)
    ensures results == Report(items) && status == ReportStatus(results)
  {
    results := [];
    var allOk, anyUsable := true, false;
    for k := 0 to |items|
      invariant results == Report(items[..k])
      invariant allOk <==> forall i :: 0 <= i < |results| ==> results[i].status.TaskOk?
      invariant anyUsable <==> exists i :: 0 <= i < |results| && results[i].status in {TaskOk, TaskPartial}
    {
      assert items[..k + 1][..k] == items[..k];
      if !InProgress(items[k]) {
        var line := ReportLine(items[k]);
        ghost var before := results;
        results := results + [line];
        assert forall i :: 0 <= i < |before| ==> results[i] == before[i];
        assert results[|before|] == line;
        allOk := allOk && line.status.TaskOk?;
        anyUsable := anyUsable || line.status.TaskOk? || line.status.TaskPartial?;
      }
    }
    assert items[..|items|] == items;
    status := if allOk then TaskOk else if anyUsable then TaskPartial else TaskError;
  }

  predicate Agree(state: RunState, status: TaskStatus) {
    && (state.RunSucceeded? <==> status.TaskOk?)
    && (state.RunPartial? <==> status.TaskPartial?)
    && (state.RunFailed? <==> status.TaskError?)
  }

  /** The report holds a line of status s exactly when some finished item has it. */
  lemma {:induction false} ReportHolds(items: seq<Item>, s: TaskStatus)
    ensures (exists k :: 0 <= k < |Report(items)| && Report(items)[k].status == s)
       <==> (exists i :: 0 <= i < |items| && !InProgress(items[i]) && ReportedStatus(items[i]) == s)
  {
    if items != [] {
      var rest, last := items[..|items| - 1], items[|items| - 1];
      ReportHolds(rest, s);
      var a, b := Report(rest), Report(items);
      assert forall k :: 0 <= k < |a| ==> b[k] == a[k];
      assert forall i :: 0 <= i < |rest| ==> items[i] == rest[i];
      if !InProgress(last) { assert b[|a|] == ReportLine(last); }
    }
  }

  predicate Reports(items: seq<Item>, s: TaskStatus) {
    exists i :: 0 <= i < |items| && !InProgress(items[i]) && ReportedStatus(items[i]) == s
  }

  lemma {:induction false} ReportStatusMeans(items: seq<Item>)
    ensures
      var status := ReportStatus(Report(items));
      && (status.TaskOk? <==>
            !Reports(items, TaskPartial) && !Reports(items, TaskError) && !Reports(items, TaskSkipped))
      && (status.TaskError? <==> !status.TaskOk? && !Reports(items, TaskOk) && !Reports(items, TaskPartial))
      && !status.TaskSkipped?
  {
    hide Report;
    ReportHolds(items, TaskOk);
    ReportHolds(items, TaskPartial);
    ReportHolds(items, TaskError);
    ReportHolds(items, TaskSkipped);
  }

  /** The two summaries agree exactly when no item is in progress, or the finished items alone already
      make the run partial: a partial one, or a good one beside a bad one. */
  lemma {:induction false} SummariesAgree(items: seq<Item>)
    ensures Agree(FinalState(items), ReportStatus(Report(items))) <==>
      || (forall i :: 0 <= i < |items| ==> !InProgress(items[i]))
      || Reports(items, TaskPartial)
      || (Reports(items, TaskOk) && (Reports(items, TaskError) || Reports(items, TaskSkipped)))
  {
    hide ReportStatus, Report;
    ReportStatusMeans(items);
    forall i | 0 <= i < |items| && !InProgress(items[i]) ensures Reports(items, ReportedStatus(items[i])) {}
  }

  /** Whatever finalization accepts, the recorded state and the recorded report agree. */
  lemma {:induction false} FinalizedSummariesAgree(run: Run)
    requires AllSettled(run)
    ensures Agree(FinalState(run.items), ReportStatus(Report(run.items)))
  {
    SummariesAgree(run.items);
    forall i | 0 <= i < |run.items| ensures !InProgress(run.items[i]) { assert Settled(IsV6(run), run.items[i]); }
  }

  // ---------- what is recorded ----------

  ghost predicate SucceededMeansAll(db: Db) {
    forall r :: r in db.runs && db.runs[r].state.RunSucceeded? ==> AllSucceeded(db.runs[r].items)
  }

  lemma {:induction false} StepKeepsSucceeded(db: Db, e: Event)
    requires DbOk(db) && WellTyped(e) && SucceededMeansAll(db)
    ensures SucceededMeansAll(Apply(db, e))
  {
    var db' := Apply(db, e);
    forall r | r in db'.runs && db'.runs[r].state.RunSucceeded? ensures AllSucceeded(db'.runs[r].items) {
      if r in db.runs && !db.runs[r].state.Running? {
        StepKeepsFinishedRun(db, e, r);
      } else if e.Start? {
        StartShape(db, e.start, r);
      } else if IsRowStep(e) {
        RowStepShape(db, e, r);
      }
    }
  }

  /** Over every interleaving, and however stale the snapshots: SUCCEEDED is recorded only if every item succeeded. */
  lemma {:induction false} SucceededIsSound(db: Db, events: seq<Event>)
    requires DbOk(db) && SucceededMeansAll(db) && AllWellTyped(events)
    ensures SucceededMeansAll(Exec(db, events))
    decreases |events|
  {
    if events != [] {
      StepKeepsOk(db, events[0]);
      StepKeepsSucceeded(db, events[0]);
      SucceededIsSound(Apply(db, events[0]), events[1..]);
    }
  }

  // ---------- the lines of the report ----------

  /** Finished items are reported, and pending ones that wait on a deferral. */
  predicate IsReported(it: Item) {
    it.status in {Succeeded, Partial, Failed, Skipped} || (it.status == Pending && it.deferralReason.Some?)
  }

  function ReportedCount(items: seq<Item>): nat {
    if items == [] then 0 else ReportedCount(items[..|items| - 1]) + if IsReported(items[|items| - 1]) then 1 else 0
  }

  /** The line of each reported item stands behind those of the reported items before it. It has the item's task,
      outcome and code; a failure its last error as well; a deferral its last error, retry time and reason. */
  lemma {:induction false} ReportIsExact(items: seq<Item>, i: nat)
    ensures |Report(items)| == ReportedCount(items)
    ensures i < |items| && IsReported(items[i]) ==>
      var it, p := items[i], ReportedCount(items[..i]);
      && p < |Report(items)|
      && var line := Report(items)[p];
         && line.name == it.task && line.errorCode == it.errorCode
         && (line.status == TaskOk <==> it.status == Succeeded)
         && (line.status == TaskPartial <==> it.status in {Partial, Pending})
         && (line.status == TaskError <==> it.status == Failed)
         && line.errorCategory == (if it.status in {Failed, Pending} then it.lastErrorCategory else None)
         && line.lastErrorCode == (if it.status in {Failed, Pending} then it.lastErrorCode else None)
         && line.retryNotBefore == (if it.status == Pending then it.nextAttempt else None)
         && line.deferralReason == (if it.status == Pending then it.deferralReason else None)
  {
    if items != [] {
      var n := |items| - 1;
      ReportIsExact(items[..n], i);
      if i < n { assert items[..n][..i] == items[..i]; }
    }
  }
}
