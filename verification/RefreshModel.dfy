/** The persisted rows of the resumable refresh protocol, and each transaction as a function on them. */
module RefreshModel {
  import opened Wrappers
  import opened Scheduler
  import opened RetryPolicy

  type RunId = string
  type ItemKey = string
  type Token = nat

  const V6 := "daily-refresh-v6"

  datatype RunState = Running | RunSucceeded | RunPartial | RunFailed

  datatype Status = Pending | Claimed | Succeeded | Partial | Failed | Skipped

  /** A row of refresh_work_items. */
  datatype Item = Item(
    key: ItemKey,
    task: string,
    order: int,
    status: Status,
    attempt: nat,
    generation: nat,
    acquisitions: nat,
    token: Option<Token>,
    claimExpires: Option<Time>,
    finishedAt: Option<Time>,
    seriesUpdated: nat,
    recordCount: nat,
    errorCode: Option<string>,
    nextAttempt: Option<Time>,
    deferralReason: Option<string>,
    lastErrorCategory: Option<ErrorCategory>,
    lastErrorCode: Option<string>)

  /** A row of refresh_runs with its work items in task order and the digest of its frozen plan. */
  datatype Run = Run(
    state: RunState,
    cycle: string,
    force: bool,
    version: string,
    derivedCutoff: Option<Time>,
    macroCutoff: Option<Time>,
    finishedAt: Option<Time>,
    finalResult: Option<string>,
    plan: Option<string>,
    items: seq<Item>)

  datatype Lease = Lease(owner: RunId, expires: Time)

  /** nextToken stands for uuid4: a token is never issued twice. marked holds the claims whose
      outbound acquisition has been counted; lastSuccess is the meta row last_successful_update. */
  datatype Db = Db(
    runs: map<RunId, Run>,
    lease: Option<Lease>,
    breakers: map<Provider, Breaker>,
    nextToken: Token,
    marked: set<Token>,
    lastSuccess: Option<Time>)

  const EMPTY := Db(map[], None, map[], 0, {}, None)

  datatype Error =
    | InputError | IdempotencyError | LeaseConflict(owner: RunId) | PersistenceError
    | CutoffOrderError | IntegrityError | AcquisitionNotCurrent

  /** A transaction's state and what its caller sees; an exception rolls the state back. */
  datatype Outcome<+T> = Outcome(db: Db, result: Result<T, Error>)

  // ---------- rows ----------

  function MapItems(items: seq<Item>, f: Item -> Item): (r: seq<Item>)
    ensures |r| == |items|
    ensures forall i :: 0 <= i < |items| ==> r[i] == f(items[i])
  {
    seq(|items|, i requires 0 <= i < |items| => f(items[i]))
  }

  predicate IsV6(run: Run) {
    run.version == V6
  }

  predicate LiveLease(db: Db, r: RunId, now: Time) {
    db.lease.Some? && db.lease.value.owner == r && db.lease.value.expires > now
  }

  predicate RunningWithLease(db: Db, r: RunId, now: Time) {
    r in db.runs && db.runs[r].state.Running? && LiveLease(db, r, now)
  }

  function SetItems(db: Db, r: RunId, items: seq<Item>): Db
    requires r in db.runs
  {
    db.(runs := db.runs[r := db.runs[r].(items := items)])
  }

  predicate ActiveClaim(it: Item, now: Time) {
    it.status.Claimed? && Future(it.claimExpires, now)
  }

  predicate HasActiveClaim(items: seq<Item>, now: Time) {
    exists i :: 0 <= i < |items| && ActiveClaim(items[i], now)
  }

  // ---------- create or resume ----------

  datatype Spec = Spec(key: ItemKey, task: string, order: int)

  datatype StartRequest = StartRequest(
    run: RunId, cycle: string, force: bool, version: string,
    derivedCutoff: Option<Time>, macroCutoff: Option<Time>,
    specs: seq<Spec>, plan: Option<string>, now: Time, leaseExpires: Time)

  function InsertSpec(s: Spec, sorted: seq<Spec>): seq<Spec> {
    if sorted == [] || s.order < sorted[0].order then [s] + sorted
    else [sorted[0]] + InsertSpec(s, sorted[1..])
  }

  /** Stable sort by task_order. */
  function OrderedSpecs(specs: seq<Spec>): seq<Spec> {
    if specs == [] then [] else InsertSpec(specs[|specs| - 1], OrderedSpecs(specs[..|specs| - 1]))
  }

  /** The primary key and the unique (run_id, task_order) of refresh_work_items. */
  predicate UniqueSpecs(specs: seq<Spec>) {
    forall i, j :: 0 <= i < j < |specs| ==> specs[i].key != specs[j].key && specs[i].order != specs[j].order
  }

  function SpecsOf(items: seq<Item>): seq<Spec> {
    seq(|items|, i requires 0 <= i < |items| => Spec(items[i].key, items[i].task, items[i].order))
  }

  predicate SameManifest(run: Run, s: StartRequest) {
    && s.plan == run.plan
    && run.cycle == s.cycle
    && run.force == s.force
    && run.version == s.version
    && (s.derivedCutoff.None? || run.derivedCutoff == s.derivedCutoff)
    && (s.macroCutoff.None? || run.macroCutoff == s.macroCutoff)
    && SpecsOf(run.items) == OrderedSpecs(s.specs)
  }

  function FreshItem(s: Spec): Item {
    Item(s.key, s.task, s.order, Pending, 0, 0, 0, None, None, None, 0, 0, None, None, None, None, None)
  }

  function FreshItems(specs: seq<Spec>): (r: seq<Item>)
    ensures |r| == |specs| && forall i :: 0 <= i < |specs| ==> r[i] == FreshItem(specs[i])
  {
    seq(|specs|, i requires 0 <= i < |specs| => FreshItem(specs[i]))
  }

  function NewRun(s: StartRequest): Run {
    Run(Running, s.cycle, s.force, s.version, s.derivedCutoff, s.macroCutoff, None, None, s.plan,
        FreshItems(OrderedSpecs(s.specs)))
  }

  function AbandonItem(it: Item, now: Time): Item {
    if it.status.Pending? || it.status.Claimed? then
      it.(status := Failed, token := None, claimExpires := None, finishedAt := Some(now),
          errorCode := Some("RefreshLeaseExpired"))
    else it
  }

  function AbandonRun(run: Run, now: Time): Run {
    run.(state := RunFailed, finishedAt := Some(now),
         finalResult := Some("{\"status\":\"error\",\"error_code\":\"RefreshLeaseExpired\"}"),
         items := MapItems(run.items, it => AbandonItem(it, now)))
  }

  predicate IsRunning(db: Db, r: RunId) {
    r in db.runs && db.runs[r].state.Running?
  }

  /** Fail the run that still holds an expired lease; a claim it has not outlived blocks the takeover. */
  function AbandonExpired(db: Db, s: StartRequest): Result<map<RunId, Run>, Error> {
    if db.lease.None? || db.lease.value.owner == s.run || db.lease.value.expires > s.now then Ok(db.runs)
    else
      var owner := db.lease.value.owner;
      if !IsRunning(db, owner) then Ok(db.runs)
      else if HasActiveClaim(db.runs[owner].items, s.now) then Err(LeaseConflict(owner))
      else Ok(db.runs[owner := AbandonRun(db.runs[owner], s.now)])
  }

  predicate LeaseAvailable(lease: Option<Lease>, r: RunId, now: Time) {
    lease.None? || lease.value.owner == r || lease.value.expires <= now
  }

  function RenewedLease(lease: Option<Lease>, r: RunId, expires: Time): Lease {
    Lease(r, if lease.Some? && lease.value.expires >= expires then lease.value.expires else expires)
  }

  function CreateOrResume(db: Db, s: StartRequest): Outcome<Run> {
    if s.leaseExpires <= s.now then Outcome(db, Err(InputError))
    else if s.run in db.runs && !db.runs[s.run].state.Running? then
      Outcome(db, if SameManifest(db.runs[s.run], s) then Ok(db.runs[s.run]) else Err(IdempotencyError))
    else
      var abandoned := AbandonExpired(db, s);
      if abandoned.Err? then Outcome(db, Err(abandoned.error))
      else if !LeaseAvailable(db.lease, s.run, s.now) then Outcome(db, Err(LeaseConflict(db.lease.value.owner)))
      else
        var held := db.(runs := abandoned.value, lease := Some(RenewedLease(db.lease, s.run, s.leaseExpires)));
        if s.run in held.runs then
          if SameManifest(held.runs[s.run], s) then Outcome(held, Ok(held.runs[s.run]))
          else Outcome(db, Err(IdempotencyError))
        else if !UniqueSpecs(s.specs) then Outcome(db, Err(IntegrityError))
        else Outcome(held.(runs := held.runs[s.run := NewRun(s)]), Ok(NewRun(s)))
  }

  // ---------- claim ----------

  datatype ClaimRequest = ClaimRequest(run: RunId, now: Time, expires: Time, expected: Option<ItemKey>)

  /** An expired claim that has used its last attempt becomes a failure. */
  function ExhaustItem(it: Item, now: Time): Item {
    if it.status.Claimed? && it.attempt >= MAX_ATTEMPTS && Past(it.claimExpires, now) then
      it.(status := Failed, token := None, claimExpires := None, finishedAt := None,
          errorCode := Some("AttemptLimitExceeded"))
    else it
  }

  function Exhausted(items: seq<Item>, now: Time): seq<Item> {
    MapItems(items, it => ExhaustItem(it, now))
  }

  predicate LegacyEligible(it: Item, now: Time) {
    || it.status.Pending?
    || (it.status.Failed? && it.attempt < MAX_ATTEMPTS)
    || (it.status.Claimed? && it.attempt < MAX_ATTEMPTS && Past(it.claimExpires, now))
  }

  /** The first index from k that satisfies p. */
  function FirstFrom(n: nat, p: nat -> bool, k: nat): (r: Option<nat>)
    requires k <= n
    ensures r.Some? ==> k <= r.value < n && p(r.value) && forall i :: k <= i < r.value ==> !p(i)
    ensures r.None? ==> forall i :: k <= i < n ==> !p(i)
    decreases n - k
  {
    if k == n then None else if p(k) then Some(k) else FirstFrom(n, p, k + 1)
  }

  function FirstLegacy(rows: seq<Item>, now: Time): Option<nat> {
    FirstFrom(|rows|, (i: nat) => i < |rows| && LegacyEligible(rows[i], now), 0)
  }

  /** Only the first eligible item may be handed out, and only if the caller expects it. */
  function LegacyPick(rows: seq<Item>, c: ClaimRequest): Option<nat> {
    var first := FirstLegacy(rows, c.now);
    if first.Some? && (c.expected.None? || rows[first.value].key == c.expected.value) then first else None
  }

  function HandOut(it: Item, token: Token, expires: Time): Item {
    it.(status := Claimed, attempt := it.attempt + 1, generation := it.generation + 1, token := Some(token),
        claimExpires := Some(expires), finishedAt := None, seriesUpdated := 0, recordCount := 0, errorCode := None)
  }

  function HandOutV6(it: Item, token: Token, expires: Time): Item {
    HandOut(it, token, expires).(nextAttempt := None, deferralReason := None)
  }

  predicate Retryable(it: Item) {
    FailedWorkItemIsRetryable(it.task, it.lastErrorCategory, it.acquisitions, it.attempt)
  }

  /** Whether a row of a version 6 run reaches the provider check at all. */
  predicate Considered(it: Item, c: ClaimRequest) {
    && (c.expected.None? || it.key == c.expected.value)
    && it.acquisitions < MAX_ATTEMPTS
    && !(it.status.Failed? && !Retryable(it))
    && !Future(it.nextAttempt, c.now)
    && !ActiveClaim(it, c.now)
    && (it.status.Pending? || it.status.Failed? || it.status.Claimed?)
  }

  predicate ResolvedV6(it: Item) {
    it.status.Succeeded? || it.status.Partial? || it.status.Skipped? || (it.status.Failed? && !Retryable(it))
  }

  /** Whether an earlier row keeps a row with the given task from being handed out. */
  predicate Blocks(earlier: Item, task: string, breakers: map<Provider, Breaker>, now: Time) {
    && !ResolvedV6(earlier)
    && (if Future(earlier.nextAttempt, now) then IsPhase(task) else Eligible(earlier.task, breakers, now))
  }

  function FirstBlocker(rows: seq<Item>, k: nat, breakers: map<Provider, Breaker>, now: Time): Option<nat>
    requires k < |rows|
  {
    FirstFrom(k, (i: nat) => i < k && Blocks(rows[i], rows[k].task, breakers, now), 0)
  }

  predicate Ready(rows: seq<Item>, k: nat, breakers: map<Provider, Breaker>, c: ClaimRequest)
    requires k < |rows|
  {
    && Considered(rows[k], c)
    && Eligible(rows[k].task, breakers, c.now)
    && FirstBlocker(rows, k, breakers, c.now).None?
  }

  function PublisherCooldown(it: Item, at: Option<Time>): Item {
    if at.Some? && (it.status.Pending? || it.status.Failed?) then
      it.(nextAttempt := at, deferralReason := Some("publisher_cooldown"), errorCode := Some("Deferred"))
    else it
  }

  function DependencyDeferred(it: Item, at: Time): Item {
    if it.status.Pending? && it.deferralReason.None? then
      it.(nextAttempt := Some(at), deferralReason := Some("source_dependency_deferred"), errorCode := Some("Deferred"))
    else it
  }

  /** What one pass of the scan writes on a row it does not choose. */
  function PassOver(rows: seq<Item>, k: nat, breakers: map<Provider, Breaker>, c: ClaimRequest): Item
    requires k < |rows|
  {
    var it := rows[k];
    if !Considered(it, c) then it
    else if !Eligible(it.task, breakers, c.now) then PublisherCooldown(it, DeferralStamp(BreakerOf(it.task, breakers)))
    else
      var blocker := FirstBlocker(rows, k, breakers, c.now);
      if blocker.Some? && Future(rows[blocker.value].nextAttempt, c.now) && IsPhase(it.task)
      then DependencyDeferred(it, rows[blocker.value].nextAttempt.value)
      else it
  }

  function V6Pick(rows: seq<Item>, breakers: map<Provider, Breaker>, c: ClaimRequest): Option<nat> {
    FirstFrom(|rows|, (k: nat) => k < |rows| && Ready(rows, k, breakers, c), 0)
  }

  /** Every row before the chosen one (all of them if none is chosen) is passed over. */
  function V6Rows(rows: seq<Item>, breakers: map<Provider, Breaker>, c: ClaimRequest, token: Token): (r: seq<Item>)
    ensures |r| == |rows|
  {
    var pick := V6Pick(rows, breakers, c);
    seq(|rows|, i requires 0 <= i < |rows| =>
      if pick.None? || i < pick.value then PassOver(rows, i, breakers, c)
      else if i == pick.value then HandOutV6(rows[i], token, c.expires)
      else rows[i])
  }

  function Pick(run: Run, breakers: map<Provider, Breaker>, c: ClaimRequest): Option<nat> {
    var rows := Exhausted(run.items, c.now);
    if HasActiveClaim(rows, c.now) then None
    else if IsV6(run) then V6Pick(rows, breakers, c)
    else LegacyPick(rows, c)
  }

  function ClaimedRows(run: Run, breakers: map<Provider, Breaker>, c: ClaimRequest, token: Token): (r: seq<Item>)
    ensures |r| == |run.items|
  {
    var rows := Exhausted(run.items, c.now);
    if HasActiveClaim(rows, c.now) then rows
    else if IsV6(run) then V6Rows(rows, breakers, c, token)
    else
      var pick := LegacyPick(rows, c);
      if pick.None? then rows else rows[pick.value := HandOut(rows[pick.value], token, c.expires)]
  }

  function ClaimNext(db: Db, c: ClaimRequest): Outcome<Option<Item>> {
    if c.expires <= c.now then Outcome(db, Err(InputError))
    else if !RunningWithLease(db, c.run, c.now) then Outcome(db, Ok(None))
    else
      var run := db.runs[c.run];
      var pick := Pick(run, db.breakers, c);
      var rows := ClaimedRows(run, db.breakers, c, db.nextToken);
      var after := SetItems(db, c.run, rows);
      if pick.None? then Outcome(after, Ok(None))
      else Outcome(after.(nextToken := db.nextToken + 1), Ok(Some(rows[pick.value])))
  }

  // The scans stop at the first match.

  lemma {:induction false} FirstBlockerIs(rows: seq<Item>, k: nat, breakers: map<Provider, Breaker>, now: Time, e: nat)
    requires e < k < |rows| && Blocks(rows[e], rows[k].task, breakers, now)
    requires forall i :: 0 <= i < e ==> !Blocks(rows[i], rows[k].task, breakers, now)
    ensures FirstBlocker(rows, k, breakers, now) == Some(e)
  {
    assert ((i: nat) => i < k && Blocks(rows[i], rows[k].task, breakers, now))(e);
  }

  lemma {:induction false} FirstReadyIs(rows: seq<Item>, breakers: map<Provider, Breaker>, c: ClaimRequest, k: nat)
    requires k < |rows| && Ready(rows, k, breakers, c)
    requires forall i :: 0 <= i < k ==> !Ready(rows, i, breakers, c)
    ensures V6Pick(rows, breakers, c) == Some(k)
  {
    assert ((i: nat) => i < |rows| && Ready(rows, i, breakers, c))(k);
  }

  lemma {:induction false} FirstLegacyIs(rows: seq<Item>, now: Time, k: nat)
    requires k < |rows| && LegacyEligible(rows[k], now)
    requires forall i :: 0 <= i < k ==> !LegacyEligible(rows[i], now)
    ensures FirstLegacy(rows, now) == Some(k)
  {
    assert ((i: nat) => i < |rows| && LegacyEligible(rows[i], now))(k);
  }

  // ---------- acquisition mark, defer, complete ----------

  predicate HoldsClaim(it: Item, key: ItemKey, token: Token, now: Time) {
    it.key == key && it.status.Claimed? && it.token == Some(token) && Future(it.claimExpires, now)
  }

  predicate SomeHolder(items: seq<Item>, key: ItemKey, token: Token, now: Time) {
    exists i :: 0 <= i < |items| && HoldsClaim(items[i], key, token, now)
  }

  datatype MarkRequest = MarkRequest(run: RunId, key: ItemKey, generation: nat, token: Token, now: Time)

  predicate MarkMatches(it: Item, m: MarkRequest) {
    HoldsClaim(it, m.key, m.token, m.now) && it.generation == m.generation
  }

  function MarkItem(it: Item, m: MarkRequest): Item {
    if MarkMatches(it, m) then it.(acquisitions := it.acquisitions + 1) else it
  }

  /** Count one outbound acquisition for a claim; the second call for the same claim changes nothing. */
  function MarkAcquisition(db: Db, m: MarkRequest): Outcome<()> {
    if !(m.run in db.runs && exists i :: 0 <= i < |db.runs[m.run].items| && MarkMatches(db.runs[m.run].items[i], m))
    then Outcome(db, Err(AcquisitionNotCurrent))
    else if m.token in db.marked then Outcome(db, Ok(()))
    else
      var items := MapItems(db.runs[m.run].items, it => MarkItem(it, m));
      Outcome(SetItems(db, m.run, items).(marked := db.marked + {m.token}), Ok(()))
  }

  datatype DeferRequest = DeferRequest(
    run: RunId, key: ItemKey, token: Token, nextAttempt: Time, reason: string, now: Time,
    category: Option<ErrorCategory>, code: Option<string>)

  function DeferItem(it: Item, d: DeferRequest): Item {
    if HoldsClaim(it, d.key, d.token, d.now) then
      it.(status := Pending, token := None, claimExpires := None, finishedAt := None,
          nextAttempt := Some(d.nextAttempt), errorCode := Some("Deferred"),
          deferralReason := Some(if |d.reason| > 80 then d.reason[..80] else d.reason),
          lastErrorCategory := d.category, lastErrorCode := d.code)
    else it
  }

  function Defer(db: Db, d: DeferRequest): Outcome<bool> {
    if d.nextAttempt <= d.now || d.reason == "" then Outcome(db, Err(InputError))
    else if !RunningWithLease(db, d.run, d.now) then Outcome(db, Ok(false))
    else
      var items := db.runs[d.run].items;
      Outcome(SetItems(db, d.run, MapItems(items, it => DeferItem(it, d))),
              Ok(SomeHolder(items, d.key, d.token, d.now)))
  }

  datatype Completion = Completion(
    run: RunId, key: ItemKey, token: Token, status: Status, finishedAt: Time,
    seriesUpdated: nat, recordCount: nat, code: Option<string>, category: Option<ErrorCategory>)

  function CompleteItem(it: Item, c: Completion): Item {
    if HoldsClaim(it, c.key, c.token, c.finishedAt) then
      it.(status := c.status, lastErrorCategory := c.category, lastErrorCode := c.code,
          finishedAt := Some(c.finishedAt), seriesUpdated := c.seriesUpdated, recordCount := c.recordCount,
          errorCode := c.code)
    else it
  }

  /** The outcomes a completion may carry (RefreshWorkItemOutcome). */
  predicate IsOutcome(status: Status) {
    !status.Pending? && !status.Claimed?
  }

  function Complete(db: Db, c: Completion): Outcome<bool>
    requires IsOutcome(c.status)
  {
    if !RunningWithLease(db, c.run, c.finishedAt) then Outcome(db, Ok(false))
    else
      var items := db.runs[c.run].items;
      Outcome(SetItems(db, c.run, MapItems(items, it => CompleteItem(it, c))),
              Ok(SomeHolder(items, c.key, c.token, c.finishedAt)))
  }

  // ---------- cutoffs and finalization ----------

  datatype Phase = DerivedPhase | MacroPhase

  datatype CutoffRequest = CutoffRequest(run: RunId, phase: Phase, cutoff: Time, now: Time, leaseExpires: Time)

  function PersistCutoff(db: Db, u: CutoffRequest): Outcome<Time> {
    if u.leaseExpires <= u.now || db.lease.None? then Outcome(db, Err(PersistenceError))
    else if !LiveLease(db, u.run, u.now) then Outcome(db, Err(LeaseConflict(db.lease.value.owner)))
    else if !IsRunning(db, u.run) then Outcome(db, Err(PersistenceError))
    else
      var run := db.runs[u.run];
      if u.phase.MacroPhase? && run.derivedCutoff.None? then Outcome(db, Err(CutoffOrderError))
      else if u.phase.MacroPhase? && u.cutoff < run.derivedCutoff.value then Outcome(db, Err(PersistenceError))
      else
        var persisted := if u.phase.DerivedPhase? then run.derivedCutoff else run.macroCutoff;
        var written :=
          if persisted.Some? then run
          else if u.phase.DerivedPhase? then run.(derivedCutoff := Some(u.cutoff))
          else run.(macroCutoff := Some(u.cutoff));
        Outcome(db.(runs := db.runs[u.run := written],
                    lease := Some(RenewedLease(db.lease, u.run, u.leaseExpires))),
                Ok(if persisted.Some? then persisted.value else u.cutoff))
  }

  datatype Finalization = Finalization(
    run: RunId, state: RunState, finalResult: string, finishedAt: Time, lastSuccess: Option<Time>)

  predicate ResolvedLegacy(it: Item) {
    it.status.Succeeded? || it.status.Partial? || it.status.Skipped?
      || (it.status.Failed? && it.attempt >= MAX_ATTEMPTS)
  }

  /** Resolved items are never claimed again. */
  predicate Resolved(v6: bool, it: Item) {
    if v6 then ResolvedV6(it) else ResolvedLegacy(it)
  }

  /** Finalization also accepts, in a version 6 run, an item that is waiting on a deferral. */
  predicate Settled(v6: bool, it: Item) {
    Resolved(v6, it) || (v6 && it.status.Pending? && it.deferralReason.Some?)
  }

  predicate AllSettled(run: Run) {
    forall i :: 0 <= i < |run.items| ==> Settled(IsV6(run), run.items[i])
  }

  predicate AllSucceeded(items: seq<Item>) {
    forall i :: 0 <= i < |items| ==> items[i].status.Succeeded?
  }

  predicate Finalizable(db: Db, f: Finalization) {
    && RunningWithLease(db, f.run, f.finishedAt)
    && AllSettled(db.runs[f.run])
    && (f.state.RunSucceeded? ==> AllSucceeded(db.runs[f.run].items))
  }

  function Finalize(db: Db, f: Finalization): Outcome<bool>
    requires !f.state.Running?
  {
    if !Finalizable(db, f) then Outcome(db, Ok(false))
    else
      var run := db.runs[f.run].(state := f.state, finishedAt := Some(f.finishedAt),
                                 finalResult := Some(f.finalResult));
      Outcome(db.(runs := db.runs[f.run := run], lease := None,
                  lastSuccess := if f.lastSuccess.Some? then f.lastSuccess else db.lastSuccess),
              Ok(true))
  }

  // ---------- interleavings ----------

  /** One atomic step: a transaction of some worker, or the environment rewriting a breaker row. */
  datatype Event =
    | Start(start: StartRequest)
    | Claim(claim: ClaimRequest)
    | Mark(mark: MarkRequest)
    | Deferral(deferral: DeferRequest)
    | Finish(completion: Completion)
    | Cutoff(cutoff: CutoffRequest)
    | Final(finalization: Finalization)
    | BreakerChange(provider: Provider, breaker: Option<Breaker>)

  /** The values the request types can carry. */
  predicate WellTyped(e: Event) {
    && (e.Finish? ==> IsOutcome(e.completion.status))
    && (e.Final? ==> !e.finalization.state.Running?)
  }

  function Apply(db: Db, e: Event): Db
    requires WellTyped(e)
  {
    match e
    case Start(s) => CreateOrResume(db, s).db
    case Claim(c) => ClaimNext(db, c).db
    case Mark(m) => MarkAcquisition(db, m).db
    case Deferral(d) => Defer(db, d).db
    case Finish(c) => Complete(db, c).db
    case Cutoff(u) => PersistCutoff(db, u).db
    case Final(f) => Finalize(db, f).db
    case BreakerChange(p, b) =>
      db.(breakers := if b.Some? then db.breakers[p := b.value] else db.breakers - {p})
  }

  predicate AllWellTyped(events: seq<Event>) {
    forall i :: 0 <= i < |events| ==> WellTyped(events[i])
  }

  /** The state after any interleaving of steps. */
  function Exec(db: Db, events: seq<Event>): Db
    requires AllWellTyped(events)
    decreases |events|
  {
    if events == [] then db else Exec(Apply(db, events[0]), events[1..])
  }
}
