/** The per-acquisition allocator of HTTP requests: root cap, unit caps and deadlines, groups, gate, trace. */
module RetryBudget {
  import opened Wrappers

  const TRACE_LIMIT := 256

  datatype Diagnostic = Diagnostic(durationMs: Option<real>, requestContext: Option<string>, evidence: string)

  datatype TraceEntry = TraceEntry(attempt: int, hop: int, status: Option<int>, sequence: nat,
                                   diagnostics: Option<Diagnostic>)

  /** The context variables of the calling task: its acquisition unit and its request group. */
  datatype Context = Context(unit: Option<string>, group: Option<string>)

  datatype UnitPlan = UnitPlan(cap: int, deadline: Option<real>)

  /** deadlineAt is started_at + deadline_seconds; hasGate tells whether a request gate was given. */
  datatype Budget = Budget(
    maxRequests: int,
    deadlineAt: real,
    hasGate: bool,
    requests: nat,
    retries: nat,
    limit: int,
    gateChecked: bool,
    probe: bool,
    retryNotBefore: Option<int>,
    units: map<string, UnitPlan>,
    unitStarted: map<string, real>,
    unitRequests: map<string, nat>,
    groupRequests: map<string, nat>,
    trace: seq<TraceEntry>,
    traceSequence: nat)

  function Fresh(maxRequests: int, deadlineAt: real, hasGate: bool): Budget {
    Budget(maxRequests, deadlineAt, hasGate, 0, 0, maxRequests, false, false, None, map[], map[], map[], map[], [], 0)
  }

  datatype Refusal =
    | DeadlineElapsed | RequestsExhausted | UnplannedUnit | UnitExhausted | UnitNotEntered | UnitDeadlineElapsed
      | GateRaised
    | PlanFrozen | PlanTooLarge | InvalidUnit | UnitPlanChanged

  // ---------- operations ----------

  function Count(m: map<string, nat>, k: string): nat {
    if k in m then m[k] else 0
  }

  function Bump(m: map<string, nat>, k: string): map<string, nat> {
    m[k := Count(m, k) + 1]
  }

  /** Python's a or b on optional strings: the empty string is false. */
  function OrElse(a: Option<string>, b: string): string {
    if a.Some? && a.value != "" then a.value else b
  }

  function GroupOf(c: Context): string {
    OrElse(c.group, OrElse(c.unit, "root"))
  }

  /** A unit counts a request only if it is not a redirect hop. */
  predicate CountsForUnit(c: Context, redirect: bool) {
    c.unit.Some? && !redirect
  }

  /** The two clock readings of one reservation, and whether the gate raises if it is asked. */
  datatype Reservation = Reservation(retry: bool, redirect: bool, context: Context, now: real, unitNow: real,
                                     gateRaises: bool)

  /** The remaining seconds a reservation would be granted, or why it is refused before the gate. */
  function Allowance(b: Budget, r: Reservation): Result<real, Refusal> {
    var remaining := b.deadlineAt - r.now;
    if remaining <= 0.0 then Err(DeadlineElapsed)
    else if b.requests >= b.limit then Err(RequestsExhausted)
    else if !CountsForUnit(r.context, r.redirect) then Ok(remaining)
    else
      var unit := r.context.unit.value;
      if unit !in b.units then Err(UnplannedUnit)
      else if Count(b.unitRequests, unit) >= b.units[unit].cap then Err(UnitExhausted)
      else if b.units[unit].deadline.None? then Ok(remaining)
      else if unit !in b.unitStarted then Err(UnitNotEntered)
      else
        var left := b.unitStarted[unit] + b.units[unit].deadline.value - r.unitNow;
        var least := if left < remaining then left else remaining;
        if least <= 0.0 then Err(UnitDeadlineElapsed) else Ok(least)
  }

  predicate AsksGate(b: Budget, r: Reservation) {
    Allowance(b, r).Ok? && b.hasGate && !b.gateChecked
  }

  function Charge(b: Budget, r: Reservation): Budget {
    b.(requests := b.requests + 1,
       retries := if r.retry then b.retries + 1 else b.retries,
       gateChecked := b.gateChecked || b.hasGate,
       groupRequests := Bump(b.groupRequests, GroupOf(r.context)),
       unitRequests := if CountsForUnit(r.context, r.redirect)
                       then Bump(b.unitRequests, r.context.unit.value)
                       else b.unitRequests)
  }

  function Reserve(b: Budget, r: Reservation): (Budget, Result<real, Refusal>) {
    var allowance := Allowance(b, r);
    if allowance.Err? then (b, allowance)
    else if AsksGate(b, r) && r.gateRaises then (b, Err(GateRaised))
    else (Charge(b, r), allowance)
  }

  function SetRequestLimit(b: Budget, planned: int): (Budget, Result<(), Refusal>) {
    if b.requests != 0 then (b, Err(PlanFrozen))
    else if !(0 <= planned <= b.maxRequests) then (b, Err(PlanTooLarge))
    else (b.(limit := planned), Ok(()))
  }

  function SetUnitLimit(b: Budget, unit: string, plan: UnitPlan): (Budget, Result<(), Refusal>) {
    if unit == "" || plan.cap < 1 || (plan.deadline.Some? && plan.deadline.value <= 0.0) then (b, Err(InvalidUnit))
    else if unit in b.units then (b, if b.units[unit] == plan then Ok(()) else Err(UnitPlanChanged))
    else (b.(units := b.units[unit := plan]), Ok(()))
  }

  /** The first entry into a unit starts its clock. */
  function EnterUnit(b: Budget, unit: string, now: real): Budget {
    if unit in b.unitStarted then b else b.(unitStarted := b.unitStarted[unit := now])
  }

  function DeferUntil(b: Budget, at: int): Budget {
    var kept := b.retryNotBefore.Some? && b.retryNotBefore.value > at;
    b.(retryNotBefore := Some(if kept then b.retryNotBefore.value else at))
  }

  function AtLeastOne(n: int): int {
    if n < 1 then 1 else n
  }

  function RecordTrace(b: Budget, attempt: int, hop: int, status: Option<int>,
                       diagnostics: Option<Diagnostic>): Budget {
    if |b.trace| >= TRACE_LIMIT then b
    else
      var safe := if status.Some? && 100 <= status.value <= 599 then status else None;
      var entry := TraceEntry(AtLeastOne(attempt), AtLeastOne(hop), safe, b.traceSequence + 1, diagnostics);
      b.(trace := b.trace + [entry], traceSequence := b.traceSequence + 1)
  }

  /** Later evidence keeps an earlier duration it does not replace, and always the original context. */
  function MergeDiagnostic(previous: Option<Diagnostic>, safe: Diagnostic): Diagnostic {
    if previous.None? then safe
    else
      safe.(durationMs := if safe.durationMs.None? then previous.value.durationMs else safe.durationMs,
            requestContext := if previous.value.requestContext.Some? then previous.value.requestContext
              else safe.requestContext)
  }

  function AnnotateFirst(trace: seq<TraceEntry>, sequence: int, safe: Diagnostic): seq<TraceEntry> {
    if trace == [] then []
    else if trace[0].sequence == sequence then
      [trace[0].(diagnostics := Some(MergeDiagnostic(trace[0].diagnostics, safe)))] + trace[1..]
    else [trace[0]] + AnnotateFirst(trace[1..], sequence, safe)
  }

  datatype Call =
    | CallReserve(reservation: Reservation)
    | CallRequestLimit(planned: int)
    | CallUnitLimit(unit: string, plan: UnitPlan)
    | CallEnterUnit(entered: string, now: real)
    | CallDefer(at: int)
    | CallProbe
    | CallTrace(attempt: int, hop: int, status: Option<int>, diagnostics: Option<Diagnostic>)
    | CallAnnotate(sequence: int, evidence: Diagnostic)

  function Step(b: Budget, c: Call): Budget {
    match c
    case CallReserve(r) => Reserve(b, r).0
    case CallRequestLimit(n) => SetRequestLimit(b, n).0
    case CallUnitLimit(u, p) => SetUnitLimit(b, u, p).0
    case CallEnterUnit(u, now) => EnterUnit(b, u, now)
    case CallDefer(at) => DeferUntil(b, at)
    case CallProbe => b.(probe := true)
    case CallTrace(a, h, s, d) => RecordTrace(b, a, h, s, d)
    case CallAnnotate(n, e) => b.(trace := AnnotateFirst(b.trace, n, e))
  }

  function After(b: Budget, calls: seq<Call>): Budget
    decreases |calls|
  {
    if calls == [] then b else After(Step(b, calls[0]), calls[1..])
  }

  // ---------- conservation ----------

  ghost function Sum(m: map<string, nat>): nat {
    if m == map[] then 0
    else
      var k :| k in m;
      m[k] + Sum(m - {k})
  }

  /** The sum does not depend on the order of summation. */
  lemma {:induction false} SumTakesOut(m: map<string, nat>, k: string)
    requires k in m
    ensures Sum(m) == m[k] + Sum(m - {k})
  {
    var j :| j in m && Sum(m) == m[j] + Sum(m - {j});
    if j != k {
      SumTakesOut(m - {j}, k);
      SumTakesOut(m - {k}, j);
      assert m - {j} - {k} == m - {k} - {j};
    }
  }

  lemma {:induction false} SumBumps(m: map<string, nat>, k: string)
    ensures Sum(Bump(m, k)) == Sum(m) + 1
  {
    var bumped := Bump(m, k);
    SumTakesOut(bumped, k);
    assert bumped - {k} == m - {k};
    if k in m { SumTakesOut(m, k); } else { assert m - {k} == m; }
  }

  ghost predicate Sound(b: Budget) {
    && (b.requests == 0 || b.requests <= b.limit)
    && b.limit <= b.maxRequests
    && b.retries <= b.requests
    && Sum(b.groupRequests) == b.requests
    && Sum(b.unitRequests) <= b.requests
    && (forall u :: u in b.unitRequests ==> u in b.units && b.unitRequests[u] <= b.units[u].cap)
    && (b.requests > 0 && b.hasGate ==> b.gateChecked)
    && b.traceSequence == |b.trace| <= TRACE_LIMIT
    && (forall i :: 0 <= i < |b.trace| ==> b.trace[i].sequence == i + 1)
  }

  lemma {:induction false} FreshIsSound(maxRequests: int, deadlineAt: real, hasGate: bool)
    ensures Sound(Fresh(maxRequests, deadlineAt, hasGate))
  {
  }

  lemma {:induction false} ReserveKeepsSound(b: Budget, r: Reservation)
    requires Sound(b)
    ensures Sound(Reserve(b, r).0)
  {
    SumBumps(b.groupRequests, GroupOf(r.context));
    if CountsForUnit(r.context, r.redirect) { SumBumps(b.unitRequests, r.context.unit.value); }
  }

  lemma {:induction false} AnnotationKeepsSequences(trace: seq<TraceEntry>, sequence: int, safe: Diagnostic)
    ensures
      var after := AnnotateFirst(trace, sequence, safe);
      |after| == |trace| && forall i :: 0 <= i < |trace| ==> after[i].sequence == trace[i].sequence
  {
    if trace != [] && trace[0].sequence != sequence { AnnotationKeepsSequences(trace[1..], sequence, safe); }
  }

  /** A plan, once made, is immutable: neither a unit's cap nor, after the first request, the root limit. */
  predicate PlansKept(a: Budget, b: Budget) {
    && a.maxRequests == b.maxRequests && a.deadlineAt == b.deadlineAt && a.hasGate == b.hasGate
    && (a.requests > 0 ==> b.limit == a.limit)
    && (forall u :: u in a.units ==> u in b.units && b.units[u] == a.units[u])
    && a.requests <= b.requests
    && (a.gateChecked ==> b.gateChecked)
    && (a.retryNotBefore.Some? ==> b.retryNotBefore.Some? && a.retryNotBefore.value <= b.retryNotBefore.value)
  }

  lemma {:induction false} ReservationKeepsPlans(b: Budget, r: Reservation)
    requires Sound(b)
    ensures PlansKept(b, Reserve(b, r).0)
  {
    hide Sum;
  }

  lemma {:induction false} UnitPlanKeepsSound(b: Budget, unit: string, plan: UnitPlan)
    requires Sound(b)
    ensures Sound(SetUnitLimit(b, unit, plan).0) && PlansKept(b, SetUnitLimit(b, unit, plan).0)
  {
    hide Sum;
  }

  lemma {:induction false} LimitsKeepSound(b: Budget, c: Call)
    requires Sound(b)
    requires c.CallRequestLimit? || c.CallEnterUnit? || c.CallDefer? || c.CallProbe?
    ensures Sound(Step(b, c)) && PlansKept(b, Step(b, c))
  {
    hide Sum, Reserve, SetUnitLimit, AnnotateFirst, RecordTrace;
  }

  lemma {:induction false} TracingKeepsSound(b: Budget, c: Call)
    requires Sound(b)
    requires c.CallTrace? || c.CallAnnotate?
    ensures Sound(Step(b, c)) && PlansKept(b, Step(b, c))
  {
    hide Sum, Reserve, SetRequestLimit, SetUnitLimit, EnterUnit, DeferUntil, AnnotateFirst, MergeDiagnostic, AtLeastOne;
    if c.CallAnnotate? { AnnotationKeepsSequences(b.trace, c.sequence, c.evidence); }
  }

  lemma {:induction false} StepKeepsSound(b: Budget, c: Call)
    requires Sound(b)
    ensures Sound(Step(b, c)) && PlansKept(b, Step(b, c))
  {
    hide Sound, PlansKept;
    match c
    case CallReserve(r) =>
      ReserveKeepsSound(b, r);
      ReservationKeepsPlans(b, r);
    case CallTrace(_, _, _, _) => TracingKeepsSound(b, c);
    case CallAnnotate(_, _) => TracingKeepsSound(b, c);
    case CallUnitLimit(unit, plan) => UnitPlanKeepsSound(b, unit, plan);
    case _ => LimitsKeepSound(b, c);
  }

  /** Budget conservation over any call sequence, in any tasks and at any times. */
  lemma {:induction false} CallsKeepSound(b: Budget, calls: seq<Call>)
    requires Sound(b)
    ensures Sound(After(b, calls)) && PlansKept(b, After(b, calls))
    decreases |calls|
  {
    if calls != [] {
      StepKeepsSound(b, calls[0]);
      CallsKeepSound(Step(b, calls[0]), calls[1..]);
    }
  }

  /** A refused reservation changes nothing; a granted one is charged once to the root, to exactly its group,
      and to its unit unless it is a redirect. */
  lemma {:induction false} ReservationIsExact(b: Budget, r: Reservation)
    ensures
      var (after, result) := Reserve(b, r);
      && (result.Err? ==> after == b)
      && (result.Ok? ==>
            && after.requests == b.requests + 1 <= b.limit
            && after.retries == b.retries + (if r.retry then 1 else 0)
            && (forall g :: Count(after.groupRequests, g) ==
                  Count(b.groupRequests, g) + if g == GroupOf(r.context) then 1 else 0)
            && (forall u :: Count(after.unitRequests, u) ==
                  Count(b.unitRequests, u) + if r.context.unit == Some(u) && !r.redirect then 1 else 0))
  {
    hide Sound, Sum, GroupOf;
  }

  /** A granted timeout is positive, within the root deadline, and for a direct request in a unit with a
      deadline also within that unit's, counted from its first entry. */
  lemma {:induction false} TimeoutIsWithinDeadlines(b: Budget, r: Reservation)
    requires Reserve(b, r).1.Ok?
    ensures
      var timeout := Reserve(b, r).1.value;
      && 0.0 < timeout <= b.deadlineAt - r.now
      && (CountsForUnit(r.context, r.redirect) ==>
            var unit := r.context.unit.value;
            && unit in b.units
            && Count(b.unitRequests, unit) < b.units[unit].cap
            && (b.units[unit].deadline.Some? ==>
                  && unit in b.unitStarted
                  && timeout <= b.unitStarted[unit] + b.units[unit].deadline.value - r.unitNow))
  {
    hide Sum, GroupOf;
  }

  /** A call that is a granted reservation for unit u, redirects apart; for any unit if u is None. */
  predicate IsGrant(b: Budget, c: Call, u: Option<string>) {
    c.CallReserve? && Reserve(b, c.reservation).1.Ok?
    && (u.None? || (c.reservation.context.unit == u && !c.reservation.redirect))
  }

  function Grants(b: Budget, calls: seq<Call>, u: Option<string>): nat
    decreases |calls|
  {
    if calls == [] then 0
    else (if IsGrant(b, calls[0], u) then 1 else 0) + Grants(Step(b, calls[0]), calls[1..], u)
  }

  lemma {:induction false} StepCountsGrants(b: Budget, c: Call, u: string)
    ensures Step(b, c).requests == b.requests + if IsGrant(b, c, None) then 1 else 0
    ensures Count(Step(b, c).unitRequests, u) == Count(b.unitRequests, u) + if IsGrant(b, c, Some(u)) then 1 else 0
  {
    hide Allowance, GroupOf, AnnotateFirst, AsksGate;
  }

  lemma {:induction false} GrantsAreCounted(b: Budget, calls: seq<Call>, u: string)
    ensures After(b, calls).requests == b.requests + Grants(b, calls, None)
    ensures Count(After(b, calls).unitRequests, u) == Count(b.unitRequests, u) + Grants(b, calls, Some(u))
    decreases |calls|
  {
    hide Step, IsGrant, Count;
    if calls != [] {
      StepCountsGrants(b, calls[0], u);
      GrantsAreCounted(Step(b, calls[0]), calls[1..], u);
    }
  }

  /** From a fresh budget no call sequence obtains more requests than the cap, nor more direct requests for
      a unit than the cap of its plan. */
  lemma {:induction false} CapsHoldForever(maxRequests: int, deadlineAt: real, hasGate: bool, calls: seq<Call>,
                                           u: string)
    ensures
      var b := Fresh(maxRequests, deadlineAt, hasGate);
      && Grants(b, calls, None) <= (if maxRequests < 0 then 0 else maxRequests)
      && Grants(b, calls, Some(u)) <= (if u in After(b, calls).units then After(b, calls).units[u].cap else 0)
  {
    var b := Fresh(maxRequests, deadlineAt, hasGate);
    FreshIsSound(maxRequests, deadlineAt, hasGate);
    CallsKeepSound(b, calls);
    GrantsAreCounted(b, calls, u);
    UnitCapsArePositive(b, calls, u);
  }

  lemma {:induction false} StepKeepsUnitCapsPositive(b: Budget, c: Call, u: string)
    requires u in b.units ==> b.units[u].cap >= 1
    ensures u in Step(b, c).units ==> Step(b, c).units[u].cap >= 1
  {
    hide AnnotateFirst;
  }

  lemma {:induction false} UnitCapsArePositive(b: Budget, calls: seq<Call>, u: string)
    requires u in b.units ==> b.units[u].cap >= 1
    ensures u in After(b, calls).units ==> After(b, calls).units[u].cap >= 1
    decreases |calls|
  {
    hide Step;
    if calls != [] {
      StepKeepsUnitCapsPositive(b, calls[0], u);
      UnitCapsArePositive(Step(b, calls[0]), calls[1..], u);
    }
  }

  /** How often the gate is asked and returns normally. */
  function GatePasses(b: Budget, calls: seq<Call>): nat
    decreases |calls|
  {
    if calls == [] then 0
    else
      var c := calls[0];
      (if c.CallReserve? && AsksGate(b, c.reservation) && !c.reservation.gateRaises then 1 else 0)
      + GatePasses(Step(b, c), calls[1..])
  }

  lemma {:induction false} StepPassesGateOnce(b: Budget, c: Call)
    ensures c.CallReserve? && AsksGate(b, c.reservation) && !c.reservation.gateRaises ==>
              !b.gateChecked && Step(b, c).gateChecked
    ensures b.gateChecked ==> Step(b, c).gateChecked
  {
    hide Allowance, GroupOf, Bump, AnnotateFirst;
  }

  /** The gate returns normally at most once, and never again after it has. */
  lemma {:induction false} GatePassesOnce(b: Budget, calls: seq<Call>)
    ensures GatePasses(b, calls) <= if b.gateChecked then 0 else 1
    decreases |calls|
  {
    hide Step, AsksGate;
    if calls != [] {
      StepPassesGateOnce(b, calls[0]);
      GatePassesOnce(Step(b, calls[0]), calls[1..]);
    }
  }
}
