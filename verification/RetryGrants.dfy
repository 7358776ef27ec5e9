/** When the retry budget says yes, and what each of its calls leaves behind. */
module RetryGrants {
  import opened Wrappers
  import opened RetryBudget

  function Used(b: Budget, unit: string): nat {
    if unit in b.unitRequests then b.unitRequests[unit] else 0
  }

  /** A request counted for its unit: made inside one and not a redirect hop. */
  predicate Direct(r: Reservation) {
    r.context.unit.Some? && !r.redirect
  }

  /** The unit is planned and has a request left and, if it has a deadline, was entered and has time left. */
  predicate UnitHasRoom(b: Budget, unit: string, now: real) {
    && unit in b.units && Used(b, unit) < b.units[unit].cap
    && (b.units[unit].deadline.Some? ==>
          unit in b.unitStarted && now < b.unitStarted[unit] + b.units[unit].deadline.value)
  }

  function Least(a: real, b: real): real {
    if a < b then a else b
  }

  /** A reservation is granted exactly if the root has time and a request left, its unit has room, and the gate,
      if it has not passed yet, lets it through; the value is the least of the remaining times. */
  lemma {:induction false} GrantedExactly(b: Budget, r: Reservation)
    ensures Reserve(b, r).1.Ok? <==>
      && r.now < b.deadlineAt && b.requests < b.limit
      && (Direct(r) ==> UnitHasRoom(b, r.context.unit.value, r.unitNow))
      && (b.hasGate && !b.gateChecked ==> !r.gateRaises)
    ensures Reserve(b, r).1.Ok? ==>
      var root := b.deadlineAt - r.now;
      Reserve(b, r).1.value ==
        if Direct(r) && b.units[r.context.unit.value].deadline.Some? then
          var unit := r.context.unit.value;
          Least(root, b.unitStarted[unit] + b.units[unit].deadline.value - r.unitNow)
        else root
  {
    hide Charge;
  }

  /** The group a request is charged to: its own, else its unit, else the root; empty names are no names. */
  lemma {:induction false} GroupIsOwnElseUnitElseRoot(c: Context)
    ensures GroupOf(c) ==
      match (c.group, c.unit)
      case (Some(g), _) => if g != "" then g else if c.unit.Some? && c.unit.value != "" then c.unit.value else "root"
      case (None, Some(u)) => if u != "" then u else "root"
      case (None, None) => "root"
  {
  }

  // ---------- nothing planned is lost ----------

  /** A direct request of a unit, or a request outside any, with time left and a passing gate. */
  predicate Unhindered(b: Budget, c: Call, unit: Option<string>) {
    && c.CallReserve? && c.reservation.context.unit == unit && !c.reservation.redirect
    && c.reservation.now < b.deadlineAt && !c.reservation.gateRaises
  }

  function Fewest(a: int, b: int): int {
    if a < b then a else b
  }

  /** What a budget still has for a unit without a deadline, or for the root. */
  function Left(b: Budget, unit: Option<string>): int
    requires unit.Some? ==> unit.value in b.units
  {
    if unit.None? then b.limit - b.requests
    else Fewest(b.limit - b.requests, b.units[unit.value].cap - Used(b, unit.value))
  }

  lemma {:induction false} UnhinderedStep(b: Budget, c: Call, unit: Option<string>)
    requires Unhindered(b, c, unit)
    requires unit.Some? ==> unit.value in b.units && b.units[unit.value].deadline.None?
    ensures IsGrant(b, c, None) <==> Left(b, unit) > 0
    ensures
      var after := Step(b, c);
      && after.deadlineAt == b.deadlineAt && after.units == b.units
      && Left(after, unit) == Left(b, unit) - if Left(b, unit) > 0 then 1 else 0
  {
    hide GroupOf;
    GrantedExactly(b, c.reservation);
  }

  lemma {:induction false} UnhinderedAreGranted(b: Budget, calls: seq<Call>, unit: Option<string>)
    requires unit.Some? ==> unit.value in b.units && b.units[unit.value].deadline.None?
    requires Left(b, unit) >= 0
    requires forall i :: 0 <= i < |calls| ==> Unhindered(b, calls[i], unit)
    ensures Grants(b, calls, None) == Fewest(Left(b, unit), |calls|)
    decreases |calls|
  {
    hide Step, IsGrant, Left, Unhindered;
    if calls != [] {
      UnhinderedStep(b, calls[0], unit);
      var after := Step(b, calls[0]);
      forall i | 0 <= i < |calls[1..]| ensures Unhindered(after, calls[1..][i], unit) {
        assert Unhindered(b, calls[i + 1], unit);
        SameDeadline(b, after, calls[i + 1], unit);
      }
      UnhinderedAreGranted(after, calls[1..], unit);
    }
  }

  lemma {:induction false} SameDeadline(a: Budget, b: Budget, c: Call, unit: Option<string>)
    requires a.deadlineAt == b.deadlineAt
    ensures Unhindered(a, c, unit) <==> Unhindered(b, c, unit)
  {
  }

  /** A fresh budget narrowed to n grants the first n of any number of unhindered root requests, and no more. */
  lemma {:induction false} PlanIsGranted(maxRequests: int, deadlineAt: real, hasGate: bool, n: int, calls: seq<Call>)
    requires 0 <= n <= maxRequests
    requires forall i :: 0 <= i < |calls| ==> Unhindered(Fresh(maxRequests, deadlineAt, hasGate), calls[i], None)
    ensures Grants(SetRequestLimit(Fresh(maxRequests, deadlineAt, hasGate), n).0, calls, None) == Fewest(n, |calls|)
  {
    hide Unhindered;
    var empty := Fresh(maxRequests, deadlineAt, hasGate);
    var b := SetRequestLimit(empty, n).0;
    forall i | 0 <= i < |calls| ensures Unhindered(b, calls[i], None) { SameDeadline(empty, b, calls[i], None); }
    UnhinderedAreGranted(b, calls, None);
  }

  /** And one with a unit planned for k requests grants the unit the first k of them, the root plan permitting. */
  lemma {:induction false} UnitPlanIsGranted(maxRequests: int, deadlineAt: real, hasGate: bool, unit: string, k: int,
                                             calls: seq<Call>)
    requires maxRequests >= 0 && unit != "" && k >= 1
    requires forall i :: 0 <= i < |calls| ==> Unhindered(Fresh(maxRequests, deadlineAt, hasGate), calls[i], Some(unit))
    ensures
      var b := SetUnitLimit(Fresh(maxRequests, deadlineAt, hasGate), unit, UnitPlan(k, None)).0;
      Grants(b, calls, None) == Fewest(Fewest(maxRequests, k), |calls|)
  {
    hide Unhindered;
    var empty := Fresh(maxRequests, deadlineAt, hasGate);
    var b := SetUnitLimit(empty, unit, UnitPlan(k, None)).0;
    forall i | 0 <= i < |calls| ensures Unhindered(b, calls[i], Some(unit)) {
      SameDeadline(empty, b, calls[i], Some(unit));
    }
    UnhinderedAreGranted(b, calls, Some(unit));
  }

  // ---------- plans ----------

  /** The root plan can be set to any number within the cap until the first request, and never after. */
  lemma {:induction false} RootPlanIsExact(b: Budget, planned: int)
    ensures SetRequestLimit(b, planned) ==
      if b.requests == 0 && 0 <= planned <= b.maxRequests then (b.(limit := planned), Ok(()))
      else (b, Err(if b.requests > 0 then PlanFrozen else PlanTooLarge))
  {
  }

  /** A unit's plan is accepted exactly if it is a real one and no other was made before. */
  lemma {:induction false} UnitPlanIsExact(b: Budget, unit: string, plan: UnitPlan)
    ensures
      var (after, result) := SetUnitLimit(b, unit, plan);
      && (result.Ok? <==>
            && |unit| > 0 && plan.cap > 0 && (plan.deadline.Some? ==> plan.deadline.value > 0.0)
            && (unit in b.units ==> b.units[unit] == plan))
      && (result.Ok? ==> unit in after.units && after.units[unit] == plan && after == b.(units := after.units))
      && (forall u :: u != unit ==>
            (u in after.units <==> u in b.units) && (u in b.units ==> after.units[u] == b.units[u]))
      && (result.Err? ==> after == b)
  {
  }

  // ---------- clocks and deferrals over call sequences ----------

  function FirstEntry(calls: seq<Call>, unit: string): Option<real> {
    if calls == [] then None
    else if calls[0].CallEnterUnit? && calls[0].entered == unit then Some(calls[0].now)
    else FirstEntry(calls[1..], unit)
  }

  lemma {:induction false} StepKeepsClocks(b: Budget, c: Call, unit: string)
    ensures unit in Step(b, c).unitStarted <==> unit in b.unitStarted || (c.CallEnterUnit? && c.entered == unit)
    ensures unit in b.unitStarted ==> Step(b, c).unitStarted[unit] == b.unitStarted[unit]
    ensures unit !in b.unitStarted && c.CallEnterUnit? && c.entered == unit ==> Step(b, c).unitStarted[unit] == c.now
  {
    hide AnnotateFirst, Allowance, GroupOf, Bump;
  }

  /** A unit's clock runs from its first entry, however often it is entered. */
  lemma {:induction false} UnitClockStartsOnce(b: Budget, calls: seq<Call>, unit: string)
    ensures
      var after, first := After(b, calls).unitStarted, FirstEntry(calls, unit);
      && (unit in after <==> unit in b.unitStarted || first.Some?)
      && (unit in after ==> after[unit] == if unit in b.unitStarted then b.unitStarted[unit] else first.value)
    decreases |calls|
  {
    hide Step;
    if calls != [] {
      StepKeepsClocks(b, calls[0], unit);
      UnitClockStartsOnce(Step(b, calls[0]), calls[1..], unit);
    }
  }

  function LatestDeferral(calls: seq<Call>, so: Option<int>): Option<int> {
    if calls == [] then so
    else
      var later := calls[0].CallDefer? && (so.None? || so.value < calls[0].at);
      LatestDeferral(calls[1..], if later then Some(calls[0].at) else so)
  }

  lemma {:induction false} StepKeepsDeferral(b: Budget, c: Call)
    ensures Step(b, c).retryNotBefore ==
      if c.CallDefer? && (b.retryNotBefore.None? || b.retryNotBefore.value < c.at) then Some(c.at) else b.retryNotBefore
    ensures Step(b, c).probe <==> b.probe || c.CallProbe?
  {
    hide AnnotateFirst, Allowance, GroupOf, Bump;
  }

  /** The retry instant is the latest of all deferrals. */
  lemma {:induction false} DeferralIsTheLatest(b: Budget, calls: seq<Call>)
    ensures After(b, calls).retryNotBefore == LatestDeferral(calls, b.retryNotBefore)
    decreases |calls|
  {
    hide Step;
    if calls != [] {
      StepKeepsDeferral(b, calls[0]);
      DeferralIsTheLatest(Step(b, calls[0]), calls[1..]);
    }
  }

  // ---------- the trace ----------

  /** A record is appended with the next number, its ordinals at least one and its status only if it is one of
      HTTP; the 257th is dropped. */
  lemma {:induction false} RecordIsAppended(b: Budget, attempt: int, hop: int, status: Option<int>,
                                            diagnostics: Option<Diagnostic>)
    requires Sound(b)
    ensures
      var after := RecordTrace(b, attempt, hop, status, diagnostics);
      && after == b.(trace := after.trace, traceSequence := |after.trace|)
      && (|b.trace| == 256 ==> after.trace == b.trace)
      && (|b.trace| < 256 ==>
            && |after.trace| == |b.trace| + 1 && after.trace[..|b.trace|] == b.trace
            && var entry := after.trace[|b.trace|];
               && entry.sequence == |b.trace| + 1 && entry.diagnostics == diagnostics
               && entry.attempt == (if attempt >= 1 then attempt else 1) && entry.hop == (if hop >= 1 then hop else 1)
               && entry.status == if status.Some? && 100 <= status.value < 600 then status else None)
  {
    hide Sum;
  }

  /** Later evidence goes to the entry with its number and to no other: it replaces the evidence, keeps an earlier
      duration it does not replace, and keeps the earlier context. */
  lemma {:induction false} AnnotationIsExact(trace: seq<TraceEntry>, sequence: int, safe: Diagnostic, i: nat)
    requires i < |trace| && forall k :: 0 <= k < |trace| ==> trace[k].sequence == k + 1
    ensures
      var after := AnnotateFirst(trace, sequence, safe);
      && |after| == |trace|
      && (sequence != i + 1 ==> after[i] == trace[i])
      && (sequence == i + 1 ==>
            && after[i] == trace[i].(diagnostics := after[i].diagnostics) && after[i].diagnostics.Some?
            && var d, was := after[i].diagnostics.value, trace[i].diagnostics;
               && d.evidence == safe.evidence
               && d.durationMs == (if safe.durationMs.None? && was.Some? then was.value.durationMs else safe.durationMs)
               && d.requestContext == (if was.Some? && was.value.requestContext.Some? then was.value.requestContext
                                       else safe.requestContext))
  {
    AnnotatesAt(trace, sequence, safe, 0, i);
  }

  lemma {:induction false} AnnotatesAt(trace: seq<TraceEntry>, sequence: int, safe: Diagnostic, offset: nat, i: nat)
    requires i < |trace| && forall k :: 0 <= k < |trace| ==> trace[k].sequence == offset + k + 1
    ensures
      var after := AnnotateFirst(trace, sequence, safe);
      && |after| == |trace|
      && after[i] == if sequence != offset + i + 1 then trace[i]
                     else trace[i].(diagnostics := Some(MergeDiagnostic(trace[i].diagnostics, safe)))
  {
    hide MergeDiagnostic;
    AnnotationKeepsSequences(trace, sequence, safe);
    if trace[0].sequence != sequence && i > 0 { AnnotatesAt(trace[1..], sequence, safe, offset + 1, i - 1); }
  }

  /** While its gate raises, a fresh budget grants nothing. */
  lemma {:induction false} RaisingGateGrantsNothing(maxRequests: int, deadlineAt: real, calls: seq<Call>)
    requires forall i :: 0 <= i < |calls| && calls[i].CallReserve? ==> calls[i].reservation.gateRaises
    ensures Grants(Fresh(maxRequests, deadlineAt, true), calls, None) == 0
  {
    ClosedGateGrantsNothing(Fresh(maxRequests, deadlineAt, true), calls);
  }

  lemma {:induction false} StepWaitsAtTheGate(b: Budget, c: Call)
    requires b.hasGate && !b.gateChecked && (c.CallReserve? ==> c.reservation.gateRaises)
    ensures !IsGrant(b, c, None) && Step(b, c).hasGate && !Step(b, c).gateChecked
  {
    hide AnnotateFirst, GroupOf, Bump, Allowance;
  }

  lemma {:induction false} ClosedGateGrantsNothing(b: Budget, calls: seq<Call>)
    requires b.hasGate && !b.gateChecked
    requires forall i :: 0 <= i < |calls| && calls[i].CallReserve? ==> calls[i].reservation.gateRaises
    ensures Grants(b, calls, None) == 0
    decreases |calls|
  {
    hide Step, IsGrant;
    if calls != [] {
      StepWaitsAtTheGate(b, calls[0]);
      assert forall i :: 0 <= i < |calls[1..]| ==> calls[1..][i] == calls[i + 1];
      ClosedGateGrantsNothing(Step(b, calls[0]), calls[1..]);
    }
  }
}
