/** The retry budget as the object its callers share: each method is one locked section. */
module RetryAllocator {
  import opened Wrappers
  import opened RetryBudget

  class Allocator {
    const maxRequests: int
    const deadlineAt: real
    const hasGate: bool
    var requests: nat
    var retries: nat
    var limit: int
    var gateChecked: bool
    var probe: bool
    var retryNotBefore: Option<int>
    var units: map<string, UnitPlan>
    var unitStarted: map<string, real>
    var unitRequests: map<string, nat>
    var groupRequests: map<string, nat>
    var trace: seq<TraceEntry>
    var traceSequence: nat

    function State(): Budget
      reads this
    {
      Budget(maxRequests, deadlineAt, hasGate, requests, retries, limit, gateChecked, probe, retryNotBefore, units,
             unitStarted, unitRequests, groupRequests, trace, traceSequence)
    }

    ghost predicate Valid()
      reads this
    {
      Sound(State())
    }

    constructor (maxRequests: int, startedAt: real, deadlineSeconds: real, hasGate: bool)
      ensures State() == Fresh(maxRequests, startedAt + deadlineSeconds, hasGate) && Valid()
    {
      this.maxRequests, this.deadlineAt, this.hasGate := maxRequests, startedAt + deadlineSeconds, hasGate;
      requests, retries, limit, gateChecked, probe, retryNotBefore := 0, 0, maxRequests, false, false, None;
      units, unitStarted, unitRequests, groupRequests, trace, traceSequence := map[], map[], map[], map[], [], 0;
      new;
      FreshIsSound(maxRequests, deadlineAt, hasGate);
    }

    /** The checks of a reservation before the gate; nothing is charged yet. */
    method CheckAllowance(r: Reservation) returns (result: Result<real, Refusal>)
      ensures result == Allowance(State(), r)
    {
      var remaining := deadlineAt - r.now;
      if remaining <= 0.0 { return Err(DeadlineElapsed); }
      if requests >= limit { return Err(RequestsExhausted); }
      var unit := r.context.unit;
      if unit.Some? && !r.redirect {
        if unit.value !in units { return Err(UnplannedUnit); }
        var plan := units[unit.value];
        if Count(unitRequests, unit.value) >= plan.cap { return Err(UnitExhausted); }
        if plan.deadline.Some? {
          if unit.value !in unitStarted { return Err(UnitNotEntered); }
          var left := unitStarted[unit.value] + plan.deadline.value - r.unitNow;
          if left < remaining { remaining := left; }
          if remaining <= 0.0 { return Err(UnitDeadlineElapsed); }
        }
      }
      result := Ok(remaining);
    }

    /** Count one granted request for its root, its group and, unless it is a redirect hop, its unit. */
    method CountRequest(r: Reservation)
      modifies this`requests, this`retries, this`groupRequests, this`unitRequests
      ensures State() == Charge(old(State()), r).(gateChecked := gateChecked)
    {
      hide Bump, GroupOf;
      requests := requests + 1;
      groupRequests := Bump(groupRequests, GroupOf(r.context));
      if r.retry { retries := retries + 1; }
      var unit := r.context.unit;
      if unit.Some? && !r.redirect { unitRequests := Bump(unitRequests, unit.value); }
    }

    method ReserveRequest(r: Reservation) returns (result: Result<real, Refusal>)
      requires Valid()
      modifies this
      ensures Valid() && (State(), result) == Reserve(old(State()), r)
    {
      hide Sum, Sound, Allowance, Bump, GroupOf;
      ReserveKeepsSound(State(), r);
      result := CheckAllowance(r);
      if result.Err? { return; }
      if !gateChecked && hasGate {
        if r.gateRaises { return Err(GateRaised); }
        gateChecked := true;
      }
      CountRequest(r);
    }

    method SetRequestLimit(planned: int) returns (result: Result<(), Refusal>)
      requires Valid()
      modifies this`limit
      ensures Valid() && (State(), result) == RetryBudget.SetRequestLimit(old(State()), planned)
    {
      if requests != 0 { return Err(PlanFrozen); }
      if !(0 <= planned <= maxRequests) { return Err(PlanTooLarge); }
      limit := planned;
      result := Ok(());
    }

    method SetUnitLimit(unit: string, plan: UnitPlan) returns (result: Result<(), Refusal>)
      requires Valid()
      modifies this`units
      ensures Valid() && (State(), result) == RetryBudget.SetUnitLimit(old(State()), unit, plan)
    {
      if unit == "" || plan.cap < 1 { return Err(InvalidUnit); }
      if plan.deadline.Some? && plan.deadline.value <= 0.0 { return Err(InvalidUnit); }
      if unit in units {
        if units[unit] != plan { return Err(UnitPlanChanged); }
        return Ok(());
      }
      units := units[unit := plan];
      result := Ok(());
    }

    method EnterUnit(unit: string, now: real, context: Context) returns (inside: Context)
      requires Valid()
      modifies this`unitStarted
      ensures Valid() && State() == RetryBudget.EnterUnit(old(State()), unit, now)
      ensures inside == context.(unit := Some(unit))
    {
      if unit !in unitStarted { unitStarted := unitStarted[unit := now]; }
      inside := context.(unit := Some(unit));
    }

    method DeferUntil(at: int) returns (deferredTo: int)
      requires Valid()
      modifies this`retryNotBefore
      ensures Valid() && State() == RetryBudget.DeferUntil(old(State()), at)
      ensures retryNotBefore == Some(deferredTo) && deferredTo >= at
    {
      deferredTo := at;
      if retryNotBefore.Some? && retryNotBefore.value > at { deferredTo := retryNotBefore.value; }
      retryNotBefore := Some(deferredTo);
    }

    method RecordTrace(attempt: int, hop: int, status: Option<int>, diagnostics: Option<Diagnostic>)
      returns (sequence: Option<nat>)
      requires Valid()
      modifies this`trace, this`traceSequence
      ensures Valid() && State() == RetryBudget.RecordTrace(old(State()), attempt, hop, status, diagnostics)
      ensures sequence == if old(|trace|) < TRACE_LIMIT then Some(|trace|) else None
    {
      if |trace| >= TRACE_LIMIT { return None; }
      traceSequence := traceSequence + 1;
      var safe := if status.Some? && 100 <= status.value <= 599 then status else None;
      trace := trace + [TraceEntry(AtLeastOne(attempt), AtLeastOne(hop), safe, traceSequence, diagnostics)];
      sequence := Some(traceSequence);
    }

    /** Attach later evidence to the entry with the given number, if there is one. */
    method AnnotateTrace(sequence: int, safe: Diagnostic)
      requires Valid()
      modifies this`trace
      ensures Valid() && State() == old(State()).(trace := AnnotateFirst(old(trace), sequence, safe))
    {
      AnnotationKeepsSequences(trace, sequence, safe);
      for i := 0 to |trace|
        invariant forall k :: 0 <= k < i ==> trace[k].sequence != sequence
        invariant trace == old(trace)
      {
        if trace[i].sequence == sequence {
          AnnotateFirstAt(trace, sequence, safe, i);
          trace := trace[i := trace[i].(diagnostics := Some(MergeDiagnostic(trace[i].diagnostics, safe)))];
          return;
        }
      }
      AnnotateNone(trace, sequence, safe);
    }
  }

  lemma {:induction false} AnnotateFirstAt(trace: seq<TraceEntry>, sequence: int, safe: Diagnostic, i: nat)
    requires i < |trace| && trace[i].sequence == sequence
    requires forall k :: 0 <= k < i ==> trace[k].sequence != sequence
    ensures AnnotateFirst(trace, sequence, safe)
         == trace[i := trace[i].(diagnostics := Some(MergeDiagnostic(trace[i].diagnostics, safe)))]
  {
    if i > 0 { AnnotateFirstAt(trace[1..], sequence, safe, i - 1); }
  }

  lemma {:induction false} AnnotateNone(trace: seq<TraceEntry>, sequence: int, safe: Diagnostic)
    requires forall k :: 0 <= k < |trace| ==> trace[k].sequence != sequence
    ensures AnnotateFirst(trace, sequence, safe) == trace
  {
    if trace != [] { AnnotateNone(trace[1..], sequence, safe); }
  }
}
