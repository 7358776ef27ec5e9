/** Provider admission as a function of time, and the retry policy built on it. */
module Scheduler {
  import opened Wrappers

  type Time = int

  datatype Provider = BcbSgs | Tesouro | Focus | Anbima | B3 | IbgeSidra

  const PREFIXES: seq<(string, Provider)> :=
    [("tesouro", Tesouro), ("focus", Focus), ("anbima", Anbima), ("b3", B3), ("ibge_sidra", IbgeSidra)]

  predicate StartsWith(text: string, prefix: string) {
    |prefix| <= |text| && text[..|prefix|] == prefix
  }

  function ScopeIn(task: string, table: seq<(string, Provider)>): Option<Provider> {
    if table == [] then None
    else if task == table[0].0 || StartsWith(task, table[0].0 + "_") then Some(table[0].1)
    else ScopeIn(task, table[1..])
  }

  /** The breaker scope of a task; phase work has none. */
  function Scope(task: string): Option<Provider> {
    if StartsWith(task, "sgs_") || StartsWith(task, "ipca_grupos") then Some(BcbSgs)
    else ScopeIn(task, PREFIXES)
  }

  /** The three derived phases that may not overtake deferred source work. */
  predicate IsPhase(task: string) {
    task in ["derived_snapshots", "macro_score", "inflation_target_rules"]
  }

  datatype BreakerState = Closed | Open | HalfOpen

  datatype Breaker = Breaker(
    state: BreakerState,
    openedUntil: Option<Time>,
    retryNotBefore: Option<Time>,
    probeLeaseUntil: Option<Time>)

  datatype Eligibility = Admit | Refuse(until: Time, probing: bool)

  predicate Future(at: Option<Time>, now: Time) {
    at.Some? && at.value > now
  }

  predicate Past(at: Option<Time>, now: Time) {
    at.Some? && at.value <= now
  }

  function MaxOption(a: Option<Time>, b: Option<Time>): Option<Time> {
    if a.None? then b else if b.None? then a else if a.value >= b.value then a else b
  }

  function ProviderEligibility(state: Option<Breaker>, now: Time): Eligibility {
    if state.None? || state.value.state.Closed? then Admit
    else
      var cooldown := MaxOption(state.value.retryNotBefore, state.value.openedUntil);
      if Future(state.value.probeLeaseUntil, now) then Refuse(state.value.probeLeaseUntil.value, true)
      else if Future(cooldown, now) then Refuse(cooldown.value, false)
      else Admit
  }

  function BreakerOf(task: string, breakers: map<Provider, Breaker>): Option<Breaker> {
    var scope := Scope(task);
    if scope.Some? && scope.value in breakers then Some(breakers[scope.value]) else None
  }

  predicate Eligible(task: string, breakers: map<Provider, Breaker>, now: Time) {
    ProviderEligibility(BreakerOf(task, breakers), now).Admit?
  }

  /** The next_attempt_at written on an item whose provider refuses it. */
  function DeferralStamp(state: Option<Breaker>): Option<Time> {
    if state.None? then None
    else MaxOption(MaxOption(state.value.retryNotBefore, state.value.openedUntil), state.value.probeLeaseUntil)
  }

  // ---------- properties ----------

  /** Phase work has no provider scope, so no breaker ever refuses it. */
  lemma {:induction false} PhaseHasNoScope(task: string, breakers: map<Provider, Breaker>, now: Time)
    requires IsPhase(task)
    ensures Scope(task) == None && Eligible(task, breakers, now)
  {
    hide Scope;
    PhaseScope(task);
  }

  lemma {:induction false} PhaseScope(task: string)
    requires IsPhase(task)
    ensures Scope(task) == None
  {
    hide StartsWith, ScopeIn;
    assert (task[0] == 'd' && task[1] == 'e') || (task[0] == 'm' && task[1] == 'a')
        || (task[0] == 'i' && task[1] == 'n');
    PrefixFixesHead(task, "sgs_");
    PrefixFixesHead(task, "ipca_grupos");
    assert forall i :: 0 <= i < |PREFIXES| ==> PREFIXES[i].0 in ["tesouro", "focus", "anbima", "b3", "ibge_sidra"];
    HeadOutsideTable(task, PREFIXES);
  }

  lemma {:induction false} PrefixFixesHead(task: string, prefix: string)
    requires |prefix| >= 2
    ensures StartsWith(task, prefix) ==> |task| >= 2 && task[0] == prefix[0] && task[1] == prefix[1]
  {
    if StartsWith(task, prefix) {
      assert task[0] == task[..|prefix|][0] && task[1] == task[..|prefix|][1];
    }
  }

  lemma {:induction false} HeadOutsideTable(task: string, table: seq<(string, Provider)>)
    requires |task| >= 2
    requires forall i :: 0 <= i < |table| ==>
      |table[i].0| >= 2 && !(table[i].0[0] == task[0] && table[i].0[1] == task[1])
    ensures ScopeIn(task, table) == None
  {
    if table != [] {
      PrefixFixesHead(task, table[0].0 + "_");
      HeadOutsideTable(task, table[1..]);
    }
  }

  lemma {:induction false} ScopeInTable(task: string, table: seq<(string, Provider)>, k: nat)
    requires k < |table| && (task == table[k].0 || StartsWith(task, table[k].0 + "_"))
    requires forall i :: 0 <= i < k ==> task != table[i].0 && !StartsWith(task, table[i].0 + "_")
    ensures ScopeIn(task, table) == Some(table[k].1)
  {
    if k > 0 { ScopeInTable(task, table[1..], k - 1); }
  }

  lemma {:induction false} ScopeNotInTable(task: string, table: seq<(string, Provider)>)
    ensures ScopeIn(task, table) == None
       <==> forall i :: 0 <= i < |table| ==> task != table[i].0 && !StartsWith(task, table[i].0 + "_")
  {
    if table != [] {
      var rest := table[1..];
      ScopeNotInTable(task, rest);
      assert forall i :: 0 < i < |table| ==> table[i] == rest[i - 1];
    }
  }

  /** A task name of a provider: its prefix alone, or followed by an underscore and anything. */
  predicate Named(task: string, provider: string, x: string) {
    task == provider || task == provider + "_" + x
  }

  lemma {:induction false} NamesStart(task: string, provider: string, x: string)
    requires Named(task, provider, x) && |provider| >= 2
    ensures task == provider || StartsWith(task, provider + "_")
    ensures |task| >= 2 && task[0] == provider[0] && task[1] == provider[1]
  {
    if task != provider { assert task[..|provider + "_"|] == provider + "_"; }
  }

  /** The k-th provider's names belong to it, because no two entries of the table start alike. */
  lemma {:induction false} NamesOfEntry(task: string, k: nat, x: string)
    requires k < |PREFIXES| && Named(task, PREFIXES[k].0, x)
    ensures Scope(task) == Some(PREFIXES[k].1)
  {
    hide StartsWith, ScopeIn;
    EntriesStartApart();
    NamesStart(task, PREFIXES[k].0, x);
    PrefixFixesHead(task, "sgs_");
    PrefixFixesHead(task, "ipca_grupos");
    forall i | 0 <= i < k ensures task != PREFIXES[i].0 && !StartsWith(task, PREFIXES[i].0 + "_") {
      PrefixFixesHead(task, PREFIXES[i].0 + "_");
    }
    ScopeInTable(task, PREFIXES, k);
  }

  lemma {:induction false} EntriesStartApart()
    ensures forall i :: 0 <= i < |PREFIXES| ==>
      |PREFIXES[i].0| >= 2 && PREFIXES[i].0[0] != 's' && PREFIXES[i].0[1] != 'p'
    ensures forall i, k :: 0 <= i < k < |PREFIXES| ==>
      PREFIXES[i].0[0] != PREFIXES[k].0[0] || PREFIXES[i].0[1] != PREFIXES[k].0[1]
  {
    assert PREFIXES[0].0 == "tesouro" && PREFIXES[1].0 == "focus" && PREFIXES[2].0 == "anbima";
    assert PREFIXES[3].0 == "b3" && PREFIXES[4].0 == "ibge_sidra";
  }

  /** Each prefix names its own provider, whatever follows; the SGS series follow their prefix directly. */
  lemma {:induction false} ScopeOfNames(task: string, x: string)
    ensures Named(task, "tesouro", x) ==> Scope(task) == Some(Tesouro)
    ensures Named(task, "focus", x) ==> Scope(task) == Some(Focus)
    ensures Named(task, "anbima", x) ==> Scope(task) == Some(Anbima)
    ensures Named(task, "b3", x) ==> Scope(task) == Some(B3)
    ensures Named(task, "ibge_sidra", x) ==> Scope(task) == Some(IbgeSidra)
    ensures task == "sgs_" + x || task == "ipca_grupos" + x ==> Scope(task) == Some(BcbSgs)
  {
    hide Named, Scope;
    forall k | 0 <= k < 5 && Named(task, PREFIXES[k].0, x) ensures Scope(task) == Some(PREFIXES[k].1) {
      NamesOfEntry(task, k, x);
    }
    assert PREFIXES[0] == ("tesouro", Tesouro) && PREFIXES[1] == ("focus", Focus) && PREFIXES[2] == ("anbima", Anbima);
    assert PREFIXES[3] == ("b3", B3) && PREFIXES[4] == ("ibge_sidra", IbgeSidra);
    SgsNames(task, x);
  }

  lemma {:induction false} SgsNames(task: string, x: string)
    ensures task == "sgs_" + x || task == "ipca_grupos" + x ==> Scope(task) == Some(BcbSgs)
  {
    if task == "sgs_" + x { assert task[..4] == "sgs_"; }
    if task == "ipca_grupos" + x { assert task[..11] == "ipca_grupos"; }
  }

  lemma {:induction false} EntryNames(task: string, provider: string) returns (x: string)
    requires task == provider || StartsWith(task, provider + "_")
    ensures Named(task, provider, x)
  {
    x := if task == provider then "" else task[|provider| + 1..];
    assert task != provider ==> task == task[..|provider| + 1] + x;
  }

  /** No other name has a provider. */
  lemma {:induction false} ScopeOutsideTheTable(task: string)
    requires Scope(task).Some?
    ensures exists x ::
      || Named(task, "tesouro", x) || Named(task, "focus", x) || Named(task, "anbima", x) || Named(task, "b3", x)
      || Named(task, "ibge_sidra", x) || task == "sgs_" + x || task == "ipca_grupos" + x
  {
    if StartsWith(task, "sgs_") {
      assert task == "sgs_" + task[4..];
    } else if StartsWith(task, "ipca_grupos") {
      assert task == "ipca_grupos" + task[11..];
    } else {
      hide StartsWith, ScopeIn, Named;
      ScopeNotInTable(task, PREFIXES);
      var k :| 0 <= k < |PREFIXES| && (task == PREFIXES[k].0 || StartsWith(task, PREFIXES[k].0 + "_"));
      var x := EntryNames(task, PREFIXES[k].0);
      assert PREFIXES[k].0 in {"tesouro", "focus", "anbima", "b3", "ibge_sidra"};
    }
  }

  /** A task is refused exactly if it has a provider, the provider a breaker row, and that row is not closed and
      has an instant of its three ahead. */
  lemma {:induction false} RefusedTasks(task: string, breakers: map<Provider, Breaker>, now: Time)
    ensures !Eligible(task, breakers, now) <==>
      && Scope(task).Some? && Scope(task).value in breakers
      && var b := breakers[Scope(task).value];
         && b.state != Closed
         && ((b.retryNotBefore.Some? && b.retryNotBefore.value > now)
             || (b.openedUntil.Some? && b.openedUntil.value > now)
             || (b.probeLeaseUntil.Some? && b.probeLeaseUntil.value > now))
  {
    hide Scope;
  }

  /** For a fixed breaker state, a provider once admitted stays admitted. */
  lemma {:induction false} AdmissionIsMonotone(state: Option<Breaker>, now: Time, later: Time)
    requires now <= later && ProviderEligibility(state, now).Admit?
    ensures ProviderEligibility(state, later).Admit?
  {
  }

  /** Deferral is exact: the stamp on a refused item exists, lies in the future, and is the first
      instant at which the same breaker state admits the provider. */
  lemma {:induction false} StampIsFirstAdmission(state: Option<Breaker>, now: Time, at: Time)
    requires !ProviderEligibility(state, now).Admit?
    ensures DeferralStamp(state).Some? && DeferralStamp(state).value > now
    ensures ProviderEligibility(state, at).Admit? <==> at >= DeferralStamp(state).value
  {
  }

  /** The instant reported by the scheduler itself is never late, and it is exact if and only if no cooldown
      outlasts a running probe lease. */
  lemma {:induction false} ReportedInstantIsExact(b: Breaker, now: Time)
    requires ProviderEligibility(Some(b), now).Refuse?
    ensures
      var reported, stamp := ProviderEligibility(Some(b), now).until, DeferralStamp(Some(b)).value;
      && now < reported <= stamp
      && (reported == stamp <==>
            (Future(b.probeLeaseUntil, now) ==>
               !Future(MaxOption(b.retryNotBefore, b.openedUntil), b.probeLeaseUntil.value)))
  {
  }

  /** A half-open breaker that probes until 5 and cools down until 9: the instant reported at 0 is 5, and at 5
      the provider is still refused. */
  lemma {:induction false} ReportedInstantCanBeEarly()
    ensures
      var b := Breaker(HalfOpen, None, Some(9), Some(5));
      && ProviderEligibility(Some(b), 0) == Refuse(5, true)
      && !ProviderEligibility(Some(b), 5).Admit?
      && DeferralStamp(Some(b)) == Some(9)
  {
  }
}
