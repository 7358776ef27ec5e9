/** Login flows: a rate limit over the flow table itself, one-time consumption, and cleanup in batches. */
module LoginFlows {
  import opened Wrappers

  const MINUTE := 60 * 1_000_000
  const HOUR := 60 * MINUTE
  const FLOW_TTL := 10 * MINUTE
  const MAX_PER_HOUR := 5
  /** How far a cleanup clock may run ahead of a later login: 24 hours and the lifetime, less the hour. */
  const GRACE := 24 * HOUR + FLOW_TTL - HOUR

  datatype Flow = Flow(handle: string, state: string, binding: string, createdAt: int, expiresAt: int,
                       consumedAt: Option<int>)

  /** Rows by id, the primary key. */
  type Flows = map<string, Flow>

  datatype CreateResult = Created | Limited | Conflict

  /** The primary key and the two unique columns. */
  predicate Clashes(t: Flows, id: string, handle: string, state: string) {
    id in t || exists k :: k in t && (t[k].handle == handle || t[k].state == state)
  }

  function Recent(t: Flows, binding: string, since: int): set<string> {
    set id | id in t && t[id].binding == binding && t[id].createdAt >= since
  }

  function CreateFlow(t: Flows, id: string, handle: string, state: string, binding: string, expiresAt: int, now: int,
                      maxPerHour: int): (Flows, CreateResult)
  {
    if |Recent(t, binding, now - HOUR)| >= maxPerHour then (t, Limited)
    else if Clashes(t, id, handle, state) then (t, Conflict)
    else (t[id := Flow(handle, state, binding, now, expiresAt, None)], Created)
  }

  predicate Consumable(f: Flow, state: string, handle: string, binding: string, now: int) {
    f.state == state && f.handle == handle && f.binding == binding && f.consumedAt.None? && f.expiresAt > now
  }

  ghost predicate Unique(t: Flows) {
    forall a, b :: a in t && b in t && (t[a].state == t[b].state || t[a].handle == t[b].handle) ==> a == b
  }

  ghost function ConsumeFlow(t: Flows, state: string, handle: string, binding: string, now: int)
    : (Flows, Option<string>)
  {
    if exists id :: id in t && Consumable(t[id], state, handle, binding, now) then
      var id :| id in t && Consumable(t[id], state, handle, binding, now);
      (t[id := t[id].(consumedAt := Some(now))], Some(id))
    else (t, None)
  }

  function Expired(t: Flows, now: int): set<string> {
    set id | id in t && t[id].expiresAt < now - 24 * HOUR
  }

  /** What one cleanup deletes: at most size rows that expired more than a day ago, and all of them if fewer. */
  predicate IsBatch(t: Flows, now: int, size: int, chosen: set<string>) {
    && |chosen| <= size
    && (forall id :: id in chosen ==> id in t && t[id].expiresAt + 86_400_000_000 < now)
    && (|chosen| < size ==> forall id :: id in t && id !in chosen ==> t[id].expiresAt + 86_400_000_000 >= now)
  }

  lemma {:induction false} ExpiredBatch(t: Flows, now: int, size: int, chosen: set<string>)
    requires chosen <= Expired(t, now) && |chosen| <= size && (|chosen| == size || chosen == Expired(t, now))
    ensures IsBatch(t, now, size, chosen)
  {
  }

  // ---------- histories ----------

  /** One committed transaction; its clock was read before, so clocks need not be in commit order. */
  datatype Event =
    | Login(id: string, handle: string, state: string, binding: string, now: int)
    | Callback(state: string, handle: string, binding: string, now: int)
    | Cleanup(now: int, chosen: set<string>)

  function LoginResult(t: Flows, e: Event): (Flows, CreateResult)
    requires e.Login?
  {
    CreateFlow(t, e.id, e.handle, e.state, e.binding, e.now + FLOW_TTL, e.now, MAX_PER_HOUR)
  }

  ghost function Apply(t: Flows, e: Event): Flows {
    match e
    case Login(_, _, _, _, _) => LoginResult(t, e).0
    case Callback(state, handle, binding, now) => ConsumeFlow(t, state, handle, binding, now).0
    case Cleanup(now, chosen) => t - (chosen * Expired(t, now))
  }

  ghost function Run(h: seq<Event>): Flows {
    if h == [] then map[] else Apply(Run(h[..|h| - 1]), h[|h| - 1])
  }

  ghost predicate Creates(t: Flows, e: Event) {
    e.Login? && LoginResult(t, e).1.Created?
  }

  /** How many flows of a binding the history created in the closed hour from t on. */
  ghost function Logins(h: seq<Event>, binding: string, from: int): nat {
    if h == [] then 0
    else
      var before, e := h[..|h| - 1], h[|h| - 1];
      Logins(before, binding, from)
      + if Creates(Run(before), e) && e.binding == binding && from <= e.now <= from + 3_600_000_000 then 1 else 0
  }

  /** No cleanup ran on a clock more than GRACE ahead of a login committed after it. */
  predicate CleanupsInTime(h: seq<Event>) {
    forall i, j :: 0 <= i < j < |h| && h[i].Cleanup? && h[j].Login? ==> h[i].now <= h[j].now + GRACE
  }

  predicate ClockIsMonotone(h: seq<Event>) {
    forall i, j :: 0 <= i < j < |h| ==> h[i].now <= h[j].now
  }

  ghost predicate TableOk(t: Flows) {
    Unique(t) && forall id :: id in t ==> t[id].expiresAt == t[id].createdAt + FLOW_TTL
  }

  lemma {:induction false} ApplyKeepsTable(t: Flows, e: Event)
    requires TableOk(t)
    ensures TableOk(Apply(t, e))
  {
  }

  lemma {:induction false} RunIsOk(h: seq<Event>)
    ensures TableOk(Run(h))
  {
    if h != [] {
      RunIsOk(h[..|h| - 1]);
      ApplyKeepsTable(Run(h[..|h| - 1]), h[|h| - 1]);
    }
  }

  // ---------- the sliding window ----------

  function InHour(t: Flows, binding: string, from: int): set<string> {
    set id | id in t && t[id].binding == binding && from <= t[id].createdAt <= from + HOUR
  }

  /** A cleanup so late that it may remove flows of the hour. */
  ghost predicate Swept(h: seq<Event>, from: int) {
    exists i :: 0 <= i < |h| && h[i].Cleanup? && h[i].now > from + 24 * HOUR + FLOW_TTL
  }

  lemma {:induction false} LoginCases(t: Flows, e: Event)
    requires e.Login?
    ensures Creates(t, e) ==>
              && e.id !in t
              && |Recent(t, e.binding, e.now - HOUR)| < MAX_PER_HOUR
              && Apply(t, e) == t[e.id := Flow(e.handle, e.state, e.binding, e.now, e.now + FLOW_TTL, None)]
    ensures !Creates(t, e) ==> Apply(t, e) == t
  {
    hide Recent;
  }

  /** A login that counts in an hour saw all of that hour's flows, whatever the order of the clocks. */
  lemma {:induction false} LoginStep(t: Flows, e: Event, binding: string, from: int)
    requires e.Login?
    ensures
      var counts := Creates(t, e) && e.binding == binding && from <= e.now <= from + HOUR;
      && (counts ==> |InHour(t, binding, from)| < MAX_PER_HOUR)
      && |InHour(Apply(t, e), binding, from)| == |InHour(t, binding, from)| + if counts then 1 else 0
  {
    hide Apply, Creates;
    LoginCases(t, e);
    var was, after := InHour(t, binding, from), InHour(Apply(t, e), binding, from);
    if Creates(t, e) && e.binding == binding && from <= e.now <= from + HOUR {
      assert was <= Recent(t, binding, e.now - HOUR);
      SubsetIsSmaller(was, Recent(t, binding, e.now - HOUR));
      assert after == was + {e.id};
    } else {
      assert after == was;
    }
  }

  lemma {:induction false} OtherStep(t: Flows, e: Event, binding: string, from: int)
    requires TableOk(t) && !e.Login?
    requires e.Cleanup? ==> e.now <= from + 24 * HOUR + FLOW_TTL
    ensures InHour(Apply(t, e), binding, from) == InHour(t, binding, from)
  {
    hide CreateFlow;
  }

  lemma {:induction false} SubsetIsSmaller(a: set<string>, b: set<string>)
    requires a <= b
    ensures |a| <= |b|
  {
    if a != {} {
      var x :| x in a;
      SubsetIsSmaller(a - {x}, b - {x});
    }
  }

  /** The limit survives cleanup and reordering: no binding ever creates more than five flows in any
      closed hour, in whatever order its logins commit, if no cleanup clock runs ahead by more than GRACE. */
  lemma {:induction false} LimitHolds(h: seq<Event>, binding: string, from: int)
    requires CleanupsInTime(h)
    ensures Logins(h, binding, from) <= MAX_PER_HOUR
    ensures !Swept(h, from) ==> Logins(h, binding, from) == |InHour(Run(h), binding, from)|
  {
    if h != [] {
      var before, e := h[..|h| - 1], h[|h| - 1];
      LimitHolds(before, binding, from);
      RunIsOk(before);
      if e.Login? {
        LoginStep(Run(before), e, binding, from);
      } else if !(e.Cleanup? && e.now > from + 24 * HOUR + FLOW_TTL) {
        OtherStep(Run(before), e, binding, from);
      }
      if Swept(before, from) {
        var i :| 0 <= i < |before| && before[i].Cleanup? && before[i].now > from + 24 * HOUR + FLOW_TTL;
        assert h[i] == before[i];
        assert Swept(h, from);
      }
      assert e.Cleanup? && e.now > from + 24 * HOUR + FLOW_TTL ==> Swept(h, from);
    }
  }

  lemma {:induction false} LimitHoldsInClockOrder(h: seq<Event>, binding: string, from: int)
    requires ClockIsMonotone(h)
    ensures Logins(h, binding, from) <= MAX_PER_HOUR
  {
    LimitHolds(h, binding, from);
  }

  // ---------- and is no tighter ----------

  lemma {:induction false} RowsAreNotAhead(h: seq<Event>, now: int)
    requires forall i :: 0 <= i < |h| ==> h[i].now <= now
    ensures forall id :: id in Run(h) ==> Run(h)[id].createdAt <= now
  {
    hide Apply;
    if h != [] {
      var before, e := h[..|h| - 1], h[|h| - 1];
      RowsAreNotAhead(before, now);
      StepCreatesNow(Run(before), e);
    }
  }

  lemma {:induction false} StepCreatesNow(t: Flows, e: Event)
    ensures forall id :: id in Apply(t, e) ==>
      (id in t && Apply(t, e)[id].createdAt == t[id].createdAt) || Apply(t, e)[id].createdAt == e.now
  {
  }

  /** In clock order a login is turned away by the limit exactly if its binding has created five flows in the
      closed hour up to now, a conflict only if its id, handle or state is taken, and it is stored otherwise. */
  lemma {:induction false} LimitedExactly(h: seq<Event>, e: Event)
    requires ClockIsMonotone(h + [e]) && e.Login?
    ensures
      var t := Run(h);
      var (after, result) := LoginResult(t, e);
      var taken := exists id :: id in t && (id == e.id || t[id].handle == e.handle || t[id].state == e.state);
      && (result == Limited <==> Logins(h, e.binding, e.now - 3_600_000_000) == 5)
      && (result == Conflict <==> Logins(h, e.binding, e.now - 3_600_000_000) < 5 && taken)
      && (result == Created ==>
            after == t[e.id := Flow(e.handle, e.state, e.binding, e.now, e.now + 600_000_000, None)])
      && (result != Created ==> after == t)
  {
    hide Logins, Swept, Apply;
    var t, from := Run(h), e.now - HOUR;
    forall i | 0 <= i < |h| ensures h[i].now <= e.now {
      assert (h + [e])[i] == h[i] && (h + [e])[|h|] == e;
    }
    assert ClockIsMonotone(h) by {
      forall i, j | 0 <= i < j < |h| ensures h[i].now <= h[j].now {
        assert (h + [e])[i] == h[i] && (h + [e])[j] == h[j];
      }
    }
    NotSwept(h, from, e.now);
    LimitHolds(h, e.binding, from);
    RowsAreNotAhead(h, e.now);
    assert InHour(t, e.binding, from) == Recent(t, e.binding, from);
  }

  lemma {:induction false} NotSwept(h: seq<Event>, from: int, now: int)
    requires now <= from + HOUR && forall i :: 0 <= i < |h| ==> h[i].now <= now
    ensures !Swept(h, from)
  {
  }

  // ---------- the bound on cleanup clocks is tight ----------

  function Name(k: nat): string {
    seq(k, _ => 'x')
  }

  function Flood(k: nat): seq<Event> {
    if k == 0 then [] else Flood(k - 1) + [FloodLogin(k)]
  }

  function FloodLogin(k: nat): Event {
    Login(Name(k), Name(k), Name(k), "b", 0)
  }

  ghost predicate Flooded(t: Flows, k: nat) {
    |t.Keys| == k && forall id :: id in t ==> |id| <= k && t[id] == Flow(id, id, "b", 0, FLOW_TTL, None)
  }

  lemma {:induction false} FreshLoginSucceeds(t: Flows, e: Event)
    requires e.Login? && |Recent(t, e.binding, e.now - HOUR)| < MAX_PER_HOUR
    requires forall k :: k in t ==> k != e.id && t[k].handle != e.handle && t[k].state != e.state
    ensures Creates(t, e)
  {
    hide Recent;
  }

  lemma {:induction false} FloodStep(t: Flows, k: nat)
    requires Flooded(t, k) && k < MAX_PER_HOUR
    ensures Creates(t, FloodLogin(k + 1)) && Flooded(Apply(t, FloodLogin(k + 1)), k + 1)
  {
    hide Apply, Creates;
    var e := FloodLogin(k + 1);
    SubsetIsSmaller(Recent(t, "b", -HOUR), t.Keys);
    assert |Name(k + 1)| == k + 1 && Name(k + 1) !in t;
    FreshLoginSucceeds(t, e);
    LoginCases(t, e);
    assert Apply(t, e).Keys == t.Keys + {e.id};
  }

  lemma {:induction false} FloodFills(k: nat)
    requires k <= MAX_PER_HOUR
    ensures |Flood(k)| == k && Flooded(Run(Flood(k)), k) && Logins(Flood(k), "b", 0) == k
    ensures forall i :: 0 <= i < k ==> Flood(k)[i].Login?
  {
    hide Flooded, Apply, Creates, Run, Logins, Name;
    if k == 0 {
      NothingIsFlooded();
    } else {
      FloodFills(k - 1);
      FloodStep(Run(Flood(k - 1)), k - 1);
      OneMore(Flood(k - 1), FloodLogin(k), "b", 0);
    }
  }

  lemma {:induction false} NothingIsFlooded()
    ensures Flooded(Run([]), 0) && Logins([], "b", 0) == 0
  {
  }

  lemma {:induction false} OneMore(h: seq<Event>, e: Event, binding: string, from: int)
    ensures Run(h + [e]) == Apply(Run(h), e)
    ensures Logins(h + [e], binding, from)
         == Logins(h, binding, from)
            + if Creates(Run(h), e) && e.binding == binding && from <= e.now <= from + HOUR then 1 else 0
  {
    assert (h + [e])[..|h|] == h;
  }

  ghost function Overrun(): seq<Event> {
    Flood(MAX_PER_HOUR)
    + [Cleanup(HOUR + GRACE + 1, Run(Flood(MAX_PER_HOUR)).Keys)]
    + [Login("y", "y", "y", "b", HOUR)]
  }

  /** A cleanup clock one microsecond further ahead lets a sixth login into the same closed hour. */
  lemma {:induction false} GraceIsTight()
    ensures Logins(Overrun(), "b", 0) == MAX_PER_HOUR + 1
    ensures forall i, j :: 0 <= i < j < |Overrun()| && Overrun()[i].Cleanup? && Overrun()[j].Login? ==>
              Overrun()[i].now == Overrun()[j].now + GRACE + 1
  {
    hide Creates, Logins, Run;
    FloodFills(MAX_PER_HOUR);
    var t, h := Run(Flood(MAX_PER_HOUR)), Flood(MAX_PER_HOUR);
    var sweep, last := Cleanup(HOUR + GRACE + 1, t.Keys), Login("y", "y", "y", "b", HOUR);
    assert Apply(t, sweep) == map[];
    assert Recent(map[], "b", 0) == {};
    FreshLoginSucceeds(map[], last);
    OnlyLoginsCreate(t, sweep);
    OneMore(h, sweep, "b", 0);
    OneMore(h + [sweep], last, "b", 0);
  }

  lemma {:induction false} OnlyLoginsCreate(t: Flows, e: Event)
    ensures Creates(t, e) ==> e.Login?
  {
  }

  // ---------- consumption ----------

  ghost predicate Consumes(t: Flows, e: Event, id: string) {
    e.Callback? && ConsumeFlow(t, e.state, e.handle, e.binding, e.now).1 == Some(id)
  }

  ghost function Consumptions(h: seq<Event>, id: string): nat {
    if h == [] then 0
    else
      var before, e := h[..|h| - 1], h[|h| - 1];
      Consumptions(before, id) + if Consumes(Run(before), e, id) then 1 else 0
  }

  ghost function Creations(h: seq<Event>, id: string): nat {
    if h == [] then 0
    else
      var before, e := h[..|h| - 1], h[|h| - 1];
      Creations(before, id) + if Creates(Run(before), e) && e.id == id then 1 else 0
  }

  /** The callback names the flow by its state, handle and browser, and the flow is unconsumed and in time. */
  predicate Fits(f: Flow, state: string, handle: string, binding: string, now: int) {
    f.state == state && f.handle == handle && f.binding == binding && f.consumedAt == None && now < f.expiresAt
  }

  /** A callback succeeds exactly for the one flow that fits it, which is younger than the lifetime; it changes
      that row alone, and no callback for the same flow ever succeeds again. */
  lemma {:induction false} ConsumptionIsExact(t: Flows, state: string, handle: string, binding: string, now: int)
    requires TableOk(t)
    ensures
      var (after, r) := ConsumeFlow(t, state, handle, binding, now);
      && (r.Some? <==> exists id :: id in t && Fits(t[id], state, handle, binding, now))
      && (r.None? ==> after == t)
      && (r.Some? ==>
            && r.value in t
            && Fits(t[r.value], state, handle, binding, now)
            && now < t[r.value].createdAt + FLOW_TTL
            && after == t[r.value := t[r.value].(consumedAt := Some(now))]
            && (forall later :: ConsumeFlow(after, state, handle, binding, later).1.None?))
  {
    if exists id :: id in t && Fits(t[id], state, handle, binding, now) {
      var id :| id in t && Fits(t[id], state, handle, binding, now);
      assert Consumable(t[id], state, handle, binding, now);
    }
  }

  ghost function Open(t: Flows, id: string): nat {
    if id in t && t[id].consumedAt.None? then 1 else 0
  }

  lemma {:induction false} OpenStep(t: Flows, e: Event, id: string)
    ensures Open(Apply(t, e), id) + (if Consumes(t, e, id) then 1 else 0)
         <= Open(t, id) + if Creates(t, e) && e.id == id then 1 else 0
  {
    hide Creates;
    if e.Login? { LoginCases(t, e); }
  }

  /** Over any history a flow is consumed at most once for each time its id was created. */
  lemma {:induction false} ConsumedAtMostOnce(h: seq<Event>, id: string)
    ensures Consumptions(h, id) + Open(Run(h), id) <= Creations(h, id)
  {
    hide Apply, Creates, Consumes, Open;
    if h != [] {
      ConsumedAtMostOnce(h[..|h| - 1], id);
      OpenStep(Run(h[..|h| - 1]), h[|h| - 1], id);
    } else {
      NothingIsOpen(id);
    }
  }

  lemma {:induction false} NothingIsOpen(id: string)
    ensures Open(Run([]), id) == 0
  {
  }

  /** Cleanup is invisible to every callback whose clock is not a day behind. */
  lemma {:induction false} CleanupSparesLiveFlows(t: Flows, chosen: set<string>, at: int, state: string,
                                                  handle: string, binding: string, now: int)
    requires TableOk(t) && now >= at - 24 * HOUR
    ensures ConsumeFlow(Apply(t, Cleanup(at, chosen)), state, handle, binding, now).1
         == ConsumeFlow(t, state, handle, binding, now).1
  {
    var after := Apply(t, Cleanup(at, chosen));
    forall id | id in t && Consumable(t[id], state, handle, binding, now) ensures id in after && after[id] == t[id] {
    }
  }
}
