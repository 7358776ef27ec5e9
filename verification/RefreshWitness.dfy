/** Two interleavings, from the empty database, that show which hypotheses the theorems need. */
module RefreshWitness {
  import opened Wrappers
  import opened Scheduler
  import opened RetryPolicy
  import opened RefreshModel
  import opened RefreshInvariants
  import opened RefreshSafety
  import opened RefreshProgress
  import opened RefreshVerdict
  import opened RefreshStale

  function OneRun(version: string, state: RunState, items: seq<Item>, lease: Option<Lease>, next: Token,
                  marked: set<Token>): Db {
    Db(map["r" := Run(state, "c", false, version, None, None, if state.Running? then None else Some(9),
                      if state.Running? then None else Some("{}"), None, items)],
       lease, map[], next, marked, None)
  }

  function Running1(version: string, items: seq<Item>, next: Token, marked: set<Token>): Db {
    OneRun(version, Running, items, Some(Lease("r", 100)), next, marked)
  }

  function StartOf(version: string, specs: seq<Spec>): Event {
    Start(StartRequest("r", "c", false, version, None, None, specs, None, 0, 100))
  }

  lemma {:induction false} ExecCons(db: Db, e: Event, rest: seq<Event>)
    requires WellTyped(e) && AllWellTyped(rest)
    ensures AllWellTyped([e] + rest) && Exec(db, [e] + rest) == Exec(Apply(db, e), rest)
  {
    assert ([e] + rest)[1..] == rest;
  }

  // ---------- a version 6 run that can neither claim nor finalize ----------

  const A0 := FreshItem(Spec("a", "sgs_a", 0))
  const B0 := FreshItem(Spec("b", "sgs_b", 1))

  function DeferredA(n: nat, at: Time): Item {
    Item("a", "sgs_a", 0, Pending, n, n, n, None, None, None, 0, 0, Some("Deferred"), Some(at), Some("retry_after"),
         Some(RateLimited), None)
  }

  lemma {:induction false} SgsScope()
    ensures Scope("sgs_a") == Some(BcbSgs) && Scope("sgs_b") == Some(BcbSgs)
  {
    assert "sgs_a"[..4] == "sgs_" && "sgs_b"[..4] == "sgs_";
  }

  /** The first of two rows is handed out whenever it is open, below the cap and not waiting. */
  lemma {:induction false} ClaimFirst(a: Item, b: Item, next: Token, marked: set<Token>, c: ClaimRequest)
    requires c.run == "r" && c.expected.None? && c.expires > c.now && c.now < 100
    requires a.status.Pending? && a.acquisitions < MAX_ATTEMPTS && !Future(a.nextAttempt, c.now)
    requires b.status.Pending?
    ensures ClaimNext(Running1(V6, [a, b], next, marked), c).db
         == Running1(V6, [HandOutV6(a, next, c.expires), b], next + 1, marked)
  {
    var rows := Exhausted([a, b], c.now);
    assert rows == [a, b];
    assert FirstBlocker(rows, 0, map[], c.now).None?;
    assert Ready(rows, 0, map[], c);
    FirstReadyIs(rows, map[], c, 0);
    assert V6Rows(rows, map[], c, next) == [HandOutV6(a, next, c.expires), b];
  }

  lemma {:induction false} MarkFirst(a: Item, next: Token, marked: set<Token>, m: MarkRequest)
    requires m.run == "r" && MarkMatches(a, m) && m.token !in marked && a.key != B0.key
    ensures MarkAcquisition(Running1(V6, [a, B0], next, marked), m).db
         == Running1(V6, [MarkItem(a, m), B0], next, marked + {m.token})
  {
    var items := [a, B0];
    assert MarkMatches(items[0], m);
    assert MapItems(items, it => MarkItem(it, m)) == [MarkItem(a, m), B0];
  }

  lemma {:induction false} DeferFirst(a: Item, next: Token, marked: set<Token>, d: DeferRequest)
    requires d.run == "r" && HoldsClaim(a, d.key, d.token, d.now) && d.nextAttempt > d.now && d.reason != ""
        && d.now < 100
    requires a.key != B0.key
    ensures Defer(Running1(V6, [a, B0], next, marked), d).db == Running1(V6, [DeferItem(a, d), B0], next, marked)
  {
    var items := [a, B0];
    assert MapItems(items, it => DeferItem(it, d)) == [DeferItem(a, d), B0];
  }

  lemma {:induction false} StartBoth()
    ensures Apply(EMPTY, START_TWO) == Running1(V6, [A0, B0], 0, {})
  {
    var specs := [Spec("a", "sgs_a", 0), Spec("b", "sgs_b", 1)];
    assert specs[..1] == [specs[0]] && [specs[0]][..0] == [];
    assert OrderedSpecs([specs[0]]) == [specs[0]];
    assert InsertSpec(specs[1], [specs[0]]) == specs by { assert InsertSpec(specs[1], []) == [specs[1]]; }
    assert OrderedSpecs(specs) == specs;
    assert FreshItems(specs) == [A0, B0];
  }

  function ClaimAt(now: Time): ClaimRequest {
    ClaimRequest("r", now, now + 5, None)
  }

  function RateLimitedAt(token: Token, now: Time): DeferRequest {
    DeferRequest("r", "a", token, now + 1, "retry_after", now, Some(RateLimited), None)
  }

  /** Claim at now, acquire and be rate limited one instant later. */
  function Round(generation: nat, token: Token, now: Time): seq<Event> {
    [Claim(ClaimAt(now)), Mark(MarkRequest("r", "a", generation, token, now + 1)),
     Deferral(RateLimitedAt(token, now + 1))]
  }

  const START_TWO := StartOf(V6, [Spec("a", "sgs_a", 0), Spec("b", "sgs_b", 1)])
  const STUCK_EVENTS: seq<Event> := [START_TWO] + (Round(1, 0, 0) + Round(2, 1, 2))
  const STUCK_DB := Running1(V6, [DeferredA(2, 4), B0], 2, {0, 1})

  function AfterRound(a: Item, token: Token, now: Time): Item {
    DeferItem(MarkItem(HandOutV6(a, token, now + 5), MarkRequest("r", "a", a.generation + 1, token, now + 1)),
              RateLimitedAt(token, now + 1))
  }

  lemma {:induction false} RoundDefers(a: Item, next: Token, marks: set<Token>, now: Time)
    requires a.key == "a" && a.status.Pending? && a.acquisitions < MAX_ATTEMPTS && !Future(a.nextAttempt, now)
    requires now + 1 < 100 && next !in marks
    ensures
      && AllWellTyped(Round(a.generation + 1, next, now))
      && Exec(Running1(V6, [a, B0], next, marks), Round(a.generation + 1, next, now))
           == Running1(V6, [AfterRound(a, next, now), B0], next + 1, marks + {next})
  {
    hide ClaimNext, MarkAcquisition, Defer;
    var mark := MarkRequest("r", "a", a.generation + 1, next, now + 1);
    var held := HandOutV6(a, next, now + 5);
    var marked := MarkItem(held, mark);
    ClaimFirst(a, B0, next, marks, ClaimAt(now));
    MarkFirst(held, next + 1, marks, mark);
    DeferFirst(marked, next + 1, marks + {next}, RateLimitedAt(next, now + 1));
    ThreeSteps(Running1(V6, [a, B0], next, marks), Running1(V6, [held, B0], next + 1, marks),
               Running1(V6, [marked, B0], next + 1, marks + {next}),
               Running1(V6, [AfterRound(a, next, now), B0], next + 1, marks + {next}),
                 Round(a.generation + 1, next, now));
  }

  lemma {:induction false} SortedTicksAreInOrder(events: seq<Event>, clock: Time)
    requires forall i :: 0 <= i < |events| ==> !events[i].BreakerChange? && clock <= Tick(events[i], 0)
    requires forall i, j :: 0 <= i < j < |events| ==> Tick(events[i], 0) <= Tick(events[j], 0)
    ensures InOrder(events, clock)
    decreases |events|
  {
    if events != [] { SortedTicksAreInOrder(events[1..], Tick(events[0], clock)); }
  }

  lemma {:induction false} StuckEventsInOrder()
    ensures InOrder(STUCK_EVENTS, 0)
  {
    var ticks := [0, 0, 1, 1, 2, 3, 3];
    forall i | 0 <= i < |ticks| ensures Tick(STUCK_EVENTS[i], 0) == ticks[i] && !STUCK_EVENTS[i].BreakerChange? {
      if i == 0 { assert STUCK_EVENTS[i] == START_TWO; }
      else if i < 4 { assert STUCK_EVENTS[i] == Round(1, 0, 0)[i - 1]; }
      else { assert STUCK_EVENTS[i] == Round(2, 1, 2)[i - 4]; }
    }
    SortedTicksAreInOrder(STUCK_EVENTS, 0);
  }

  lemma {:induction false} FirstRound()
    ensures AllWellTyped(Round(1, 0, 0))
    ensures Exec(Running1(V6, [A0, B0], 0, {}), Round(1, 0, 0)) == Running1(V6, [DeferredA(1, 2), B0], 1, {0})
  {
    RoundDefers(A0, 0, {}, 0);
    assert AfterRound(A0, 0, 0) == DeferredA(1, 2);
  }

  lemma {:induction false} SecondRound()
    ensures AllWellTyped(Round(2, 1, 2))
    ensures Exec(Running1(V6, [DeferredA(1, 2), B0], 1, {0}), Round(2, 1, 2)) == STUCK_DB
  {
    RoundDefers(DeferredA(1, 2), 1, {0}, 2);
    assert AfterRound(DeferredA(1, 2), 1, 2) == DeferredA(2, 4);
    assert {0} + {1 as Token} == {0, 1};
  }

  /** Joining three known stretches of an interleaving. */
  lemma {:induction false} Chain(s0: Db, e: Event, s1: Db, xs: seq<Event>, s2: Db, ys: seq<Event>, s3: Db)
    requires WellTyped(e) && AllWellTyped(xs) && AllWellTyped(ys)
    requires Apply(s0, e) == s1 && Exec(s1, xs) == s2 && Exec(s2, ys) == s3
    ensures AllWellTyped([e] + (xs + ys)) && Exec(s0, [e] + (xs + ys)) == s3
  {
    ExecSplit(s1, xs, ys);
    ExecCons(s0, e, xs + ys);
  }

  lemma {:induction false} StuckTrace()
    ensures AllWellTyped(STUCK_EVENTS) && Exec(EMPTY, STUCK_EVENTS) == STUCK_DB
  {
    StartBoth();
    FirstRound();
    SecondRound();
    Chain(EMPTY, START_TWO, Running1(V6, [A0, B0], 0, {}), Round(1, 0, 0),
          Running1(V6, [DeferredA(1, 2), B0], 1, {0}), Round(2, 1, 2), STUCK_DB);
  }

  /** Two rate-limited acquisitions of the first source item, each deferred, leave a run in which nothing is
      claimed, every retry time has passed, every provider is admitted, and yet no claim and no finalization
      can succeed while the second item waits behind the first. */
  lemma {:induction false} StuckRunIsReachable()
    ensures AllWellTyped(STUCK_EVENTS) && InOrder(STUCK_EVENTS, 0)
    ensures
      var db := Exec(EMPTY, STUCK_EVENTS);
      && DbOk(db) && RunningWithLease(db, "r", 4) && !HasActiveClaim(db.runs["r"].items, 4)
      && IsV6(db.runs["r"]) && Calm(db.runs["r"].items, db.breakers, 4)
      && Stuck(Exhausted(db.runs["r"].items, 4))
  {
    StuckEventsInOrder();
    StuckTrace();
    ReachableIsOk(EMPTY, STUCK_EVENTS);
    StuckAtTheEnd();
  }

  lemma {:induction false} ThreeSteps(s0: Db, s1: Db, s2: Db, s3: Db, e: seq<Event>)
    requires |e| == 3 && AllWellTyped(e)
    requires Apply(s0, e[0]) == s1 && Apply(s1, e[1]) == s2 && Apply(s2, e[2]) == s3
    ensures Exec(s0, e) == s3
  {
    assert Exec(s2, e[2..]) == s3;
    assert Exec(s1, e[1..]) == s3;
  }

  lemma {:induction false} StuckAtTheEnd()
    ensures
      var items := [DeferredA(2, 4), B0];
      !HasActiveClaim(items, 4) && Calm(items, map[], 4) && Stuck(Exhausted(items, 4))
  {
    SgsScope();
    var items := [DeferredA(2, 4), B0];
    assert Exhausted(items, 4) == items;
    assert !ResolvedV6(items[0]);
    assert ((i: nat) => i < |items| && !ResolvedV6(items[i]))(0);
    assert !Settled(true, items[1]);
  }

  // ---------- a verdict that went stale ----------

  const SOLO := Spec("a", "focus", 0)

  function Outage(token: Token, status: Status, now: Time): Completion {
    Completion("r", "a", token, status, now + 1, 0, 0, None, if status.Failed? then Some(NetworkTimeout) else None)
  }

  function AttemptEvents(token: Token, now: Time, status: Status): seq<Event> {
    [Claim(ClaimAt(now)), Finish(Outage(token, status, now))]
  }

  function AfterAttempt(a: Item, token: Token, now: Time, status: Status): Item {
    CompleteItem(HandOutV6(a, token, now + 5), Outage(token, status, now))
  }

  /** A source item that never ran, or failed in an outage, is handed out again. */
  predicate MayRun(a: Item) {
    && a.key == "a" && a.task == "focus" && a.acquisitions == 0 && a.nextAttempt.None?
    && (a.status.Pending? || (a.status.Failed? && a.lastErrorCategory == Some(NetworkTimeout)))
  }

  lemma {:induction false} FocusScope()
    ensures Scope("focus") == Some(Focus)
  {
    assert "focus"[0] == 'f' && "sgs_"[0] == 's' && "ipca_grupos"[0] == 'i' && "tesouro"[0] == 't'
        && "tesouro_"[0] == 't';
  }

  lemma {:induction false} ClaimSolo(a: Item, next: Token, now: Time)
    requires MayRun(a) && now < 100
    ensures Apply(Running1(V6, [a], next, {}), Claim(ClaimAt(now)))
        == Running1(V6, [HandOutV6(a, next, now + 5)], next + 1, {})
  {
    var c, rows := ClaimAt(now), Exhausted([a], now);
    FocusScope();
    assert rows == [a];
    assert FirstBlocker(rows, 0, map[], now).None?;
    assert Ready(rows, 0, map[], c);
    FirstReadyIs(rows, map[], c, 0);
    assert V6Rows(rows, map[], c, next) == [HandOutV6(a, next, c.expires)];
  }

  lemma {:induction false} FinishSolo(held: Item, next: Token, now: Time, status: Status)
    requires HoldsClaim(held, "a", next, now + 1) && IsOutcome(status) && now + 1 < 100
    ensures Apply(Running1(V6, [held], next + 1, {}), Finish(Outage(next, status, now)))
         == Running1(V6, [CompleteItem(held, Outage(next, status, now))], next + 1, {})
  {
    var c := Outage(next, status, now);
    assert MapItems([held], it => CompleteItem(it, c)) == [CompleteItem(held, c)];
  }

  lemma {:induction false} AttemptFinishes(a: Item, next: Token, now: Time, status: Status)
    requires MayRun(a) && IsOutcome(status) && now + 1 < 100
    ensures
      && AllWellTyped(AttemptEvents(next, now, status))
      && Exec(Running1(V6, [a], next, {}), AttemptEvents(next, now, status))
           == Running1(V6, [AfterAttempt(a, next, now, status)], next + 1, {})
  {
    hide ClaimNext, Complete;
    ClaimSolo(a, next, now);
    FinishSolo(HandOutV6(a, next, now + 5), next, now, status);
    var held, events := HandOutV6(a, next, now + 5), AttemptEvents(next, now, status);
    assert Apply(Running1(V6, [a], next, {}), events[0]) == Running1(V6, [held], next + 1, {});
    assert Exec(Running1(V6, [held], next + 1, {}), events[1..])
        == Running1(V6, [AfterAttempt(a, next, now, status)], next + 1, {});
  }

  lemma {:induction false} StartSolo()
    ensures Apply(EMPTY, StartOf(V6, [SOLO])) == Running1(V6, [FreshItem(SOLO)], 0, {})
  {
    assert [SOLO][..0] == [];
    assert OrderedSpecs([SOLO]) == [SOLO];
    assert FreshItems([SOLO]) == [FreshItem(SOLO)];
  }

  /** A worker reads a version 6 snapshot whose only source item has failed in an outage; another worker
      retries the item and it succeeds; finalization then accepts the first worker's verdict, and FAILED is
      recorded over a succeeded item, in clock order. The snapshot's verdict was not fixed. */
  lemma {:induction false} StaleFailureIsRecorded()
    ensures
      var before := [StartOf(V6, [SOLO])] + (AttemptEvents(0, 0, Failed) + []);
      var between := AttemptEvents(1, 2, Succeeded);
      && AllWellTyped(before) && AllWellTyped(between) && InOrder(between, 1) && FinalClock(between, 1) <= 4
      && (var snapshot := Exec(EMPTY, before);
          && IsRunning(snapshot, "r") && !VerdictIsFixedAt(true, snapshot.runs["r"].items, 1)
          && (var f := Finalization("r", FinalState(snapshot.runs["r"].items), "{}", 4, None);
              var out := Finalize(Exec(snapshot, between), f);
              && out.result == Ok(true)
              && out.db.runs["r"].state == RunFailed
              && AllSucceeded(out.db.runs["r"].items)))
  {
    hide ClaimNext, Complete, CreateOrResume;
    var a := FreshItem(SOLO);
    var failed := AfterAttempt(a, 0, 0, Failed);
    var good := AfterAttempt(failed, 1, 2, Succeeded);
    StartSolo();
    AttemptFinishes(a, 0, 0, Failed);
    AttemptFinishes(failed, 1, 2, Succeeded);
    Chain(EMPTY, StartOf(V6, [SOLO]), Running1(V6, [a], 0, {}), AttemptEvents(0, 0, Failed),
          Running1(V6, [failed], 1, {}), [], Running1(V6, [failed], 1, {}));
    FailedSoloIsOpen(failed);
    FinalizeSolo(good);
    assert AttemptEvents(1, 2, Succeeded)[1..][1..] == [];
  }

  lemma {:induction false} FailedSoloIsOpen(failed: Item)
    requires MayRun(failed) && failed.status.Failed?
    ensures !VerdictIsFixedAt(true, [failed], 1) && FinalState([failed]) == RunFailed
  {
    FocusScope();
    assert Exhausted([failed], 1) == [failed];
    assert [failed][0] == failed;
  }

  lemma {:induction false} FinalizeSolo(good: Item)
    requires good.status.Succeeded?
    ensures
      var out := Finalize(Running1(V6, [good], 2, {}), Finalization("r", RunFailed, "{}", 4, None));
      out.result == Ok(true) && out.db.runs["r"].state == RunFailed && out.db.runs["r"].items == [good]
  {
  }

  // ---------- cutoffs nobody ordered ----------

  /** The empty database accepts a run whose derived cutoff is later than its Macro Score cutoff. */
  lemma {:induction false} UnorderedCutoffsAreAccepted()
    ensures
      var s := StartRequest("r", "c", false, V6, Some(9), Some(5), [SOLO], None, 0, 100);
      && CreateOrResume(EMPTY, s).result.Ok?
      && DbOk(EMPTY) && AllCutoffsOrdered(EMPTY) && !AllCutoffsOrdered(CreateOrResume(EMPTY, s).db)
  {
    CreationTrustsItsCutoffs(EMPTY, StartRequest("r", "c", false, V6, Some(9), Some(5), [SOLO], None, 0, 100));
  }
}
