/** Ending a run: from any state with no item at the acquisition cap, some interleaving resolves every open
    item with the outcome one likes. */
module RefreshDrive {
  import opened Wrappers
  import opened Scheduler
  import opened RefreshModel
  import opened RefreshInvariants
  import opened RefreshSafety
  import opened RefreshOrder
  import opened RefreshProgress
  import opened RefreshResume

  // ---------- interleavings ----------

  /** The events commit in clock order and lead from one state and clock to another. */
  ghost predicate Path(db: Db, clock: Time, events: seq<Event>, db': Db, clock': Time) {
    AllWellTyped(events) && Exec(db, events) == db' && InOrder(events, clock) && FinalClock(events, clock) == clock'
  }

  lemma {:induction false} PathOf(db: Db, clock: Time, e: Event)
    requires WellTyped(e) && clock <= Tick(e, clock)
    ensures Path(db, clock, [e], Apply(db, e), Tick(e, clock))
  {
    assert [e][1..] == [];
    assert Exec(Apply(db, e), []) == Apply(db, e);
  }

  lemma {:induction false} PathsJoin(db: Db, clock: Time, xs: seq<Event>, db1: Db, clock1: Time, ys: seq<Event>,
                                     db2: Db, clock2: Time)
    requires Path(db, clock, xs, db1, clock1) && Path(db1, clock1, ys, db2, clock2)
    ensures Path(db, clock, xs + ys, db2, clock2)
  {
    ExecSplit(db, xs, ys);
    OrderSplit(xs, ys, clock);
  }

  // ---------- calm weather comes ----------

  lemma {:induction false} CalmLasts(items: seq<Item>, breakers: map<Provider, Breaker>, now: Time, later: Time)
    requires Calm(items, breakers, now) && now <= later
    ensures Calm(items, breakers, later)
  {
    forall i | 0 <= i < |items| ensures Eligible(items[i].task, breakers, later) {
      AdmissionIsMonotone(BreakerOf(items[i].task, breakers), now, later);
    }
  }

  /** Breakers left alone, a time comes when every retry time has passed and every provider admits. */
  lemma {:induction false} CalmComes(items: seq<Item>, breakers: map<Provider, Breaker>, clock: Time) returns (t: Time)
    ensures t >= clock && Calm(items, breakers, t)
  {
    t := clock;
    if items != [] {
      var n := |items| - 1;
      var front := CalmComes(items[..n], breakers, clock);
      var stamp := DeferralStamp(BreakerOf(items[n].task, breakers));
      t := front;
      if stamp.Some? && stamp.value > t { t := stamp.value; }
      if items[n].nextAttempt.Some? && items[n].nextAttempt.value > t { t := items[n].nextAttempt.value; }
      CalmLasts(items[..n], breakers, front, t);
      if !Eligible(items[n].task, breakers, t) { StampIsFirstAdmission(BreakerOf(items[n].task, breakers), t, t); }
      forall i | 0 <= i < |items| ensures !Future(items[i].nextAttempt, t) && Eligible(items[i].task, breakers, t) {
        if i < n { assert items[..n][i] == items[i]; }
      }
    }
  }

  // ---------- open rows ----------

  function OpenRows(v6: bool, rows: seq<Item>): set<nat> {
    set i: nat | i < |rows| && !Resolved(v6, rows[i])
  }

  ghost predicate NoneAtCap(run: Run) {
    IsV6(run) ==> forall i :: 0 <= i < |run.items| ==> !AtCap(run.items[i])
  }

  /** With no unexpired claim, in calm weather and with nothing at the cap, a claim hands out an open row and
      touches no other; if there is none it only writes down the exhausted claims. */
  lemma {:induction false} OpenRowIsHandedOut(run: Run, breakers: map<Provider, Breaker>, c: ClaimRequest, next: Token,
                                              marked: set<Token>)
    requires RunOk(run, next, marked) && run.state.Running? && (forall m :: m in marked ==> m < next)
    requires !HasActiveClaim(run.items, c.now) && Calm(run.items, breakers, c.now) && NoneAtCap(run) && c.expected.None?
    ensures
      var rows, pick, after := Exhausted(run.items, c.now), Pick(run, breakers, c), ClaimedRows(run, breakers, c, next);
      if OpenRows(IsV6(run), rows) == {} then pick.None? && after == rows
      else pick.Some? && pick.value in OpenRows(IsV6(run), rows) && after == rows[pick.value := after[pick.value]]
           && HandedOut(after[pick.value], next, c.expires)
  {
    if IsV6(run) {
      V6RowIsHandedOut(run, breakers, c, next, marked);
    } else {
      LegacyRowIsHandedOut(run, breakers, c, next, marked);
    }
  }

  lemma {:induction false} LegacyRowIsHandedOut(run: Run, breakers: map<Provider, Breaker>, c: ClaimRequest,
                                                next: Token, marked: set<Token>)
    requires RunOk(run, next, marked) && run.state.Running? && !IsV6(run)
    requires !HasActiveClaim(run.items, c.now) && c.expected.None?
    ensures
      var rows, pick, after := Exhausted(run.items, c.now), Pick(run, breakers, c), ClaimedRows(run, breakers, c, next);
      if OpenRows(false, rows) == {} then pick.None? && after == rows
      else pick.Some? && pick.value in OpenRows(false, rows) && after == rows[pick.value := after[pick.value]]
           && HandedOut(after[pick.value], next, c.expires)
  {
    var rows := Exhausted(run.items, c.now);
    ExhaustionEndsNoLiveClaim(run.items, c.now);
    forall i: nat | i < |rows| ensures LegacyEligible(rows[i], c.now) <==> i in OpenRows(false, rows) {
      UnselectedIsResolved(run.items, c.now, next, marked, i);
    }
    var pick := FirstLegacy(rows, c.now);
    if pick.None? {
      forall i: nat | i < |rows| ensures i !in OpenRows(false, rows) {
        assert !((k: nat) => k < |rows| && LegacyEligible(rows[k], c.now))(i);
      }
    }
  }

  lemma {:induction false} V6RowIsHandedOut(run: Run, breakers: map<Provider, Breaker>, c: ClaimRequest, next: Token,
                                            marked: set<Token>)
    requires RunOk(run, next, marked) && run.state.Running? && IsV6(run)
    requires !HasActiveClaim(run.items, c.now) && Calm(run.items, breakers, c.now) && NoneAtCap(run) && c.expected.None?
    ensures
      var rows, pick, after := Exhausted(run.items, c.now), Pick(run, breakers, c), ClaimedRows(run, breakers, c, next);
      if OpenRows(true, rows) == {} then pick.None? && after == rows
      else pick.Some? && pick.value in OpenRows(true, rows) && after == rows[pick.value := after[pick.value]]
           && HandedOut(after[pick.value], next, c.expires)
  {
    hide Ready, PassOver, Calm;
    var rows := Exhausted(run.items, c.now);
    var first := FirstUnresolved(rows);
    CalmPick(run, breakers, c, next, marked);
    ExhaustionEndsNoLiveClaim(run.items, c.now);
    if first.None? {
      forall i: nat | i < |rows| ensures i !in OpenRows(true, rows) {
        assert !((k: nat) => k < |rows| && !ResolvedV6(rows[k]))(i);
      }
    } else {
      var u := first.value;
      assert rows[u].status.Pending? ==> rows[u] == run.items[u];
      assert !AtCap(rows[u]);
      assert u in OpenRows(true, rows);
      forall k | 0 <= k < u ensures PassOver(rows, k, breakers, c) == rows[k] {
        assert !((i: nat) => i < |rows| && !ResolvedV6(rows[i]))(k);
        PassOverShape(rows, k, breakers, c);
      }
    }
  }

  // ---------- single steps of the way ----------

  /** The RUNNING run restarted as it is, with a lease one instant longer than now. */
  function Renewal(r: RunId, run: Run, now: Time): StartRequest {
    StartRequest(r, run.cycle, run.force, run.version, run.derivedCutoff, run.macroCutoff, SpecsOf(run.items), run.plan,
                 now, now + 1)
  }

  lemma {:induction false} RenewalOnlyRenews(db: Db, r: RunId, now: Time)
    requires DbOk(db) && IsRunning(db, r)
    ensures
      var db' := Apply(db, Start(Renewal(r, db.runs[r], now)));
      db' == db.(lease := db'.lease) && RunningWithLease(db', r, now) && DbOk(db')
  {
    hide CreateOrResume;
    var s := Renewal(r, db.runs[r], now);
    OwnSpecsAreOrdered(db.runs[r], db.nextToken, db.marked);
    SameManifestRenews(db, s);
    StepKeepsOk(db, Start(s));
  }

  function DoneAt(r: RunId, it: Item, out: Status, now: Time): Completion
    requires it.token.Some?
  {
    Completion(r, it.key, it.token.value, out, now, 0, 0, None, None)
  }

  /** Completing the current claim of row u changes that row alone. */
  lemma {:induction false} HolderFinishes(db: Db, r: RunId, u: nat, out: Status, now: Time)
    requires DbOk(db) && RunningWithLease(db, r, now) && IsOutcome(out)
    requires u < |db.runs[r].items| && ActiveClaim(db.runs[r].items[u], now) && db.runs[r].items[u].token.Some?
    ensures
      var items := db.runs[r].items;
      var c := DoneAt(r, items[u], out, now);
      && Apply(db, Finish(c)) == SetItems(db, r, items[u := CompleteItem(items[u], c)])
      && CompleteItem(items[u], c).status == out
      && DbOk(Apply(db, Finish(c)))
  {
    var items := db.runs[r].items;
    var c := DoneAt(r, items[u], out, now);
    assert RunOk(db.runs[r], db.nextToken, db.marked);
    assert MapItems(items, it => CompleteItem(it, c)) == items[u := CompleteItem(items[u], c)];
    StepKeepsOk(db, Finish(c));
  }

  predicate EitherWay(out: Status) {
    out.Succeeded? || out.Skipped?
  }

  /** Rows end with out or stay; resolved ones stay. */
  ghost predicate Ending(v6: bool, a: seq<Item>, b: seq<Item>, out: Status) {
    |a| == |b| && forall i :: 0 <= i < |a| ==> b[i] == a[i] || (!Resolved(v6, a[i]) && b[i].status == out)
  }

  /** Every open row has ended with out; the resolved ones are as they were. */
  ghost predicate Ended(v6: bool, a: seq<Item>, b: seq<Item>, out: Status) {
    |a| == |b| && forall i :: 0 <= i < |a| ==> if Resolved(v6, a[i]) then b[i] == a[i] else b[i].status == out
  }

  lemma {:induction false} EndingThenEnded(v6: bool, a: seq<Item>, b: seq<Item>, c: seq<Item>, out: Status)
    requires EitherWay(out) && Ending(v6, a, b, out) && Ended(v6, b, c, out)
    ensures Ended(v6, a, c, out)
  {
    forall i | 0 <= i < |a| ensures if Resolved(v6, a[i]) then c[i] == a[i] else c[i].status == out {
      assert Resolved(v6, b[i]) ==> c[i] == b[i];
    }
  }

  // ---------- the rest of the way ----------

  lemma {:induction false} LaterExhaustion(items: seq<Item>, clock: Time, t: Time)
    requires !HasActiveClaim(items, clock) && clock <= t
    requires forall i :: 0 <= i < |items| && items[i].status.Claimed? ==> items[i].claimExpires.Some?
    ensures Exhausted(items, t) == Exhausted(items, clock) && !HasActiveClaim(items, t)
  {
    forall i | 0 <= i < |items|
      ensures ExhaustItem(items[i], t) == ExhaustItem(items[i], clock) && !ActiveClaim(items[i], t)
    {
      assert !ActiveClaim(items[i], clock);
    }
  }

  lemma {:induction false} ClaimsHaveExpiries(run: Run, next: Token, marked: set<Token>)
    requires RunOk(run, next, marked)
    ensures forall i :: 0 <= i < |run.items| && run.items[i].status.Claimed? ==>
              run.items[i].token.Some? && run.items[i].claimExpires.Some?
  {
    forall i | 0 <= i < |run.items| && run.items[i].status.Claimed?
      ensures run.items[i].token.Some? && run.items[i].claimExpires.Some?
    {
      assert ItemOk(run.items[i], run.state.Running?, next, marked);
    }
  }

  /** After one hand-out and its completion, nothing is claimed that was not, and one row fewer is open. */
  lemma {:induction false} OneRowFewer(v6: bool, rows: seq<Item>, u: nat, done: Item, out: Status, t: Time)
    requires EitherWay(out) && u in OpenRows(v6, rows) && done.status == out
    requires !HasActiveClaim(rows, t) && Exhausted(rows, t) == rows
    ensures
      var after := rows[u := done];
      && Exhausted(after, t) == after && !HasActiveClaim(after, t)
      && Ending(v6, rows, after, out)
      && |OpenRows(v6, after)| < |OpenRows(v6, rows)|
  {
    var after := rows[u := done];
    assert OpenRows(v6, after) == OpenRows(v6, rows) - {u};
    forall i | 0 <= i < |after| ensures ExhaustItem(after[i], t) == after[i] && !ActiveClaim(after[i], t) {
      if i != u { assert ExhaustItem(rows[i], t) == Exhausted(rows, t)[i] && !ActiveClaim(rows[i], t); }
    }
  }

  lemma {:induction false} ExhaustionIsIdempotent(items: seq<Item>, t: Time)
    ensures Exhausted(Exhausted(items, t), t) == Exhausted(items, t)
  {
  }

  lemma {:induction false} ExhaustionCapsNothing(run: Run, t: Time)
    requires NoneAtCap(run)
    ensures NoneAtCap(run.(items := Exhausted(run.items, t)))
  {
    forall i | IsV6(run) && 0 <= i < |run.items| ensures !AtCap(Exhausted(run.items, t)[i]) {
      assert !AtCap(run.items[i]);
    }
  }

  function ClaimAny(r: RunId, t: Time): Event {
    Claim(ClaimRequest(r, t, t + 1, None))
  }

  lemma {:induction false} ClaimStep(db: Db, r: RunId, t: Time) returns (u: nat)
    requires DbOk(db) && RunningWithLease(db, r, t) && !HasActiveClaim(db.runs[r].items, t)
    requires Calm(db.runs[r].items, db.breakers, t) && NoneAtCap(db.runs[r])
    ensures
      var db', rows := Apply(db, ClaimAny(r, t)), Exhausted(db.runs[r].items, t);
      && DbOk(db')
      && r in db'.runs
      && (if OpenRows(IsV6(db.runs[r]), rows) == {} then db' == SetItems(db, r, rows)
          else
            && u in OpenRows(IsV6(db.runs[r]), rows)
            && u < |db'.runs[r].items|
            && HandedOut(db'.runs[r].items[u], db.nextToken, t + 1)
            && db' == SetItems(db, r, rows[u := db'.runs[r].items[u]]).(nextToken := db.nextToken + 1))
  {
    hide Pick, ClaimedRows, Exhausted, OpenRows, Calm, NoneAtCap, HasActiveClaim;
    var run := db.runs[r];
    var c := ClaimRequest(r, t, t + 1, None);
    OpenRowIsHandedOut(run, db.breakers, c, db.nextToken, db.marked);
    StepKeepsOk(db, Claim(c));
    var pick := Pick(run, db.breakers, c);
    u := if pick.Some? then pick.value else 0;
    var rows := Exhausted(run.items, t);
    assert pick.Some? ==> u < |rows| by { InRange(IsV6(run), rows, u); }
  }

  lemma {:induction false} InRange(v6: bool, rows: seq<Item>, u: nat)
    ensures u in OpenRows(v6, rows) ==> u < |rows|
  {
  }

  /** Without a live claim and with nothing at the cap, the run can be driven to its end, in clock order and
      with the breakers as they are: every open row ends with out. */
  lemma {:induction false} Drive(db: Db, r: RunId, clock: Time, out: Status)
    returns (events: seq<Event>, db': Db, clock': Time)
    requires DbOk(db) && IsRunning(db, r) && EitherWay(out)
    requires !HasActiveClaim(db.runs[r].items, clock) && NoneAtCap(db.runs[r])
    ensures Path(db, clock, events, db', clock')
    ensures RunningWithLease(db', r, clock') && IsV6(db'.runs[r]) == IsV6(db.runs[r])
    ensures Ended(IsV6(db.runs[r]), Exhausted(db.runs[r].items, clock), db'.runs[r].items, out)
    decreases |OpenRows(IsV6(db.runs[r]), Exhausted(db.runs[r].items, clock))|
  {
    hide Exec, CreateOrResume, ClaimNext, Complete, Exhausted, Calm, Path, Ended, Ending, OpenRows, DbOk,
      HasActiveClaim;
    var run := db.runs[r];
    var v6, rows := IsV6(run), Exhausted(run.items, clock);
    var t := CalmComes(run.items, db.breakers, clock);
    RunIsOk(db, r);
    ClaimsHaveExpiries(run, db.nextToken, db.marked);
    LaterExhaustion(run.items, clock, t);
    ExhaustionIsIdempotent(run.items, t);
    ExhaustionEndsNoLiveClaim(run.items, t);
    ExhaustionCapsNothing(run, t);

    var start, claim := Start(Renewal(r, run, t)), ClaimAny(r, t);
    RenewalOnlyRenews(db, r, t);
    var db1 := Apply(db, start);
    PathOf(db, clock, start);
    var u := ClaimStep(db1, r, t);
    var db2 := Apply(db1, claim);
    PathOf(db1, t, claim);
    PathsJoin(db, clock, [start], db1, t, [claim], db2, t);
    events, db', clock' := [start] + [claim], db2, t;
    if OpenRows(v6, rows) == {} {
      NothingOpen(v6, rows, out);
    } else {
      InRange(v6, rows, u);
      HandedOutIsActive(db2.runs[r].items[u], db1.nextToken, t);
      HolderFinishes(db2, r, u, out, t);
      var finish := Finish(DoneAt(r, db2.runs[r].items[u], out, t));
      var db3 := Apply(db2, finish);
      PathOf(db2, t, finish);
      PathsJoin(db, clock, events, db2, t, [finish], db3, t);
      var done := db3.runs[r].items[u];
      assert db3.runs[r].items == rows[u := done];
      OneRowFewer(v6, rows, u, done, out, t);
      var rest, db4, t4 := Drive(db3, r, t, out);
      PathsJoin(db, clock, events + [finish], db3, t, rest, db4, t4);
      EndingThenEnded(v6, rows, db3.runs[r].items, db4.runs[r].items, out);
      events, db', clock' := events + [finish] + rest, db4, t4;
    }
  }

  lemma {:induction false} RunIsOk(db: Db, r: RunId)
    requires DbOk(db) && r in db.runs
    ensures RunOk(db.runs[r], db.nextToken, db.marked)
  {
  }

  lemma {:induction false} HandedOutIsActive(it: Item, token: Token, t: Time)
    requires HandedOut(it, token, t + 1)
    ensures ActiveClaim(it, t)
  {
  }

  lemma {:induction false} NothingOpen(v6: bool, rows: seq<Item>, out: Status)
    requires OpenRows(v6, rows) == {}
    ensures Ended(v6, rows, rows, out)
  {
    forall i: nat | i < |rows| ensures Resolved(v6, rows[i]) {
      assert i !in OpenRows(v6, rows);
    }
  }

  // ---------- claims still held ----------

  /** The claims to complete first: all of them, or those unexpired at the clock. */
  predicate Due(it: Item, clock: Option<Time>) {
    it.status.Claimed? && (clock.Some? ==> Future(it.claimExpires, clock.value))
  }

  function DueRows(items: seq<Item>, clock: Option<Time>): set<nat> {
    set i: nat | i < |items| && Due(items[i], clock)
  }

  /** Due claims end with out, all else stays. */
  ghost predicate Completed(a: seq<Item>, b: seq<Item>, clock: Option<Time>, out: Status) {
    |a| == |b| && forall i :: 0 <= i < |a| ==> if Due(a[i], clock) then b[i].status == out else b[i] == a[i]
  }

  lemma {:induction false} OneDueFewer(a: seq<Item>, u: nat, done: Item, clock: Option<Time>, out: Status)
    requires EitherWay(out) && u in DueRows(a, clock) && done.status == out
    ensures |DueRows(a[u := done], clock)| < |DueRows(a, clock)|
  {
    assert DueRows(a[u := done], clock) == DueRows(a, clock) - {u};
  }

  lemma {:induction false} CompletedJoins(a: seq<Item>, u: nat, done: Item, b: seq<Item>, clock: Option<Time>,
                                          out: Status)
    requires EitherWay(out) && u in DueRows(a, clock) && done.status == out
    requires Completed(a[u := done], b, clock, out)
    ensures Completed(a, b, clock, out)
  {
    var after := a[u := done];
    forall i | 0 <= i < |a| ensures if Due(a[i], clock) then b[i].status == out else b[i] == a[i] {
      assert if Due(after[i], clock) then b[i].status == out else b[i] == after[i];
    }
  }

  lemma {:induction false} NothingDue(a: seq<Item>, clock: Option<Time>, out: Status)
    requires DueRows(a, clock) == {}
    ensures Completed(a, a, clock, out)
  {
    forall i: nat | i < |a| ensures !Due(a[i], clock) { assert i !in DueRows(a, clock); }
  }

  /** The holders of the due claims complete them: at the clock, or, without one, each before its expiry. */
  lemma {:induction false} FinishClaims(db: Db, r: RunId, clock: Option<Time>, out: Status)
    returns (events: seq<Event>, db': Db)
    requires DbOk(db) && IsRunning(db, r) && EitherWay(out)
    ensures AllWellTyped(events) && Exec(db, events) == db'
    ensures clock.Some? ==> Path(db, clock.value, events, db', clock.value)
    ensures DbOk(db') && IsRunning(db', r) && IsV6(db'.runs[r]) == IsV6(db.runs[r])
    ensures Completed(db.runs[r].items, db'.runs[r].items, clock, out)
    decreases |DueRows(db.runs[r].items, clock)|
  {
    hide CreateOrResume, Complete, DueRows, Completed, DbOk;
    var items := db.runs[r].items;
    if DueRows(items, clock) == {} {
      NothingDue(items, clock, out);
      events, db' := [], db;
    } else {
      var u :| u in DueRows(items, clock);
      DueMeans(items, clock, u);
      RunIsOk(db, r);
      ClaimsHaveExpiries(db.runs[r], db.nextToken, db.marked);
      var t := if clock.Some? then clock.value else items[u].claimExpires.value - 1;
      var start := Start(Renewal(r, db.runs[r], t));
      RenewalOnlyRenews(db, r, t);
      var db1 := Apply(db, start);
      HolderFinishes(db1, r, u, out, t);
      var finish := Finish(DoneAt(r, items[u], out, t));
      var db2 := Apply(db1, finish);
      OneDueFewer(items, u, db2.runs[r].items[u], clock, out);
      var rest;
      rest, db' := FinishClaims(db2, r, clock, out);
      CompletedJoins(items, u, db2.runs[r].items[u], db'.runs[r].items, clock, out);
      events := [start] + [finish] + rest;
      TwoThenRest(db, start, finish, rest);
      if clock.Some? {
        PathOf(db, t, start);
        PathOf(db1, t, finish);
        PathsJoin(db, t, [start], db1, t, [finish], db2, t);
        PathsJoin(db, t, [start] + [finish], db2, t, rest, db', t);
      }
    }
  }

  lemma {:induction false} DueMeans(items: seq<Item>, clock: Option<Time>, u: nat)
    requires u in DueRows(items, clock)
    ensures u < |items| && Due(items[u], clock)
  {
  }

  lemma {:induction false} TwoThenRest(db: Db, a: Event, b: Event, rest: seq<Event>)
    requires WellTyped(a) && WellTyped(b) && AllWellTyped(rest)
    ensures AllWellTyped([a] + [b] + rest)
    ensures Exec(db, [a] + [b] + rest) == Exec(Apply(Apply(db, a), b), rest)
  {
    ExecSplit(db, [a] + [b], rest);
    ExecSplit(db, [a], [b]);
    assert [a][1..] == [] && [b][1..] == [];
  }

  // ---------- either way ----------

  /** From any RUNNING run with nothing at the cap, in clock order from now on: the rows that are open once
      expired claims are exhausted can all end with out, and the run is ready to be finalized. */
  lemma {:induction false} EndsEitherWay(db: Db, r: RunId, clock: Time, out: Status)
    returns (events: seq<Event>, db': Db, clock': Time)
    requires DbOk(db) && IsRunning(db, r) && NoneAtCap(db.runs[r]) && EitherWay(out)
    ensures Path(db, clock, events, db', clock') && RunningWithLease(db', r, clock')
    ensures IsV6(db'.runs[r]) == IsV6(db.runs[r])
    ensures Ended(IsV6(db.runs[r]), Exhausted(db.runs[r].items, clock), db'.runs[r].items, out)
  {
    hide Path, DbOk, Exec;
    var items, v6 := db.runs[r].items, IsV6(db.runs[r]);
    var first, db1 := FinishClaims(db, r, Some(clock), out);
    var items1 := db1.runs[r].items;
    CompletedStaysDrivable(db.runs[r], db1.runs[r], clock, out);
    var rest;
    rest, db', clock' := Drive(db1, r, clock, out);
    PathsJoin(db, clock, first, db1, clock, rest, db', clock');
    EndingThenEnded(v6, Exhausted(items, clock), Exhausted(items1, clock), db'.runs[r].items, out);
    events := first + rest;
  }

  lemma {:induction false} CompletedStaysDrivable(a: Run, b: Run, clock: Time, out: Status)
    requires EitherWay(out) && NoneAtCap(a) && IsV6(a) == IsV6(b) && Completed(a.items, b.items, Some(clock), out)
    ensures NoneAtCap(b) && !HasActiveClaim(b.items, clock)
    ensures Ending(IsV6(a), Exhausted(a.items, clock), Exhausted(b.items, clock), out)
  {
    forall i | 0 <= i < |a.items|
      ensures !ActiveClaim(b.items[i], clock) && (AtCap(b.items[i]) ==> AtCap(a.items[i]))
      ensures
        var x, y := Exhausted(a.items, clock)[i], Exhausted(b.items, clock)[i];
        y == x || (!Resolved(IsV6(a), x) && y.status == out)
    {
      assert if Due(a.items[i], Some(clock)) then b.items[i].status == out else b.items[i] == a.items[i];
    }
  }

  /** The same when clocks need not commit in order: then even a claim that expired meanwhile can still end
      with out, so exactly the rows now resolved are bound. */
  lemma {:induction false} EndsEitherWayInAnyOrder(db: Db, r: RunId, out: Status)
    returns (events: seq<Event>, db': Db, clock': Time)
    requires DbOk(db) && IsRunning(db, r) && NoneAtCap(db.runs[r]) && EitherWay(out)
    ensures AllWellTyped(events) && Exec(db, events) == db' && RunningWithLease(db', r, clock')
    ensures IsV6(db'.runs[r]) == IsV6(db.runs[r])
    ensures Ended(IsV6(db.runs[r]), db.runs[r].items, db'.runs[r].items, out)
  {
    hide DbOk;
    var items, v6 := db.runs[r].items, IsV6(db.runs[r]);
    var first, db1 := FinishClaims(db, r, None, out);
    var items1 := db1.runs[r].items;
    NothingStaysClaimed(db.runs[r], db1.runs[r], out);
    var rest;
    rest, db', clock' := Drive(db1, r, 0, out);
    ExecSplit(db, first, rest);
    EndingThenEnded(v6, items, items1, db'.runs[r].items, out);
    events := first + rest;
  }

  lemma {:induction false} NothingStaysClaimed(a: Run, b: Run, out: Status)
    requires EitherWay(out) && NoneAtCap(a) && IsV6(a) == IsV6(b) && Completed(a.items, b.items, None, out)
    ensures NoneAtCap(b) && !HasActiveClaim(b.items, 0) && Exhausted(b.items, 0) == b.items
    ensures Ending(IsV6(a), a.items, b.items, out)
  {
    forall i | 0 <= i < |a.items|
      ensures !b.items[i].status.Claimed? && (AtCap(b.items[i]) ==> AtCap(a.items[i]))
      ensures b.items[i] == a.items[i] || (!Resolved(IsV6(a), a.items[i]) && b.items[i].status == out)
    {
      assert if Due(a.items[i], None) then b.items[i].status == out else b.items[i] == a.items[i];
    }
  }
}
