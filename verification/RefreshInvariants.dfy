/** What every step of the refresh protocol keeps, over every interleaving. */
module RefreshInvariants {
  import opened Wrappers
  import opened Scheduler
  import opened RefreshModel

  // ---------- the invariant ----------

  predicate UnmarkedClaim(it: Item, marked: set<Token>) {
    it.status.Claimed? && it.token.Some? && it.token.value !in marked
  }

  ghost predicate ItemOk(it: Item, running: bool, next: Token, marked: set<Token>) {
    && it.generation == it.attempt
    && (it.token.Some? <==> it.claimExpires.Some?)
    && (it.token.Some? ==> it.token.value < next)
    && (it.status.Claimed? ==> running && it.token.Some?)
    && it.acquisitions + (if UnmarkedClaim(it, marked) then 1 else 0) <= it.attempt
  }

  predicate SameClaim(a: Item, b: Item) {
    a.status.Claimed? && b.status.Claimed? && a.token == b.token
  }

  ghost predicate RowsOk(items: seq<Item>, running: bool, next: Token, marked: set<Token>) {
    && (forall i :: 0 <= i < |items| ==> ItemOk(items[i], running, next, marked))
    && (forall i, j :: 0 <= i < j < |items| ==>
          items[i].order < items[j].order && items[i].key != items[j].key && !SameClaim(items[i], items[j]))
  }

  ghost predicate RunOk(run: Run, next: Token, marked: set<Token>) {
    RowsOk(run.items, run.state.Running?, next, marked)
  }

  /** At most one run is RUNNING; the lease row exists exactly then, and names it. */
  ghost predicate LeaseNamesTheRunningRun(db: Db) {
    && (db.lease.Some? ==> IsRunning(db, db.lease.value.owner))
    && (forall r :: r in db.runs && db.runs[r].state.Running? ==> db.lease.Some? && db.lease.value.owner == r)
  }

  ghost predicate RunsOk(db: Db) {
    forall r :: r in db.runs ==> RunOk(db.runs[r], db.nextToken, db.marked)
  }

  ghost predicate DbOk(db: Db) {
    && RunsOk(db)
    && LeaseNamesTheRunningRun(db)
    && (forall t :: t in db.marked ==> t < db.nextToken)
  }

  // ---------- rows ----------

  predicate SameIdentity(a: Item, b: Item) {
    a.key == b.key && a.task == b.task && a.order == b.order
  }

  /** Row-wise: identities stay, and a claimed row kept its claim or is the one handed the fresh token. */
  ghost predicate RowsFollow(before: seq<Item>, after: seq<Item>, handed: Option<nat>, next: Token) {
    && |before| == |after|
    && (handed.Some? ==> handed.value < |after| && after[handed.value].token == Some(next))
    && (forall i :: 0 <= i < |before| ==> SameIdentity(before[i], after[i]))
    && (forall i :: 0 <= i < |before| && handed != Some(i) && after[i].status.Claimed? ==>
          SameClaim(before[i], after[i]))
  }

  lemma {:induction false} RowsKeepOk(before: seq<Item>, after: seq<Item>, handed: Option<nat>, running: bool,
                                      running': bool,
                   next: Token, next': Token, marked: set<Token>, marked': set<Token>)
    requires RowsOk(before, running, next, marked)
    requires RowsFollow(before, after, handed, next)
    requires forall i :: 0 <= i < |after| ==> ItemOk(after[i], running', next', marked')
    ensures RowsOk(after, running', next', marked')
  {
    forall i, j | 0 <= i < j < |after|
      ensures after[i].order < after[j].order && after[i].key != after[j].key && !SameClaim(after[i], after[j])
    {
      assert SameIdentity(before[i], after[i]) && SameIdentity(before[j], after[j]);
      assert !SameClaim(before[i], before[j]);
      assert ItemOk(before[i], running, next, marked) && ItemOk(before[j], running, next, marked);
    }
  }

  /** Issuing a token or counting another claim's acquisition does not disturb a run. */
  lemma {:induction false} OtherRunKeepsOk(run: Run, next: Token, next': Token, marked: set<Token>, marked': set<Token>)
    requires RunOk(run, next, marked) && next <= next' && marked <= marked'
    ensures RunOk(run, next', marked')
  {
    forall i | 0 <= i < |run.items| ensures ItemOk(run.items[i], run.state.Running?, next', marked') {
      assert ItemOk(run.items[i], run.state.Running?, next, marked);
    }
  }

  lemma {:induction false} PassOverShape(rows: seq<Item>, k: nat, breakers: map<Provider, Breaker>, c: ClaimRequest)
    requires k < |rows|
    ensures
      var after := PassOver(rows, k, breakers, c);
      && after == rows[k].(nextAttempt := after.nextAttempt, deferralReason := after.deferralReason,
                           errorCode := after.errorCode)
      && (ResolvedV6(rows[k]) ==> after == rows[k])
      && (after != rows[k] ==> !rows[k].status.Claimed? && Future(after.nextAttempt, c.now))
  {
    var it := rows[k];
    if Considered(it, c) && !Eligible(it.task, breakers, c.now) {
      StampIsFirstAdmission(BreakerOf(it.task, breakers), c.now, c.now);
    }
  }

  lemma {:induction false} ExhaustKeepsRows(items: seq<Item>, now: Time, next: Token, marked: set<Token>)
    requires RowsOk(items, true, next, marked)
    ensures RowsOk(Exhausted(items, now), true, next, marked)
    ensures RowsFollow(items, Exhausted(items, now), None, next)
  {
    var after := Exhausted(items, now);
    forall i | 0 <= i < |after| ensures ItemOk(after[i], true, next, marked) {
      assert ItemOk(items[i], true, next, marked);
    }
    RowsKeepOk(items, after, None, true, true, next, next, marked, marked);
  }

  predicate HandedOut(it: Item, token: Token, expires: Time) {
    it.status.Claimed? && it.token == Some(token) && it.claimExpires == Some(expires)
  }

  lemma {:induction false} ClaimedRowShape(run: Run, breakers: map<Provider, Breaker>, c: ClaimRequest, next: Token,
                                           marked: set<Token>, i: nat)
    requires RowsOk(Exhausted(run.items, c.now), true, next, marked) && i < |run.items|
        && (forall t :: t in marked ==> t < next)
    ensures
      var row, after, pick := Exhausted(run.items, c.now)[i], ClaimedRows(run, breakers, c, next)[i],
        Pick(run, breakers, c);
      && SameIdentity(row, after)
      && ItemOk(after, true, if pick.Some? then next + 1 else next, marked)
      && (pick == Some(i) ==> HandedOut(after, next, c.expires))
      && (pick != Some(i) && after.status.Claimed? ==> SameClaim(row, after))
  {
    hide PassOver, V6Pick, LegacyPick, HasActiveClaim;
    var rows := Exhausted(run.items, c.now);
    assert ItemOk(rows[i], true, next, marked);
    PassOverShape(rows, i, breakers, c);
  }

  /** What a claim transaction does to the rows of its run, whichever manifest version it has. */
  lemma {:induction false} ClaimedRowsShape(run: Run, breakers: map<Provider, Breaker>, c: ClaimRequest, next: Token,
                                            marked: set<Token>)
    requires RunOk(run, next, marked) && run.state.Running? && (forall t :: t in marked ==> t < next)
    ensures
      var pick := Pick(run, breakers, c);
      var after := ClaimedRows(run, breakers, c, next);
      && RowsFollow(run.items, after, pick, next)
      && (pick.Some? ==> after[pick.value].status.Claimed? && after[pick.value].claimExpires == Some(c.expires))
      && RowsOk(after, true, if pick.Some? then next + 1 else next, marked)
  {
    ExhaustKeepsRows(run.items, c.now, next, marked);
    var rows := Exhausted(run.items, c.now);
    var pick := Pick(run, breakers, c);
    var after := ClaimedRows(run, breakers, c, next);
    var next' := if pick.Some? then next + 1 else next;
    forall i | 0 <= i < |rows|
      ensures SameIdentity(rows[i], after[i]) && ItemOk(after[i], true, next', marked)
      ensures pick != Some(i) && after[i].status.Claimed? ==> SameClaim(rows[i], after[i])
    {
      ClaimedRowShape(run, breakers, c, next, marked, i);
    }
    assert pick.Some? ==> HandedOut(after[pick.value], next, c.expires) by {
      if pick.Some? { ClaimedRowShape(run, breakers, c, next, marked, pick.value); }
    }
    hide Pick, ClaimedRows;
    RowsKeepOk(rows, after, pick, true, true, next, next', marked, marked);
    forall i | 0 <= i < |rows| ensures SameIdentity(run.items[i], after[i]) {
      assert SameIdentity(run.items[i], rows[i]);
    }
  }

  // ---------- the shape of each transaction ----------

  /** Creating or resuming leaves a run alone, abandons it, or inserts it. */
  lemma {:induction false} StartShape(db: Db, s: StartRequest, r: RunId)
    requires r in CreateOrResume(db, s).db.runs
    ensures
      var after := CreateOrResume(db, s).db.runs[r];
      if r in db.runs then after == db.runs[r] || (db.runs[r].state.Running? && after == AbandonRun(db.runs[r], s.now))
      else UniqueSpecs(s.specs) && after == NewRun(s)
  {
  }

  lemma {:induction false} StartKeepsRuns(db: Db, s: StartRequest)
    ensures db.runs.Keys <= CreateOrResume(db, s).db.runs.Keys
  {
  }

  predicate IsRowStep(e: Event) {
    e.Mark? || e.Deferral? || e.Finish?
  }

  /** What a mark, a deferral or a completion does to a row of the run it names. */
  function RowStep(e: Event, it: Item): Item
    requires IsRowStep(e)
  {
    match e
    case Mark(m) => MarkItem(it, m)
    case Deferral(d) => DeferItem(it, d)
    case Finish(c) => CompleteItem(it, c)
  }

  lemma {:induction false} RowStepShape(db: Db, e: Event, r: RunId)
    requires WellTyped(e) && IsRowStep(e)
    ensures Apply(db, e).runs.Keys == db.runs.Keys
    ensures r in db.runs ==>
      var before, after := db.runs[r], Apply(db, e).runs[r];
      && after == before.(items := after.items)
      && |after.items| == |before.items|
      && (forall i :: 0 <= i < |before.items| ==> after.items[i] in [before.items[i], RowStep(e, before.items[i])])
  {
  }

  // ---------- each transaction ----------

  lemma {:induction false} ReplaceRun(db: Db, db': Db, r: RunId)
    requires DbOk(db) && IsRunning(db, r)
    requires r in db'.runs && db'.runs == db.runs[r := db'.runs[r]] && db'.runs[r].state.Running?
    requires db'.lease.Some? && db'.lease.value.owner == r
    requires db.nextToken <= db'.nextToken && db.marked <= db'.marked
    requires forall t :: t in db'.marked ==> t < db'.nextToken
    requires RunOk(db'.runs[r], db'.nextToken, db'.marked)
    ensures DbOk(db')
  {
    forall x | x in db'.runs ensures RunOk(db'.runs[x], db'.nextToken, db'.marked) {
      if x != r { OtherRunKeepsOk(db.runs[x], db.nextToken, db'.nextToken, db.marked, db'.marked); }
    }
  }

  lemma {:induction false} ClaimKeepsOk(db: Db, c: ClaimRequest)
    requires DbOk(db)
    ensures DbOk(ClaimNext(db, c).db)
  {
    if c.expires > c.now && RunningWithLease(db, c.run, c.now) {
      ClaimedRowsShape(db.runs[c.run], db.breakers, c, db.nextToken, db.marked);
      ReplaceRun(db, ClaimNext(db, c).db, c.run);
    }
  }

  lemma {:induction false} MarkedItemOk(it: Item, m: MarkRequest, next: Token, marked: set<Token>)
    requires ItemOk(it, true, next, marked) && m.token !in marked
    ensures ItemOk(MarkItem(it, m), true, next, marked + {m.token})
    ensures SameIdentity(it, MarkItem(it, m)) && (MarkItem(it, m).status.Claimed? ==> SameClaim(it, MarkItem(it, m)))
  {
  }

  lemma {:induction false} MarkedRowsOk(items: seq<Item>, m: MarkRequest, next: Token, marked: set<Token>)
    requires RowsOk(items, true, next, marked) && m.token !in marked
    ensures RowsOk(MapItems(items, it => MarkItem(it, m)), true, next, marked + {m.token})
  {
    hide ItemOk, MarkItem, SameIdentity, SameClaim;
    var after := MapItems(items, it => MarkItem(it, m));
    forall i | 0 <= i < |items|
      ensures ItemOk(after[i], true, next, marked + {m.token})
      ensures SameIdentity(items[i], after[i]) && (after[i].status.Claimed? ==> SameClaim(items[i], after[i]))
    {
      MarkedItemOk(items[i], m, next, marked);
    }
    RowsKeepOk(items, after, None, true, true, next, next, marked, marked + {m.token});
  }

  lemma {:induction false} MarkKeepsOk(db: Db, m: MarkRequest)
    requires DbOk(db)
    ensures DbOk(MarkAcquisition(db, m).db)
  {
    hide RowsOk;
    var db' := MarkAcquisition(db, m).db;
    if db' != db {
      var run := db.runs[m.run];
      var k :| 0 <= k < |run.items| && MarkMatches(run.items[k], m);
      ClaimedRowIsRunning(run, k, db.nextToken, db.marked);
      MarkedRowsOk(run.items, m, db.nextToken, db.marked);
      ReplaceRun(db, db', m.run);
    }
  }

  lemma {:induction false} ClaimedRowIsRunning(run: Run, k: nat, next: Token, marked: set<Token>)
    requires RunOk(run, next, marked) && k < |run.items| && run.items[k].status.Claimed?
    ensures run.state.Running? && run.items[k].token.Some? && run.items[k].token.value < next
  {
    assert ItemOk(run.items[k], run.state.Running?, next, marked);
  }

  lemma {:induction false} DeferKeepsOk(db: Db, d: DeferRequest)
    requires DbOk(db)
    ensures DbOk(Defer(db, d).db)
  {
    var db' := Defer(db, d).db;
    if db' != db {
      var items, after := db.runs[d.run].items, db'.runs[d.run].items;
      forall i | 0 <= i < |after| ensures ItemOk(after[i], true, db.nextToken, db.marked) {
        assert ItemOk(items[i], true, db.nextToken, db.marked);
      }
      RowsKeepOk(items, after, None, true, true, db.nextToken, db.nextToken, db.marked, db.marked);
      ReplaceRun(db, db', d.run);
    }
  }

  lemma {:induction false} CompleteKeepsOk(db: Db, c: Completion)
    requires DbOk(db) && IsOutcome(c.status)
    ensures DbOk(Complete(db, c).db)
  {
    var db' := Complete(db, c).db;
    if db' != db {
      var items, after := db.runs[c.run].items, db'.runs[c.run].items;
      forall i | 0 <= i < |after| ensures ItemOk(after[i], true, db.nextToken, db.marked) {
        assert ItemOk(items[i], true, db.nextToken, db.marked);
      }
      RowsKeepOk(items, after, None, true, true, db.nextToken, db.nextToken, db.marked, db.marked);
      ReplaceRun(db, db', c.run);
    }
  }

  lemma {:induction false} CutoffKeepsOk(db: Db, u: CutoffRequest)
    requires DbOk(db)
    ensures DbOk(PersistCutoff(db, u).db)
  {
    var db' := PersistCutoff(db, u).db;
    if db' != db { ReplaceRun(db, db', u.run); }
  }

  lemma {:induction false} FinalizeKeepsOk(db: Db, f: Finalization)
    requires DbOk(db) && !f.state.Running?
    ensures DbOk(Finalize(db, f).db)
  {
    var db' := Finalize(db, f).db;
    if db' != db {
      var items := db.runs[f.run].items;
      forall i | 0 <= i < |items| ensures ItemOk(items[i], false, db.nextToken, db.marked) {
        assert ItemOk(items[i], true, db.nextToken, db.marked) && Settled(IsV6(db.runs[f.run]), items[i]);
      }
      assert RunOk(db'.runs[f.run], db'.nextToken, db'.marked);
    }
  }

  lemma {:induction false} AbandonedRunOk(run: Run, now: Time, next: Token, marked: set<Token>)
    requires RunOk(run, next, marked) && run.state.Running?
    ensures RunOk(AbandonRun(run, now), next, marked)
  {
    var after := AbandonRun(run, now).items;
    forall i | 0 <= i < |after| ensures ItemOk(after[i], false, next, marked) {
      assert ItemOk(run.items[i], true, next, marked);
    }
    RowsKeepOk(run.items, after, None, true, false, next, next, marked, marked);
  }

  predicate InTaskOrder(specs: seq<Spec>) {
    forall i, j :: 0 <= i < j < |specs| ==> specs[i].order <= specs[j].order
  }

  lemma {:induction false} InsertedOnce(s: Spec, sorted: seq<Spec>)
    ensures multiset(InsertSpec(s, sorted)) == multiset(sorted) + multiset{s}
  {
    if sorted != [] && s.order >= sorted[0].order {
      InsertedOnce(s, sorted[1..]);
      assert sorted == [sorted[0]] + sorted[1..];
    }
  }

  lemma {:induction false} HeadIsLeast(first: Spec, rest: seq<Spec>)
    requires InTaskOrder(rest) && forall k :: 0 <= k < |rest| ==> first.order <= rest[k].order
    ensures InTaskOrder([first] + rest)
  {
    var all := [first] + rest;
    forall i, j | 0 <= i < j < |all| ensures all[i].order <= all[j].order {
      assert all[j] == rest[j - 1];
    }
  }

  lemma {:induction false} InsertedSorted(s: Spec, sorted: seq<Spec>)
    requires InTaskOrder(sorted)
    ensures InTaskOrder(InsertSpec(s, sorted))
  {
    if sorted == [] || s.order < sorted[0].order {
      HeadIsLeast(s, sorted);
    } else {
      var rest := InsertSpec(s, sorted[1..]);
      InsertedSorted(s, sorted[1..]);
      InsertedOnce(s, sorted[1..]);
      forall k | 0 <= k < |rest| ensures sorted[0].order <= rest[k].order {
        assert rest[k] in multiset(rest);
        assert rest[k] == s || rest[k] in sorted[1..];
      }
      HeadIsLeast(sorted[0], rest);
    }
  }

  /** The frozen manifest holds exactly the requested specs, by task order. */
  lemma {:induction false} OrderedIsSortedPermutation(specs: seq<Spec>)
    ensures multiset(OrderedSpecs(specs)) == multiset(specs)
    ensures InTaskOrder(OrderedSpecs(specs))
  {
    hide InsertSpec, InTaskOrder;
    if specs == [] {
      assert InTaskOrder([]) by { NothingIsInOrder(); }
    } else {
      var n := |specs| - 1;
      OrderedIsSortedPermutation(specs[..n]);
      InsertedSorted(specs[n], OrderedSpecs(specs[..n]));
      InsertedOnce(specs[n], OrderedSpecs(specs[..n]));
      assert specs == specs[..n] + [specs[n]];
    }
  }

  lemma {:induction false} NothingIsInOrder()
    ensures InTaskOrder([])
  {
  }

  lemma {:induction false} NewRunOk(s: StartRequest, next: Token, marked: set<Token>)
    requires UniqueSpecs(s.specs)
    ensures RunOk(NewRun(s), next, marked)
  {
    var specs := OrderedSpecs(s.specs);
    OrderedIsSortedPermutation(s.specs);
    forall i, j | 0 <= i < j < |specs| ensures specs[i].order < specs[j].order && specs[i].key != specs[j].key {
      DistinctAfterPermutation(s.specs, specs, i, j);
    }
  }

  lemma {:induction false} RepeatCountsTwice(s: seq<Spec>, i: nat, j: nat)
    requires i < j < |s| && s[i] == s[j]
    ensures multiset(s)[s[i]] >= 2
  {
    assert s == s[..j] + s[j..];
    assert s[i] in s[..j] && s[j] in s[j..];
  }

  lemma {:induction false} UniqueCountsOnce(specs: seq<Spec>, a: nat)
    requires UniqueSpecs(specs) && a < |specs|
    ensures multiset(specs)[specs[a]] == 1
  {
    var x := specs[a];
    assert specs == specs[..a] + [x] + specs[a + 1..];
    assert x !in specs[..a] && x !in specs[a + 1..];
  }

  lemma {:induction false} DistinctAfterPermutation(specs: seq<Spec>, sorted: seq<Spec>, i: nat, j: nat)
    requires UniqueSpecs(specs) && multiset(specs) == multiset(sorted) && i < j < |sorted|
    ensures sorted[i].key != sorted[j].key && sorted[i].order != sorted[j].order
  {
    assert sorted[i] in multiset(specs) && sorted[j] in multiset(specs);
    var a :| 0 <= a < |specs| && specs[a] == sorted[i];
    var b :| 0 <= b < |specs| && specs[b] == sorted[j];
    UniqueCountsOnce(specs, a);
    if a == b { RepeatCountsTwice(sorted, i, j); }
  }

  lemma {:induction false} StartKeepsLease(db: Db, s: StartRequest)
    requires DbOk(db)
    ensures LeaseNamesTheRunningRun(CreateOrResume(db, s).db)
    ensures CreateOrResume(db, s).db.nextToken == db.nextToken && CreateOrResume(db, s).db.marked == db.marked
  {
    hide RunOk, SameManifest, UniqueSpecs, OrderedSpecs;
  }

  lemma {:induction false} StartKeepsOk(db: Db, s: StartRequest)
    requires DbOk(db)
    ensures DbOk(CreateOrResume(db, s).db)
  {
    hide RunOk;
    var db' := CreateOrResume(db, s).db;
    forall r | r in db'.runs ensures RunOk(db'.runs[r], db'.nextToken, db'.marked) {
      StartShape(db, s, r);
      if r !in db.runs {
        NewRunOk(s, db.nextToken, db.marked);
      } else if db.runs[r].state.Running? {
        AbandonedRunOk(db.runs[r], s.now, db.nextToken, db.marked);
      }
    }
    StartKeepsLease(db, s);
  }

  lemma {:induction false} StepKeepsOk(db: Db, e: Event)
    requires DbOk(db) && WellTyped(e)
    ensures DbOk(Apply(db, e))
  {
    match e
    case Start(s) => StartKeepsOk(db, s);
    case Claim(c) => ClaimKeepsOk(db, c);
    case Mark(m) => MarkKeepsOk(db, m);
    case Deferral(d) => DeferKeepsOk(db, d);
    case Finish(c) => CompleteKeepsOk(db, c);
    case Cutoff(u) => CutoffKeepsOk(db, u);
    case Final(f) => FinalizeKeepsOk(db, f);
    case BreakerChange(p, b) =>
  }

  /** The invariant holds after every interleaving of transactions. */
  lemma {:induction false} ReachableIsOk(db: Db, events: seq<Event>)
    requires DbOk(db) && AllWellTyped(events)
    ensures DbOk(Exec(db, events))
    decreases |events|
  {
    if events != [] {
      StepKeepsOk(db, events[0]);
      ReachableIsOk(Apply(db, events[0]), events[1..]);
    }
  }
}
