/** What one claim does to every row of its run, said of the rows alone. */
module RefreshClaims {
  import opened Wrappers
  import opened Scheduler
  import opened RetryPolicy
  import opened RefreshModel
  import opened RefreshInvariants

  // ---------- the terms ----------

  const PHASES: set<string> := {"derived_snapshots", "macro_score", "inflation_target_rules"}

  predicate Unexpired(it: Item, now: Time) {
    it.status == Claimed && it.claimExpires.Some? && it.claimExpires.value > now
  }

  predicate SomeUnexpired(items: seq<Item>, now: Time) {
    exists i :: 0 <= i < |items| && Unexpired(items[i], now)
  }

  /** Every claim first fails the expired claims that have used both attempts. */
  function AfterExpiry(items: seq<Item>, now: Time): (rows: seq<Item>)
    ensures |rows| == |items|
  {
    seq(|items|, i requires 0 <= i < |items| =>
      var it := items[i];
      if it.status == Claimed && it.attempt >= 2 && it.claimExpires.Some? && it.claimExpires.value <= now then
        it.(status := Failed, token := None, claimExpires := None, finishedAt := None,
            errorCode := Some("AttemptLimitExceeded"))
      else it)
  }

  /** A failed item may run again: work without a provider until its second attempt, source work after a
      passing network trouble until its second acquisition. */
  predicate RetryAllowed(it: Item) {
    if Scope(it.task).None? then it.attempt < 2
    else it.acquisitions < 2
         && it.lastErrorCategory in {Some(NetworkTimeout), Some(NetworkReset), Some(TemporaryServerError)}
  }

  /** No claim will hand the item out again. */
  predicate IsOver(it: Item) {
    it.status in {Succeeded, Partial, Skipped} || (it.status == Failed && !RetryAllowed(it))
  }

  predicate Waits(it: Item, now: Time) {
    it.nextAttempt.Some? && it.nextAttempt.value > now
  }

  /** The row is the one asked for, open, due and below the cap. */
  predicate MayBeTried(it: Item, c: ClaimRequest) {
    && (c.expected.Some? ==> it.key == c.expected.value)
    && !IsOver(it) && !Unexpired(it, c.now) && !Waits(it, c.now) && it.acquisitions < 2
  }

  /** Row e keeps row k back: it is open, and waits in front of a phase, or could itself be tried by its provider. */
  predicate KeepsBack(rows: seq<Item>, e: nat, k: nat, breakers: map<Provider, Breaker>, now: Time)
    requires e < |rows| && k < |rows|
  {
    && !IsOver(rows[e])
    && (if Waits(rows[e], now) then rows[k].task in PHASES else Eligible(rows[e].task, breakers, now))
  }

  predicate HasTurn(rows: seq<Item>, k: nat, breakers: map<Provider, Breaker>, c: ClaimRequest)
    requires k < |rows|
  {
    && MayBeTried(rows[k], c)
    && Eligible(rows[k].task, breakers, c.now)
    && forall e :: 0 <= e < k ==> !KeepsBack(rows, e, k, breakers, c.now)
  }

  // ---------- the terms are the transaction's ----------

  lemma {:induction false} ExpiryIsExhaustion(items: seq<Item>, now: Time)
    ensures AfterExpiry(items, now) == Exhausted(items, now)
    ensures SomeUnexpired(items, now) <==> HasActiveClaim(Exhausted(items, now), now)
  {
    var rows := Exhausted(items, now);
    forall i | 0 <= i < |items| ensures Unexpired(items[i], now) <==> ActiveClaim(rows[i], now) {
    }
    assert (exists i :: 0 <= i < |rows| && ActiveClaim(rows[i], now)) <==> SomeUnexpired(items, now);
  }

  lemma {:induction false} OverIsResolved(it: Item)
    ensures IsOver(it) <==> ResolvedV6(it)
    ensures it.status == Failed ==> (RetryAllowed(it) <==> Retryable(it))
  {
    hide Scope;
  }

  lemma {:induction false} TriedIsConsidered(it: Item, c: ClaimRequest)
    ensures MayBeTried(it, c) <==> Considered(it, c)
  {
    hide RetryAllowed, Retryable;
    OverIsResolved(it);
  }

  lemma {:induction false} BackIsBlocked(rows: seq<Item>, e: nat, k: nat, breakers: map<Provider, Breaker>, now: Time)
    requires e < |rows| && k < |rows|
    ensures KeepsBack(rows, e, k, breakers, now) <==> Blocks(rows[e], rows[k].task, breakers, now)
  {
    hide Eligible, IsOver, ResolvedV6;
    OverIsResolved(rows[e]);
  }

  lemma {:induction false} TurnIsReady(rows: seq<Item>, k: nat, breakers: map<Provider, Breaker>, c: ClaimRequest)
    requires k < |rows|
    ensures Ready(rows, k, breakers, c) <==> HasTurn(rows, k, breakers, c)
  {
    hide Considered, MayBeTried, Eligible, Blocks, KeepsBack;
    TriedIsConsidered(rows[k], c);
    forall e: nat | e < k
      ensures KeepsBack(rows, e, k, breakers, c.now) <==> Blocks(rows[e], rows[k].task, breakers, c.now)
    {
      BackIsBlocked(rows, e, k, breakers, c.now);
    }
    var blocker := FirstBlocker(rows, k, breakers, c.now);
    if blocker.None? {
      forall e: nat | e < k ensures !Blocks(rows[e], rows[k].task, breakers, c.now) {
        assert !((i: nat) => i < k && Blocks(rows[i], rows[k].task, breakers, c.now))(e);
      }
    } else {
      assert KeepsBack(rows, blocker.value, k, breakers, c.now);
    }
  }

  // ---------- which item a claim returns ----------

  /** A worker may claim from a version 6 run. */
  ghost predicate Claims(db: Db, c: ClaimRequest) {
    && DbOk(db) && RunningWithLease(db, c.run, c.now) && c.expires > c.now
    && db.runs[c.run].version == "daily-refresh-v6"
  }

  function HandedRow(it: Item, token: Token, expires: Time): Item {
    Item(it.key, it.task, it.order, Claimed, it.attempt + 1, it.generation + 1, it.acquisitions, Some(token),
         Some(expires), None, 0, 0, None, None, None, it.lastErrorCategory, it.lastErrorCode)
  }

  /** A version 6 claim returns an item exactly if no claim is unexpired and it is the first that has its turn;
      the row then is claimed under a fresh token, with one attempt and generation more, its counters, code and
      deferral cleared. */
  lemma {:induction false} ClaimHandsOutInTurn(db: Db, c: ClaimRequest, k: nat)
    requires Claims(db, c) && k < |db.runs[c.run].items|
    ensures
      var items := db.runs[c.run].items;
      var rows := AfterExpiry(items, c.now);
      var out := ClaimNext(db, c);
      var item := HandedRow(rows[k], db.nextToken, c.expires);
      && (out.result == Ok(Some(item)) <==>
            && !SomeUnexpired(items, c.now)
            && HasTurn(rows, k, db.breakers, c)
            && (forall i :: 0 <= i < k ==> !HasTurn(rows, i, db.breakers, c)))
      && (out.result == Ok(Some(item)) ==> out.db.runs[c.run].items[k] == item && out.db.nextToken == db.nextToken + 1)
  {
    hide HasTurn, Ready, PassOver;
    var run := db.runs[c.run];
    var rows := Exhausted(run.items, c.now);
    ExpiryIsExhaustion(run.items, c.now);
    ExhaustKeepsRows(run.items, c.now, db.nextToken, db.marked);
    PickIsFirstTurn(run, db.breakers, c);
    var pick := Pick(run, db.breakers, c);
    if pick.Some? && pick.value != k { assert rows[pick.value].key != rows[k].key; }
  }

  lemma {:induction false} PickIsFirstTurn(run: Run, breakers: map<Provider, Breaker>, c: ClaimRequest)
    requires IsV6(run)
    ensures
      var rows, pick := AfterExpiry(run.items, c.now), Pick(run, breakers, c);
      && (SomeUnexpired(run.items, c.now) ==> pick.None?)
      && (pick.Some? ==> pick.value < |rows| && HasTurn(rows, pick.value, breakers, c)
                         && forall i :: 0 <= i < pick.value ==> !HasTurn(rows, i, breakers, c))
      && (pick.None? && !SomeUnexpired(run.items, c.now) ==>
            forall i :: 0 <= i < |rows| ==> !HasTurn(rows, i, breakers, c))
  {
    hide HasTurn, Ready;
    var rows := Exhausted(run.items, c.now);
    ExpiryIsExhaustion(run.items, c.now);
    forall i: nat | i < |rows| ensures Ready(rows, i, breakers, c) <==> HasTurn(rows, i, breakers, c) {
      TurnIsReady(rows, i, breakers, c);
    }
    var pick := Pick(run, breakers, c);
    forall i: nat | i < |rows| && (pick.None? || i < pick.value) && !SomeUnexpired(run.items, c.now)
      ensures !HasTurn(rows, i, breakers, c)
    {
      assert !((j: nat) => j < |rows| && Ready(rows, j, breakers, c))(i);
    }
  }

  /** A claim returns a derived phase only when every earlier item without a provider is closed and every
      earlier open source item is refused by its breaker with no retry in the future. */
  lemma {:induction false} PhaseWaitsForSources(db: Db, c: ClaimRequest, k: nat, e: nat)
    requires Claims(db, c) && e < k < |db.runs[c.run].items| && db.runs[c.run].items[k].task in PHASES
    requires ClaimNext(db, c).result
        == Ok(Some(HandedRow(AfterExpiry(db.runs[c.run].items, c.now)[k], db.nextToken, c.expires)))
    ensures
      var row := AfterExpiry(db.runs[c.run].items, c.now)[e];
      IsOver(row)
      || (Scope(row.task).Some? && !Waits(row, c.now) && !Eligible(row.task, db.breakers, c.now))
  {
    ClaimHandsOutInTurn(db, c, k);
    assert !KeepsBack(AfterExpiry(db.runs[c.run].items, c.now), e, k, db.breakers, c.now);
  }

  // ---------- what a claim writes on the rows it skips ----------

  /** Open, asked for, due, below the cap, but refused by its provider. */
  predicate Refused(it: Item, breakers: map<Provider, Breaker>, c: ClaimRequest) {
    it.status in {Pending, Failed} && MayBeTried(it, c) && !Eligible(it.task, breakers, c.now)
  }

  /** A pending phase without a deferral whose first obstacle, row e, waits for a retry. */
  predicate DependsOn(rows: seq<Item>, k: nat, e: nat, breakers: map<Provider, Breaker>, c: ClaimRequest)
    requires e < k < |rows|
  {
    && rows[k].status == Pending && rows[k].deferralReason.None? && rows[k].task in PHASES && MayBeTried(rows[k], c)
    && !IsOver(rows[e]) && Waits(rows[e], c.now)
    && forall i :: 0 <= i < e ==> !KeepsBack(rows, i, k, breakers, c.now)
  }

  /** With the breakers as they are, the task's provider admits it from this instant on, and not before. */
  ghost predicate AdmitsExactlyFrom(task: string, breakers: map<Provider, Breaker>, at: Time) {
    forall u :: Eligible(task, breakers, u) <==> u >= at
  }

  /** The deferral a claim writes on a row, if it writes one. */
  function Stamped(it: Item, at: Time, reason: string): Item {
    it.(nextAttempt := Some(at), deferralReason := Some(reason), errorCode := Some("Deferred"))
  }

  lemma {:induction false} FirstObstacle(rows: seq<Item>, k: nat, breakers: map<Provider, Breaker>, now: Time)
    requires k < |rows|
    ensures
      var b := FirstBlocker(rows, k, breakers, now);
      && (b.Some? ==> b.value < k && KeepsBack(rows, b.value, k, breakers, now))
      && (forall e :: 0 <= e < k && (b.Some? ==> e < b.value) ==> !KeepsBack(rows, e, k, breakers, now))
  {
    hide KeepsBack, Blocks;
    var b := FirstBlocker(rows, k, breakers, now);
    forall e: nat | e < k
      ensures KeepsBack(rows, e, k, breakers, now) <==> Blocks(rows[e], rows[k].task, breakers, now)
    {
      BackIsBlocked(rows, e, k, breakers, now);
    }
    forall e: nat | e < k && (b.Some? ==> e < b.value) ensures !Blocks(rows[e], rows[k].task, breakers, now) {
      assert !((i: nat) => i < k && Blocks(rows[i], rows[k].task, breakers, now))(e);
    }
  }

  lemma {:induction false} DependsOnTheFirst(rows: seq<Item>, k: nat, e: nat, breakers: map<Provider, Breaker>,
                                             c: ClaimRequest)
    requires e < k < |rows|
    ensures DependsOn(rows, k, e, breakers, c) <==>
      && rows[k].status == Pending && rows[k].deferralReason.None? && rows[k].task in PHASES && MayBeTried(rows[k], c)
      && FirstBlocker(rows, k, breakers, c.now) == Some(e) && Waits(rows[e], c.now)
  {
    hide MayBeTried, FirstBlocker, Eligible, IsOver;
    FirstObstacle(rows, k, breakers, c.now);
    assert DependsOn(rows, k, e, breakers, c) ==> KeepsBack(rows, e, k, breakers, c.now);
  }

  lemma {:induction false} RefusalIsStamped(it: Item, breakers: map<Provider, Breaker>, c: ClaimRequest)
    requires Refused(it, breakers, c)
    ensures exists at ::
      && PublisherCooldown(it, DeferralStamp(BreakerOf(it.task, breakers))) == Stamped(it, at, "publisher_cooldown")
      && at > c.now && AdmitsExactlyFrom(it.task, breakers, at)
  {
    hide DeferralStamp, MayBeTried;
    var b := BreakerOf(it.task, breakers);
    StampIsFirstAdmission(b, c.now, c.now);
    var at := DeferralStamp(b).value;
    forall u ensures Eligible(it.task, breakers, u) <==> u >= at { StampIsFirstAdmission(b, c.now, u); }
    assert PublisherCooldown(it, DeferralStamp(b)) == Stamped(it, at, "publisher_cooldown");
    assert AdmitsExactlyFrom(it.task, breakers, at);
  }

  lemma {:induction false} PassOverStamps(rows: seq<Item>, k: nat, breakers: map<Provider, Breaker>, c: ClaimRequest)
    requires k < |rows|
    ensures
      var after := PassOver(rows, k, breakers, c);
      if Refused(rows[k], breakers, c) then
        exists at :: after == Stamped(rows[k], at, "publisher_cooldown") && at > c.now
                     && AdmitsExactlyFrom(rows[k].task, breakers, at)
      else
        && (forall e: nat :: e < k && DependsOn(rows, k, e, breakers, c) ==>
              after == Stamped(rows[k], rows[e].nextAttempt.value, "source_dependency_deferred"))
        && ((forall e: nat :: e < k ==> !DependsOn(rows, k, e, breakers, c)) ==> after == rows[k])
  {
    hide Considered, MayBeTried, DependsOn, FirstBlocker, Eligible, DeferralStamp;
    var it := rows[k];
    TriedIsConsidered(it, c);
    forall e: nat | e < k
      ensures DependsOn(rows, k, e, breakers, c) <==>
        && it.status == Pending && it.deferralReason.None? && it.task in PHASES && MayBeTried(it, c)
        && FirstBlocker(rows, k, breakers, c.now) == Some(e) && Waits(rows[e], c.now)
    {
      DependsOnTheFirst(rows, k, e, breakers, c);
    }
    if it.task in PHASES { PhaseHasNoScope(it.task, breakers, c.now); }
    if Refused(it, breakers, c) { RefusalIsStamped(it, breakers, c); }
    FirstObstacle(rows, k, breakers, c.now);
  }

  /** What a claim leaves of row k when no claim was unexpired and no earlier row was handed out, k included:
      a refused row is deferred to the first instant its provider admits it; a phase is deferred to the retry of
      the row it depends on; every other row is as the expired claims left it. */
  lemma {:induction false} SkippedRowsAreStamped(db: Db, c: ClaimRequest, k: nat)
    requires Claims(db, c) && k < |db.runs[c.run].items| && !SomeUnexpired(db.runs[c.run].items, c.now)
    requires
      var rows := AfterExpiry(db.runs[c.run].items, c.now);
      forall i :: 0 <= i <= k ==> !HasTurn(rows, i, db.breakers, c)
    ensures
      var rows := AfterExpiry(db.runs[c.run].items, c.now);
      var row, after := rows[k], ClaimNext(db, c).db.runs[c.run].items[k];
      if Refused(row, db.breakers, c) then
        exists at :: after == Stamped(row, at, "publisher_cooldown") && at > c.now
                     && AdmitsExactlyFrom(row.task, db.breakers, at)
      else
        && (forall e: nat :: e < k && DependsOn(rows, k, e, db.breakers, c) ==>
              after == Stamped(row, rows[e].nextAttempt.value, "source_dependency_deferred"))
        && ((forall e: nat :: e < k ==> !DependsOn(rows, k, e, db.breakers, c)) ==> after == row)
  {
    hide HasTurn, PassOver, Refused, DependsOn, Eligible;
    var run := db.runs[c.run];
    var rows := Exhausted(run.items, c.now);
    ExpiryIsExhaustion(run.items, c.now);
    PickIsFirstTurn(run, db.breakers, c);
    PassOverStamps(rows, k, db.breakers, c);
    assert ClaimNext(db, c).db.runs[c.run].items[k] == PassOver(rows, k, db.breakers, c);
  }

  /** Behind an item handed out, and everywhere while a claim is unexpired, a claim writes nothing more; and it
      touches no other run, lease, breaker or mark. */
  lemma {:induction false} OtherRowsStay(db: Db, c: ClaimRequest, k: nat)
    requires Claims(db, c) && k < |db.runs[c.run].items|
    ensures
      var run, out := db.runs[c.run], ClaimNext(db, c);
      var rows := AfterExpiry(run.items, c.now);
      && out.db == db.(runs := db.runs[c.run := run.(items := out.db.runs[c.run].items)], nextToken := out.db.nextToken)
      && (SomeUnexpired(run.items, c.now) ==> out.result == Ok(None))
      && (SomeUnexpired(run.items, c.now) || (exists i :: 0 <= i < k && HasTurn(rows, i, db.breakers, c)) ==>
            out.db.runs[c.run].items[k] == rows[k])
  {
    hide HasTurn, PassOver;
    ExpiryIsExhaustion(db.runs[c.run].items, c.now);
    PickIsFirstTurn(db.runs[c.run], db.breakers, c);
  }

  // ---------- manifests before version 6 ----------

  predicate LegacyOpen(it: Item, now: Time) {
    || it.status == Pending
    || (it.status == Failed && it.attempt < 2)
    || (it.status == Claimed && it.attempt < 2 && it.claimExpires.Some? && it.claimExpires.value <= now)
  }

  /** An older manifest: with no claim unexpired, the first open row is handed out if it is the one asked for,
      and nothing else is written but the exhausted claims. */
  lemma {:induction false} LegacyClaimIsExact(db: Db, c: ClaimRequest, k: nat)
    requires DbOk(db) && RunningWithLease(db, c.run, c.now) && c.expires > c.now
    requires db.runs[c.run].version != "daily-refresh-v6" && k < |db.runs[c.run].items|
    ensures
      var items := db.runs[c.run].items;
      var rows, out := AfterExpiry(items, c.now), ClaimNext(db, c);
      var item := HandedRow(rows[k], db.nextToken, c.expires)
        .(nextAttempt := rows[k].nextAttempt, deferralReason := rows[k].deferralReason);
      var first := LegacyOpen(rows[k], c.now) && forall i :: 0 <= i < k ==> !LegacyOpen(rows[i], c.now);
      if !SomeUnexpired(items, c.now) && first && (c.expected.Some? ==> rows[k].key == c.expected.value)
      then out.result == Ok(Some(item)) && out.db.runs[c.run].items == rows[k := item]
      else out.result != Ok(Some(item)) && out.db.runs[c.run].items[k] == rows[k]
  {
    var run := db.runs[c.run];
    var rows := Exhausted(run.items, c.now);
    ExpiryIsExhaustion(run.items, c.now);
    ExhaustKeepsRows(run.items, c.now, db.nextToken, db.marked);
    var first := FirstLegacy(rows, c.now);
    forall i: nat | i < |rows| && (first.Some? ==> i < first.value) ensures !LegacyOpen(rows[i], c.now) {
      assert !((j: nat) => j < |rows| && LegacyEligible(rows[j], c.now))(i);
    }
    if first.Some? && first.value != k { assert rows[first.value].key != rows[k].key; }
  }
}
