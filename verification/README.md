# A verified model of the refresh backend

Dafny proofs about the parts of the backend whose correctness depends on more than one function: the resumable
refresh-run protocol, the retry budget, the request windows of the SGS provider, the calendar behind DI maturities
and freshness, the paging of runs, and the login and session tables. `dafny verify dfyconfig.toml` checks everything.
Automatic induction is off in every lemma: each induction is written out as a recursive call.

## What is modelled

**The refresh-run protocol.** A run owns a frozen, ordered manifest of work items and one global lease. Workers claim
items under fresh tokens, and complete, defer or lose them; an expired run is abandoned by the next; a settled run is
finalized. `RefreshModel` states each SQL transaction as a function from database to database and answer, and a step
relation `Apply`/`Exec` over arbitrary interleavings of them. `RefreshStore` holds the same transactions as methods of
a stateful class, loops included, each proved equal to its function. `RefreshInvariants`, `RefreshSafety`,
`RefreshOrder`, `RefreshProgress`, `RefreshVerdict` and `RefreshResume` prove exclusion, fencing, order, progress and
the soundness of the verdict over all interleavings. `RefreshClaims` and `RefreshContents` say of the rows alone what
each transaction answers and stores, and how long the rows keep it. `RefreshDrive` builds interleavings that end any
run either way, and with them `RefreshStale` says exactly which snapshots are safe to finalize from. `RefreshWitness`
gives the concrete interleavings that show which hypotheses are needed. `Scheduler` and `RetryPolicy` are the provider admission
and retry predicates they share, and `TextClock` justifies modelling the textual timestamps as integers.

**The retry budget.** `RetryBudget` states the calls on values and proves conservation over call sequences;
`RetryGrants` says when it grants and what its calls leave behind; `RetryAllocator` is the object.

**Windows.** `Windows` splits ranges, `WindowRows` normalises provider rows, `WindowNames` prints and parses task
names, `WindowCoverage` decides whether later successes cover an earlier failure.

**Calendar.** `Calendar` has proleptic Gregorian dates, `BusinessDays` the computus, holidays and business days,
`Freshness` the two period-end rules.

**Paging and administration.** `Paging` follows cursors while the table changes; `Base64Url`, `FlatJson` and
`CursorText` are the cursor's text. `LoginFlows` and `AdminSessions` are histories of the login and session tables;
`LoginStore` and `SessionStore` are the tables as the transactions update them.

## What the proofs found

- A version 6 run can be stuck: a first open item at the acquisition cap is skipped by the claim scan and still blocks
  everything behind it, so neither claim nor finalize can succeed (`RefreshProgress.V6Progress` is exact,
  `RefreshWitness.StuckRunIsReachable` reaches such a state).
- FAILED or PARTIAL can be recorded over items that ended better, because finalization trusts the caller's verdict
  except for SUCCEEDED (`RefreshWitness.StaleFailureIsRecorded`); `RefreshStale.FixedExactly` says which snapshots
  are safe over every interleaving, `RefreshStale.FixedExactlyInOrder` over those that commit in clock order.
- The error code of a failed version 6 item that may run again is lost when a claim finds its provider refused: the
  deferral stamp overwrites it, though not its last error (`RefreshContents.FinishedRowIsKept`).
- Creation does not check the order of the cutoffs it is given (`RefreshSafety.CreationTrustsItsCutoffs`,
  `RefreshWitness.UnorderedCutoffsAreAccepted`). start_refresh_run passes none
  (backend/refresh_run_execution.py:181-194), so only a direct caller of create_or_resume_run can send such input.
- The retry instant reported by `provider_eligibility` can be early when a cooldown outlasts a probe lease; the stamp
  written on the item is exact (`Scheduler.ReportedInstantIsExact`, `Scheduler.ReportedInstantCanBeEarly`,
  `Scheduler.StampIsFirstAdmission`).
- The two period ends differ in December and the last quarter of 9999, and for moving quarters off a month end
  (`Freshness.PeriodEndsAgree`, `Freshness.PeriodEndsCanDiffer`).
- `_make_windows` raises for a start on 29 February and near year 9999 (`Windows.CutFailsExactly`, `Windows.LeapStartFails`).
- The login limit needs no ordered clocks, but does need cleanup clocks not to run far ahead; the bound is exact
  (`LoginFlows.LimitHolds`, `LoginFlows.GraceIsTight`).

## Model

| member | source | states |
|---|---|---|
| `Scheduler.PhaseHasNoScope` | backend/refresh_run_scheduler.py:5-14 | the three derived phases belong to no provider, so no breaker state ever refuses them |
| `Scheduler.ScopeOfNames` | backend/refresh_run_scheduler.py:5-14 | each prefix, alone or followed by an underscore and anything, names its own provider, and the SGS series follow theirs directly |
| `Scheduler.ScopeOutsideTheTable` | backend/refresh_run_scheduler.py:5-14 | a task of no such name has no provider |
| `Scheduler.RefusedTasks` | backend/refresh_run_scheduler.py:17-40 | a task is refused if and only if its provider has a breaker row that is not closed and has a cooldown, an open or a probe instant ahead |
| `Scheduler.AdmissionIsMonotone` | backend/refresh_run_scheduler.py:17-35 | for a fixed breaker row, a provider once admitted stays admitted |
| `Scheduler.StampIsFirstAdmission` | backend/db/refresh_run_items.py:204-222 | the latest of a refusing breaker row's three instants is in the future and is the first at which the row admits: admitted at t if and only if t is not before it (that a claim writes it is RefreshClaims.SkippedRowsAreStamped) |
| `Scheduler.ReportedInstantIsExact` | backend/refresh_run_scheduler.py:26-35 | the instant the scheduler itself reports is never late, and is that first instant if and only if no cooldown outlasts a running probe lease |
| `Scheduler.ReportedInstantCanBeEarly` | backend/refresh_run_scheduler.py:26-35 | a breaker row whose reported instant comes before its provider is admitted |
| `RefreshInvariants.OrderedIsSortedPermutation` | backend/db/refresh_run_lifecycle.py:29-30 | the frozen manifest holds exactly the requested specs, with multiplicity, in task order |
| `RefreshInvariants.StartShape` | backend/db/refresh_run_lifecycle.py:114-208 | creating or resuming touches a run in three ways only: not at all, by abandoning it while RUNNING, or by inserting it with unique keys and orders |
| `RefreshInvariants.PassOverShape` | backend/db/refresh_run_items.py:204-247 | what the scan can touch on a row it passes over: only retry time, reason and code, never on a resolved or claimed row, and always with a future retry time (what it does write is RefreshClaims.SkippedRowsAreStamped) |
| `RefreshInvariants.ClaimedRowsShape` | backend/db/refresh_run_items.py:97-157 | a claim of either manifest version keeps every row's identity, hands out at most one row, with the fresh token and expiry, and leaves every other claimed row its own claim |
| `RefreshInvariants.StepKeepsOk` | backend/db/refresh_run_items.py:52-344 | each transaction keeps the invariant: at most one RUNNING run, the lease row exists exactly then and names it, claimed rows exist only there, attempt equals generation, tokens are issued ones and no two rows share one, acquisitions never exceed attempts |
| `RefreshInvariants.ReachableIsOk` | backend/db/refresh_run_lifecycle.py:60-208 | the invariant holds after every interleaving of create/resume, claim, mark, defer, complete, cutoff, finalize and breaker changes |
| `RefreshSafety.AtMostOneLiveClaim` | backend/db/refresh_run_items.py:65-94 | mutual exclusion over all runs and every interleaving with a nondecreasing clock: at most one row holds an unexpired claim, in the RUNNING run the lease names |
| `RefreshSafety.OnlyTheHolderTakesEffect` | backend/db/refresh_run_items.py:313-344 | a completion succeeds if and only if its token is current on an unexpired claim of the RUNNING run with a live lease; then that one row has its status, instant, counters, code and category and everything else is unchanged; otherwise nothing changes |
| `RefreshSafety.DeferTouchesTheHolderAlone` | backend/db/refresh_run_items.py:290-310 | the same for deferrals, with their input errors: the row is open again with retry time, at most 80 characters of reason, category and code, and no claim |
| `RefreshSafety.LosingTheRowKillsTheToken` | backend/db/refresh_run_items.py:83-94 | whichever step takes a claim from its row (completion, deferral, reclaim, exhaustion, abandonment), its token is dead everywhere |
| `RefreshSafety.TokenTakesEffectOnce` | backend/db/refresh_run_items.py:290-344 | over every interleaving a token takes effect in at most one complete or defer, and a dead token never again |
| `RefreshSafety.LeaseOnlyExtends` | backend/db/refresh_run_lifecycle.py:60-70 | over every stretch of an interleaving in which the lease row lives, its expiry never decreases, even when it changes owner |
| `RefreshSafety.StepKeepsFinishedRun` | backend/db/refresh_run_finalize.py:102-186 | no transaction writes a run that has left RUNNING |
| `RefreshSafety.FinishedRunIsFrozen` | backend/db/refresh_run_finalize.py:102-186 | a run leaves RUNNING at most once: afterwards its state, items and cutoffs are the same after every interleaving |
| `RefreshSafety.ResolvedRowsAreFrozen` | backend/db/refresh_run_items.py:181-202 | over every interleaving a resolved row never changes, the manifest stays, and each cutoff is written at most once |
| `RefreshSafety.CutoffsStayOrdered` | backend/db/refresh_run_finalize.py:49-99 | a Macro Score cutoff presupposes a derived cutoff that is not later, over every interleaving whose creations carry ordered cutoffs |
| `RefreshSafety.CreationTrustsItsCutoffs` | backend/db/refresh_run_lifecycle.py:84-111 | creation succeeds exactly if the lease lies ahead, the specs are distinct and the lease row is free or expired without a live claim; the order of the cutoffs is no guard, so all are ordered afterwards if and only if the request's own were |
| `RefreshOrder.LegacyRunsInOrder` | backend/db/refresh_run_items.py:97-157 | in every reachable RUNNING run of an old manifest, an item was attempted only after every earlier item was resolved |
| `RefreshOrder.LegacyClaimsAreBounded` | backend/db/refresh_run_items.py:97-157 | without deferrals a run of an old manifest is handed out at most twice per item: attempts spent plus hand-outs to come never exceed 2n |
| `RefreshOrder.AcquisitionsAreBounded` | backend/db/store.py:385-450 | over every interleaving an item of a version 6 run counts at most two acquisitions: those spent and those to come never exceed the cap |
| `RefreshOrder.PhasesRunInOrder` | backend/db/refresh_run_items.py:160-287 | in every reachable RUNNING version 6 run, a phase was attempted only after every earlier phase was resolved |
| `RefreshClaims.ClaimHandsOutInTurn` | backend/db/refresh_run_items.py:160-287 | a version 6 claim returns an item if and only if no claim is unexpired and it is the first in turn: asked for, open, below the cap, due and admitted, with every earlier row over, or waiting for a retry (overtaken by source work only), or refused; the row is claimed under a fresh token with attempt and generation one up and counters, code and deferral cleared |
| `RefreshClaims.PhaseWaitsForSources` | backend/db/refresh_run_items.py:223-262 | a claim returns a phase only when every earlier phase is over and every earlier open source item is refused with no retry ahead |
| `RefreshClaims.SkippedRowsAreStamped` | backend/db/refresh_run_items.py:204-262 | what a claim leaves of each row it skips: a refused open row deferred to exactly the first instant its provider admits it; an undeferred pending phase deferred to the retry of the first row it waits for; every other row as the exhausted claims left it |
| `RefreshClaims.OtherRowsStay` | backend/db/refresh_run_items.py:52-157 | behind an item handed out, and everywhere while a claim is unexpired, a claim writes nothing but exhausted claims, and it touches no other run, lease, breaker or mark |
| `RefreshClaims.LegacyClaimIsExact` | backend/db/refresh_run_items.py:97-157 | in an older manifest the first open row is handed out if it is the one asked for, and nothing else is written but exhausted claims |
| `RefreshContents.ResumesExactlyRepeats` | backend/db/refresh_run_lifecycle.py:33-57 | a start that names an existing run is answered with it if and only if cycle, force, version, plan, given cutoffs and the items as a multiset are those it was created with, and is an idempotency error otherwise; only the lease of a RUNNING run changes |
| `RefreshContents.FinishedRunResumes` | backend/db/refresh_run_lifecycle.py:175-185 | so a finished run is returned frozen to such a start at any later point, and to no other |
| `RefreshContents.CreationStores` | backend/db/refresh_run_lifecycle.py:84-156 | a creation let in stores exactly the new run, its items untouched and in task order, takes the lease, and fails the run whose lease expired with its open items; every other run stays |
| `RefreshContents.CreationRefuses` | backend/db/refresh_run_lifecycle.py:159-208 | one not let in changes nothing and raises for its lease, for the run in the way, or for items that are not distinct |
| `RefreshContents.MarkCountsOnce` | backend/db/store.py:385-450 | a mark counts one acquisition exactly for a current claim of its generation, once, and raises without one |
| `RefreshContents.CutoffIsWrittenOnce` | backend/db/refresh_run_finalize.py:49-99 | a cutoff is answered exactly to the owner of a live lease, Macro Score not before derived: with the stored one if there is one, else with the given one, which is stored; the lease is renewed and nothing else changes |
| `RefreshContents.CutoffRefusals` | backend/db/refresh_run_finalize.py:49-79 | and otherwise refused with the error of the first guard that fails |
| `RefreshContents.FinalizeStores` | backend/db/refresh_run_finalize.py:102-186 | finalization succeeds exactly if every item may be ended with and SUCCEEDED is true; it stores state, end and result, releases the lease, records a given last success and touches no item |
| `RefreshContents.FinishedRowIsKept` | backend/db/refresh_run_items.py:204-222 | over every interleaving until it is handed out again a finished row keeps its contents; only a failed version 6 row that may run again can get a deferral stamp, which overwrites its error code |
| `RefreshContents.CompletionIsKept` | backend/db/refresh_run_items.py:313-344 | so what a completion stores stays, over every interleaving, until the row is handed out again |
| `RefreshContents.DeferredRowWaits` | backend/db/refresh_run_items.py:181-202 | in clock order a deferred row of a RUNNING version 6 run is neither handed out nor rewritten before its retry time |
| `RefreshContents.DeferralIsKept` | backend/db/refresh_run_items.py:290-310 | so until then it has the retry time, reason, category and code the deferral stored |
| `RefreshProgress.LegacyProgress` | backend/db/refresh_run_items.py:97-157 | old manifests never stall: with a live lease and no active claim, exactly one of claim and finalize succeeds |
| `RefreshProgress.CalmPick` | backend/db/refresh_run_items.py:181-266 | when every retry time has passed and every provider admits, the scan hands out the first open row, unless that row is at the acquisition cap: then nothing, since it is skipped and still blocks |
| `RefreshProgress.V6Progress` | backend/db/refresh_run_items.py:160-287 | in that situation claim or finalize succeeds if and only if the run is not stuck: its first open item at the acquisition cap while some item still prevents finalization |
| `RefreshWitness.StuckRunIsReachable` | backend/db/refresh_run_items.py:189-252 | a concrete interleaving from the empty database that ends in such a stuck run |
| `RefreshVerdict.FinalResult` | backend/refresh_run_execution.py:242-279 | the report loop lists every finished or deferred item in order, with the summary status of exactly those lines |
| `RefreshVerdict.ReportIsExact` | backend/refresh_run_execution.py:242-279 | the report has one line for each finished or deferred item, in order, with its task, outcome and code, the last error of a failure, and the last error, retry time and reason of a deferral |
| `RefreshVerdict.SummariesAgree` | backend/refresh_run_execution.py:230-279 | _final_state and the status of _final_result agree if and only if no item is in progress or the finished ones alone already make the run partial |
| `RefreshVerdict.FinalizedSummariesAgree` | backend/refresh_run_execution.py:230-304 | they agree on every item list that finalization accepts |
| `RefreshVerdict.SucceededIsSound` | backend/db/refresh_run_finalize.py:122-148 | over every interleaving and from any stale snapshot, SUCCEEDED is recorded only if every item succeeded |
| `RefreshDrive.CalmComes` | backend/refresh_run_scheduler.py:17-35 | with the breakers left alone a time comes when every retry time has passed and every provider admits |
| `RefreshDrive.EndsEitherWay` | backend/db/refresh_run_items.py:52-344 | from every RUNNING run with no pending item at the cap there is an interleaving in clock order that ends every open item with success, and one that skips them all, ready to be finalized |
| `RefreshStale.StaleVerdictIsExact` | backend/refresh_run_execution.py:282-304 | a verdict computed from a fixed snapshot is the verdict of the items recorded with it, whatever transactions of whatever clocks came in between |
| `RefreshStale.FixedExactly` | backend/refresh_run_execution.py:230-239 | the exact condition over real interleavings: every later finalization with a RUNNING snapshot's verdict records the verdict of its items if and only if the snapshot has every item resolved, or a partial one, or a good one beside a bad one, or a version 6 item pending at the cap |
| `RefreshStale.FixedExactlyInOrder` | backend/refresh_run_execution.py:282-304 | the same when all transactions commit in clock order, where an expired claim on its last attempt already counts as the failure it will become |
| `RefreshWitness.StaleFailureIsRecorded` | backend/db/refresh_run_finalize.py:122-178 | a concrete version 6 interleaving in clock order in which a snapshot that was not fixed lets FAILED be recorded over items that all succeeded |
| `RefreshWitness.UnorderedCutoffsAreAccepted` | backend/db/refresh_run_lifecycle.py:84-111 | a concrete request with a derived cutoff after its Macro Score cutoff, accepted by the empty database |
| `RefreshResume.ResumeOnlyRenewsTheLease` | backend/refresh_run_state.py:34-52 | resuming a RUNNING run from its own snapshot returns it unchanged and alters the lease expiry only, except that a run with an older manifest and a stored plan is refused |
| `RefreshResume.FinalizesExactlySettledRuns` | backend/refresh_run_execution.py:282-304 | undisturbed, the driver's finalization ends exactly the settled runs that can be resumed, with the verdict of their items, releases the lease, and records a last success if any item succeeded or was partial |
| `RefreshModel.FirstBlockerIs` | backend/db/refresh_run_items.py:239-252 | the blocker reported for a row is the earliest row that blocks it |
| `RefreshStore.FindBlocker` | backend/db/refresh_run_items.py:239-252 | the inner scan finds that earliest blocker |
| `RefreshStore.VisitRow` | backend/db/refresh_run_items.py:181-266 | one turn of the row loop either hands the row out or writes exactly what passing over means |
| `RefreshStore.ScanV6` | backend/db/refresh_run_items.py:160-287 | the version 6 row loop with its in-place updates equals the declarative pick and rewritten rows |
| `RefreshStore.SelectLegacy` | backend/db/refresh_run_items.py:97-136 | the legacy loop selects the first claimable row and only if nothing unresolved precedes it |
| `RefreshStore.Store.CreateOrResume` | backend/db/refresh_run_lifecycle.py:159-208 | the stateful transaction refines the transaction function: new rows and answer, including every rollback |
| `RefreshStore.Store.ClaimNext` | backend/db/refresh_run_items.py:52-157 | the same for claim, both manifest versions |
| `RefreshStore.Store.MarkAcquisition` | backend/db/store.py:385-450 | the same for counting an outbound acquisition once per claim |
| `RefreshStore.Store.Defer` | backend/db/refresh_run_items.py:290-310 | the same for deferral |
| `RefreshStore.Store.Complete` | backend/db/refresh_run_items.py:313-344 | the same for completion |
| `RefreshStore.Store.PersistCutoff` | backend/db/refresh_run_finalize.py:49-99 | the same for write-once cutoffs |
| `RefreshStore.Store.Finalize` | backend/db/refresh_run_finalize.py:102-186 | the same for the terminal step, which also releases the lease and records the last success |
| `TextClock.TextOrderIsTimeOrder` | backend/db/refresh_run_sql.py:47-54 | for all instants, comparing printed timestamps by code point equals comparing the instants, although microseconds are printed only when not zero |
| `TextClock.StampsCompare` | backend/db/refresh_run_sql.py:47-54 | hence every string guard (<, <=, ==) of the protocol is the intended time guard |
| `RetryBudget.CallsKeepSound` | backend/ingestion_policy.py:161-300 | conservation over any call sequence: requests within the limit within the cap, group counts summing exactly to requests, unit counts summing to at most requests and each within its cap, retries at most requests, trace numbers exactly 1..len <= 256; plans immutable, the deferral only later |
| `RetryBudget.ReservationIsExact` | backend/ingestion_policy.py:161-192 | a refused reservation changes nothing; a granted one is charged once to the root, to its group alone, and to its unit unless it is a redirect |
| `RetryBudget.TimeoutIsWithinDeadlines` | backend/ingestion_policy.py:161-192 | a granted timeout is positive, within the root deadline, and for direct unit work within that unit's deadline |
| `RetryBudget.GrantsAreCounted` | backend/ingestion_policy.py:161-192 | the counters are the number of grants over any call sequence, in all and per unit |
| `RetryBudget.CapsHoldForever` | backend/ingestion_policy.py:161-224 | from a fresh budget no call sequence obtains more requests than the cap nor more direct requests for a unit than its plan |
| `RetryBudget.GatePassesOnce` | backend/ingestion_policy.py:183-185 | over any call sequence the gate returns normally at most once, and never after it has |
| `RetryGrants.GrantedExactly` | backend/ingestion_policy.py:161-192 | a reservation is granted if and only if the root has time and a request left, its unit is planned with a request and time left, and the gate, if not yet passed, lets it through; the value is the least remaining time |
| `RetryGrants.GroupIsOwnElseUnitElseRoot` | backend/ingestion_policy.py:170 | a request is charged to its own group, else its unit, else the root, empty names not counting |
| `RetryGrants.PlanIsGranted` | backend/ingestion_policy.py:161-209 | a fresh budget narrowed to n grants exactly the first n of any number of root requests in time with a passing gate |
| `RetryGrants.UnitPlanIsGranted` | backend/ingestion_policy.py:161-224 | and a unit planned for k requests exactly its first k, the root permitting |
| `RetryGrants.RaisingGateGrantsNothing` | backend/ingestion_policy.py:183-185 | while its gate raises a fresh budget grants nothing |
| `RetryGrants.RootPlanIsExact` | backend/ingestion_policy.py:202-209 | the root plan is accepted exactly before the first request and within the cap |
| `RetryGrants.UnitPlanIsExact` | backend/ingestion_policy.py:211-224 | a unit's plan is accepted exactly if it is a real one and no other was made before |
| `RetryGrants.UnitClockStartsOnce` | backend/ingestion_policy.py:226-228 | over any call sequence a unit's clock runs from its first entry |
| `RetryGrants.DeferralIsTheLatest` | backend/ingestion_policy.py:233-238 | over any call sequence the retry instant is the latest deferral |
| `RetryGrants.RecordIsAppended` | backend/ingestion_policy.py:240-300 | a record is appended with the next number, sane ordinals and an HTTP status or none, until 256 are kept |
| `RetryGrants.AnnotationIsExact` | backend/ingestion_policy.py:302-322 | evidence goes to the entry with its number alone, keeping an earlier duration it lacks and the earlier context |
| `RetryAllocator.Allocator.constructor` | backend/ingestion_policy.py:96-132 | a new budget is the empty one and sound |
| `RetryAllocator.Allocator.CheckAllowance` | backend/ingestion_policy.py:163-182 | the checks before the gate give the specified allowance or refusal |
| `RetryAllocator.Allocator.ReserveRequest` | backend/ingestion_policy.py:161-192 | the locked section refines the reservation function, soundness kept |
| `RetryAllocator.Allocator.SetRequestLimit` | backend/ingestion_policy.py:202-209 | the plan can be narrowed before the first request and never after |
| `RetryAllocator.Allocator.SetUnitLimit` | backend/ingestion_policy.py:211-224 | a unit's plan is written once; a different second plan is refused |
| `RetryAllocator.Allocator.EnterUnit` | backend/ingestion_policy.py:226-228 | the first entry alone starts a unit's clock |
| `RetryAllocator.Allocator.DeferUntil` | backend/ingestion_policy.py:233-238 | a deferral never moves earlier |
| `RetryAllocator.Allocator.RecordTrace` | backend/ingestion_policy.py:294-300 | entries are numbered consecutively until the trace is full, then dropped |
| `RetryAllocator.Allocator.AnnotateTrace` | backend/ingestion_policy.py:302-322 | the loop annotates exactly the entry with the number, merging earlier evidence, or nothing |
| `Calendar.OrdinalIsOrder` | backend/datafetchers/b3_di.py:47-62 | day numbers order proleptic Gregorian dates, so date arithmetic below is arithmetic on days |
| `BusinessDays.EasterIsASpringSunday` | backend/datafetchers/b3_di.py:47-62 | for every year the computus gives a valid date from 22 March to 25 April that is a Sunday |
| `BusinessDays.EasterIsFirstSundayAfterFullMoon` | backend/datafetchers/b3_di.py:47-62 | and it is the first Sunday strictly after the paschal full moon, which is defined on its own from the golden number and the century corrections of the epact |
| `BusinessDays.MovableHolidays` | backend/datafetchers/b3_di.py:65-83 | so the movable holidays fall on a Tuesday, a Friday and a Thursday of that year |
| `BusinessDays.BusinessDayExactly` | backend/datafetchers/b3_di.py:65-89 | a business day is a weekday that is none of the nine fixed holidays and not 47 or 2 days before Easter or 60 after it |
| `BusinessDays.BusinessDayByTheFourth` | backend/datafetchers/b3_di.py:86-96 | one of the first four days of every month is a business day |
| `BusinessDays.FirstBusinessDay` | backend/datafetchers/b3_di.py:92-96 | the loop terminates by day 4 with the first business day of the month |
| `BusinessDays.CollectIsSound` | backend/datafetchers/b3_di.py:269-276 | the backward scan collects at most n business days, strictly decreasing, none before 2000 |
| `BusinessDays.CollectIsComplete` | backend/datafetchers/b3_di.py:269-276 | it skips none unless already full of later ones |
| `BusinessDays.ListBusinessDays` | backend/datafetchers/b3_di.py:269-276 | the loop returns that collection reversed |
| `BusinessDays.ListingIsExact` | backend/datafetchers/b3_di.py:269-276 | which is strictly increasing and holds a day if and only if it is one of the last n business days since 2000 up to end |
| `Freshness.PeriodEndsAgree` | backend/domain_contracts.py:109-121 | the two period ends agree for every date and frequency exactly except where one of them overflows year 9999 and for a moving quarter off a month end |
| `Freshness.PeriodEndsCanDiffer` | backend/domain_contracts.py:109-121 | a date in December 9999 and a moving quarter in mid-month where they differ |
| `Freshness.BasisEndsThePeriod` | backend/reference_freshness.py:66-90 | the basis of a point series is the last day of the month, quarter or year of its reference |
| `Freshness.ResolveIsExact` | backend/reference_freshness.py:29-92 | which references have a verdict at all, with its basis, age and deadline |
| `Freshness.VerdictsAgree` | backend/domain_contracts.py:166-168 | there the two stale verdicts agree |
| `Freshness.StaleIsAgeBeyondFreshness` | backend/reference_freshness.py:56-92 | stale if and only if the age in days exceeds the allowance |
| `Freshness.StalenessIsMonotone` | backend/reference_freshness.py:56-92 | time only makes a reference staler, and a newer reference is never staler |
| `Windows.MakeWindows` | backend/datafetchers/bcb_sgs.py:373-384 | the cursor loop computes the recursive cut or raises where it does; an open start is one request, an absent end is today, an empty or reversed range is passed on as it came |
| `Windows.CutIsChained` | backend/datafetchers/bcb_sgs.py:373-384 | windows run from start to end, chained end to start, each at most ten years, all but the last exactly ten |
| `Windows.CutFailsExactly` | backend/datafetchers/bcb_sgs.py:373-384 | splitting raises exactly for a start on 29 February or an end past the last ten-year step before year 9999 is over |
| `Windows.LeapStartFails` | backend/datafetchers/bcb_sgs.py:373-384 | a range of one day from 29 February on, where it raises |
| `Windows.AnnualWindows` | backend/datafetchers/bcb_sgs.py:209-222 | the loop computes the annual cut, with ValueError for a reversed range and the overflow at the last representable day |
| `Windows.AnnualWindowsPartition` | backend/datafetchers/bcb_sgs.py:209-222 | the cut is a partition: consecutive single-year windows from start to end |
| `Windows.EachDayInOneAnnualWindow` | backend/datafetchers/bcb_sgs.py:209-222 | every day of the range lies in exactly one annual window and no other day in any |
| `WindowRows.Normalize` | backend/datafetchers/bcb_sgs.py:154-200 | the loop returns a map exactly for acceptable rows, the first row of each key, and otherwise raises at the first offending row for its reason |
| `WindowRows.AcceptableExactly` | backend/datafetchers/bcb_sgs.py:154-200 | rows are acceptable if and only if each lies in the window, a monthly one with a period that ends after it starts, and no two of one key differ in value |
| `WindowRows.FirstRowsAreKept` | backend/datafetchers/bcb_sgs.py:154-200 | of each key exactly the first row is kept |
| `WindowRows.ObjectionsInOrder` | backend/datafetchers/bcb_sgs.py:154-200 | which objection is raised to a row first |
| `WindowRows.AcceptableAnswer` | backend/datafetchers/bcb_sgs.py:154-200 | a provider's answer to a window is acceptable if and only if no row of those days offends |
| `WindowRows.WindowedEqualsWhole` | backend/datafetchers/bcb_sgs.py:154-200 | normalising window by window succeeds if and only if normalising the whole range does, and merges to the same map, although boundary days are fetched twice |
| `WindowNames.NameParsesBack` | backend/refresh_reporting.py:357-371 | parsing inverts printing of window task names |
| `WindowNames.ParsedIdentityIsCanonical` | backend/refresh_reporting.py:357-371 | whatever parses runs forward in time and, if its series code is not negative, is the identity of its canonical name |
| `WindowNames.NamesAreDistinct` | backend/refresh.py:173-239 | distinct windows have distinct names |
| `WindowNames.WindowTasks` | backend/refresh.py:173-239 | the nested loops produce one name for each series and window, in order |
| `WindowNames.NamesAreComplete` | backend/refresh.py:173-239 | there is one name for every series and every window, series by series and window by window |
| `WindowNames.KnownName` | backend/refresh.py:173-239 | a known series and year has its known name |
| `WindowNames.NamesIdentify` | backend/refresh.py:173-239 | each produced name parses to its own series and window |
| `WindowNames.TaskNamesAreDistinct` | backend/refresh.py:173-239 | for distinct series and distinct windows no two frozen work items share a name |
| `WindowNames.AnnualWindowsAreDistinct` | backend/datafetchers/bcb_sgs.py:209-222 | annual windows meet that hypothesis |
| `WindowNames.IsoDateOrder` | backend/refresh_reporting.py:357-371 | the parser's comparison of date texts is the comparison of dates |
| `WindowCoverage.Merge` | backend/refresh_reporting.py:480-504 | the merge loop keeps exactly the covered days and leaves a gap between spans |
| `WindowCoverage.OneSpanContains` | backend/refresh_reporting.py:480-504 | with gaps, a range is covered day by day if and only if a single span contains it |
| `WindowCoverage.IntervalIsCovered` | backend/refresh_reporting.py:480-504 | true if and only if every day of the failed window lies in a recovery of the same series that started and finished after the failure |
| `WindowCoverage.CoverageIsMonotone` | backend/refresh_reporting.py:480-504 | more recoveries never take coverage back |
| `WindowCoverage.SupersededNames` | backend/refresh_reporting.py:507-528 | the loop returns exactly the tasks with a failed or partial window row, timestamped, whose window was recovered since, and nothing for manifests before annual windows |
| `WindowCoverage.AnnualRecoverySupersedes` | backend/refresh_reporting.py:507-528 | once all annual windows of a series recovered after a failure, every failed window of that series inside the range is superseded |
| `Paging.PageIsExact` | backend/admin_monitoring.py:287-369 | one page shows the first rows of the descending order after its cursor, and its own cursor separates exactly what was shown from what is left |
| `Paging.FreshRequestsAnswered` | backend/admin_monitoring.py:296-316 | a request without a cursor is answered if and only if its limit is from 1 to 100 and its period, by default the last thirty days, is not empty |
| `Paging.FreshListingIsExact` | backend/admin_monitoring.py:287-369 | over all its pages it then shows exactly the runs created in that period, newest first, each once, whatever was inserted since |
| `Paging.CursorsAnswered` | backend/admin_monitoring.py:149-171 | a cursor is honoured if and only if limit, state and given bounds are its own, it is not from the future and its period is not empty |
| `Paging.FollowIsExact` | backend/admin_monitoring.py:287-369 | following cursors while states change and runs are inserted: strictly descending, so no repeats; every run shown was in the period and state when shown; no run in the wanted state throughout is missed |
| `Paging.FollowEnds` | backend/admin_monitoring.py:287-369 | a following client is never refused, and every page but the last is full with a run left over |
| `Paging.ListingIsExact` | backend/admin_monitoring.py:287-369 | without a state filter the pages concatenate to exactly the period's runs at the first request, in descending order, and ceil(runs / limit) pages are enough |
| `Paging.InsertedRunsAreNotShown` | backend/admin_monitoring.py:296-320 | a run inserted while a client pages is never shown to it |
| `Base64Url.DecodeInvertsEncode` | backend/admin_monitoring.py:144-157 | unpadded base64url (section 5 of RFC 4648) decodes what it encoded, for every byte string, with the length of the text |
| `Base64Url.KnownEncodings` | backend/admin_monitoring.py:144-157 | known encodings fix the alphabet and the order of the bits |
| `FlatJson.KnownObject` | backend/admin_monitoring.py:144-157 | a known object fixes the punctuation |
| `FlatJson.ObjectParses` | backend/admin_monitoring.py:144-157 | reading back a compact flat object gives its members |
| `CursorText.StampParses` | backend/admin_monitoring.py:117-130 | a printed timestamp parses back, with either spelling of the zero offset |
| `CursorText.DecodeInvertsEncode` | backend/admin_monitoring.py:144-171 | an issued cursor fits the length limit and decodes to itself with its own filters, and to a filter mismatch with any others |
| `CursorText.AcceptedIsWellFormed` | backend/admin_monitoring.py:149-171 | whatever text is sent, a cursor that is accepted has the request's filters, a proper run id and valid instants, within the length limit |
| `CursorText.TextContinuesListing` | backend/admin_monitoring.py:296-369 | the text of a page's cursor, sent back with the same filters, continues exactly that listing |
| `LoginFlows.LimitHolds` | backend/db/admin_auth.py:69-103 | for every history of logins, callbacks and cleanups, in whatever order their clocks commit, no binding creates more than five flows in any closed hour, provided no cleanup clock runs more than 23 hours and 10 minutes ahead of a later login |
| `LoginFlows.LimitHoldsInClockOrder` | backend/db/admin_auth.py:289-311 | in particular for every history with a nondecreasing clock |
| `LoginFlows.LimitedExactly` | backend/db/admin_auth.py:69-103 | in clock order a login is limited if and only if its binding created five flows in the last hour, a conflict only if its id, handle or state is taken, and stored as given otherwise |
| `LoginFlows.GraceIsTight` | backend/db/admin_auth.py:289-311 | one microsecond more and a concrete history creates six |
| `LoginFlows.ConsumptionIsExact` | backend/db/admin_auth.py:106-118 | a callback succeeds exactly for the unconsumed, unexpired flow of its state, handle and binding, changes that row alone, and never succeeds again |
| `LoginFlows.ConsumedAtMostOnce` | backend/db/admin_auth.py:106-118 | over every history a flow is consumed at most once for each time it was created |
| `LoginFlows.CleanupSparesLiveFlows` | backend/db/admin_auth.py:289-311 | cleanup is invisible to every callback whose clock is not a day behind |
| `LoginStore.FlowTable.CreateFlow` | backend/db/admin_auth.py:69-103 | the transaction refines the table function, uniqueness kept |
| `LoginStore.FlowTable.ConsumeFlow` | backend/db/admin_auth.py:106-118 | the same for consumption |
| `LoginStore.FlowTable.Cleanup` | backend/db/admin_auth.py:289-311 | deletes at most a batch of the flows expired for more than a day, all of them if they are fewer, no other, and refuses a bad batch size |
| `AdminSessions.EverySessionIsBacked` | backend/db/admin_auth.py:137-231 | over every history idle expiry is the earlier of absolute expiry and last activity plus the idle lifetime, so never after absolute expiry, and both instants are those of actual events |
| `AdminSessions.LiveExactlyWithinLifetimes` | backend/db/admin_auth.py:160-173 | over every history a session answers if and only if it is unrevoked and within both lifetimes of its login and last recorded activity |
| `AdminSessions.RevokedStaysDead` | backend/db/admin_auth.py:176-183 | a revoked session never answers again over any later history that does not issue its token anew |
| `AdminSessions.RevocationEndsAllSessions` | backend/db/admin_auth.py:257-273 | revoking an active membership ends all sessions of its user for good, over any later history that does not issue their tokens anew; revoking an inactive one changes nothing |
| `AdminSessions.LoginEndsTheReplaced` | backend/db/admin_auth.py:137-157 | a login that replaces a session ends it for good over every later history; the new one answers exactly until the earlier of its expiries, and no other row changes |
| `AdminSessions.ClashingLoginChangesNothing` | backend/db/admin_auth.py:137-157 | a login with a token in use changes nothing |
| `AdminSessions.LogoutEndsTheSession` | backend/db/admin_auth.py:176-183 | a logout ends its session for good and no other |
| `AdminSessions.ActivityProlongs` | backend/db/admin_auth.py:186-231 | activity of an answering session a minute or more after the last is recorded and prolongs it to the earlier of idle and absolute expiry; any other changes nothing |
| `AdminSessions.MembershipSteps` | backend/db/admin_auth.py:243-273 | revoking an active membership revokes exactly the user's sessions; granting one touches none |
| `AdminSessions.CleanupRemovesTheDead` | backend/db/admin_auth.py:289-311 | a cleanup batch removes exactly those chosen of the sessions dead for thirty days |
| `AdminSessions.CleanupSparesLiveSessions` | backend/db/admin_auth.py:289-311 | cleanup removes no session that could still answer on a clock at most thirty days behind its own |
| `SessionStore.SessionTable.EstablishSession` | backend/db/admin_auth.py:137-157 | insert, then revoke the replaced session; a clash leaves the table unchanged |
| `SessionStore.SessionTable.RecordActivity` | backend/db/admin_auth.py:186-231 | the throttled update refines its function |
| `SessionStore.SessionTable.RevokeMembership` | backend/db/admin_auth.py:257-273 | with an active membership, the row by row update revokes exactly the user's unrevoked sessions; without one it returns false and changes nothing |

## Left out

- The audit columns that nothing reads back (claimed_at, created_at, updated_at) and the refresh_task_status table.
- The contents of a frozen SGS plan: it is one opaque digest per run, compared for equality.
- RefreshStore.Store.MarkAcquisition: the attempt lifecycle table is not modelled; each claim has one attempt context, so an acquisition is counted once per claim, and attempts closed early are not refused.
- uuid4: a token is the next value of a counter, so it is never issued twice.
- SQL dialects, isolation levels, collations and julianday rounding: every transaction is one atomic step, and text is compared by code point.
- The daily refresh with its own heartbeat takes the same lease through other store functions; the single-running-run invariant is about the resumable protocol only.
- How breakers change: any breaker row may change at any step.
- The task executions inside advance_refresh_run and the mapping of their results to completions: every completion with any outcome is allowed.
- The branch of create_or_resume_run for a run that is no longer RUNNING after the lease was taken (backend/db/refresh_run_lifecycle.py:197-202): the same transaction has already excluded it.
- Parsing and normalising of input offsets in utc_iso: instants arrive as instants.
- decode_maturity's reading of symbols, and the upper and lower year limits of datetime in the business-day scan, which is modelled on all proleptic years.
- WindowRows.Normalize: has observation values as an equality type, both bounds, no text validation of provider rows, and the map behind the sorted list that is returned.
- Windows.MakeWindows: has dates for date texts, and today as a parameter.
- WindowNames.ParsedIdentityIsCanonical: further spellings that int and fromisoformat accept (blanks, underscores, other digits, week dates) are not read, and negative series codes, which parse, have no canonical name.
- WindowCoverage.SupersededNames: takes the recoveries validated against network keys as given; overflow of the merge loop one day past year 9999 is not modelled.
- evaluate_series_map beyond its stale rule.
- JSON forms that no issued cursor has (escapes, blanks, nesting, fractions) and timestamps in other ISO spellings: the modelled reader refuses them.
- The counts and summaries attached to each listed run, and every other administration view.
- Sanitising of trace metadata and diagnostics and the parsing of Retry-After; leaving a unit or group, which only restores the caller's context.
- Floating point: budget clocks and deadlines are reals.
- OAuth, encryption, hashing, cookies, the event log and the columns of memberships beyond being active.
- LoginFlows.LimitHolds: is about the callers' lifetime of ten minutes and the default limit of five; clocks read inside create_flow when the caller passes none are not modelled, because the login route always passes one.
- HTTP transport, provider file formats, routes and the frontend.
