# Verified model of the Praxis resilience core

This project models six components of `crates/core` in Dafny and proves what they promise:

- the **circuit breaker**, whose tokens carry the generation that issued them, and its per-peer **registry** with two-phase
  eviction (`circuit.rs`);
- the **hedged-request race**, the **budget** shared by all races, and the **driver** that runs a race to
  its delivery (`hedge.rs`);
- the **retry token bucket** (`retry.rs`);
- W3C **tracestate** parsing and normalisation (`trace_state.rs`);
- **hop-by-hop header stripping** (`next_hop_headers.rs`, `reserved_headers.rs`);
- the **overload** gauge and its hysteresis tracker (`overload.rs`).

## How it is laid out

Each component has a `...Model` module (or one named after the component) with one function per operation of the
source, and a `...Runs` or `...Spec` module with the theorems. Where the source mutates state there are classes and
loops. Those of the breaker, the race, the driver, the header strip, tracestate and the gauge are proved equal to the
model functions that the theorems are about. The theorems about the registry, the shared budget and the retry bucket
are about interleavings of atomic steps, which no single method call is: `StepsAreCalls` shows that each step of a
registry run does what the corresponding method does, and `AdmitAlone`, `ReturnAlone`, `RefillAlone` and `TakeAlone`
show that the atomic steps of one thread, left uninterrupted, do what the methods of the budget and the bucket do.

| file | contents |
|---|---|
| `Prelude.dfy`, `Nonlinear.dfy`, `Sums.dfy`, `Strings.dfy` | options, machine-integer bounds, arithmetic, sums and string helpers |
| `Circuit.dfy`, `CircuitRuns.dfy`, `CircuitRegistry.dfy` | the breaker, all runs of one breaker, all runs of the registry |
| `HedgeRace.dfy`, `HedgeDrive.dfy`, `HedgeBudget.dfy`, `HedgeObjects.dfy` | the race, the driver, the shared budget step by step with the races that share it, and the objects |
| `Retry.dfy` | the bucket, its interleavings, the carried remainder |
| `TraceState.dfy`, `NextHopHeaders.dfy`, `Overload.dfy` | the two header transformations and the gauge |

A run is a sequence of events folded by a step function; an event that is not possible where it stands makes the
run undefined, and theorems quantify over all defined runs. Concurrency is interleaving: one step is one critical
section of the breaker's mutex, one operation of the registry's map, or one atomic load or compare-exchange of the
budget and the bucket, under sequential consistency. A weak compare-exchange may fail spuriously. The
endpoint picker, attempt results and usage ratios are parameters of the events and may be anything, and
`duration_since` saturates at zero. The clock samples of the retry bucket may be anything too. Those of a breaker
follow the code: an acquisition and a recorded failure read the clock before they take the breaker's lock, so their
samples need not arrive in order, but a failure is sampled after its token was handed out, hence after every sample
taken by then, and a success reads the clock under the lock. In the registry, moreover, no acquisition is sampled
before the one that inserted its breaker, whose clock is read under the shard's write lock, and a removal is sampled
after all other use of the entry. All runs that refute a claim below obey these rules.

Machine widths are explicit: saturating 64-bit products in the budget and the bucket, 32-bit in-flight and failure
counters, 8-bit run counters, the wrapping 64-bit generation. Run hypotheses name the bounds used: fewer than 2^32
outstanding tokens per breaker, a generation that has not wrapped, fewer than 2^64 counted requests.

Where code and documentation disagree the model follows the code:

- `half_open_timeout` is documented as putting the circuit back to Open; the code stays
  HalfOpen and issues a fresh probe. A HalfOpen breaker opens exactly on the failure of a current token
  (`HalfOpenOpensOnlyOnProbeFailure`).
- The generation is documented as incremented on state transitions; it changes exactly when a probe starts, so it
  counts the probes (`GenerationStep`, `GenerationCountsProbes`).
- The idle clock is documented as moved by an issued token or a recorded outcome; every acquisition attempt moves
  it, rejected ones included, and the outcome of a stale token does not (`IdleReadsTheLastTouch`).
- A stream of rejected requests is documented to stop the breaker from looking idle. The code stores the sample of
  whichever request took the lock last, so it can look idle at the very time a request is turned away
  (`RejectedJustNowLooksIdle`); looking idle means untouched exactly when no touch has a later sample than the last
  one in lock order, or a token is out (`UntouchedExactlyInOrder`).
- Eviction is documented as safe because a recreated breaker decides as the evicted one would have. That holds
  exactly unless the evicted breaker is HalfOpen inside its probe timeout (`EvictionKeepsTheDecisionExactly`), and
  for some run it fails under every idle threshold unless probes have no timeout
  (`EvictionIsHarmlessExactlyWithoutATimeout`).

A failed delivery can pair one attempt's status with another's payload (`MixedAttemptsCanSplitADelivery`);
`DeliveryComesFromOneAttempt` says exactly when it does not. A round in which a resource is not sampled can end a
saturation although the latest samples were all saturated (`MissedRoundCanDropSaturation`); `HysteresisIsExact` says
for every run, missed rounds included, exactly when saturation is entered and left.

## Model

| member | source | states |
|---|---|---|
| `Circuit.CircuitBreaker.constructor` | crates/core/src/circuit.rs:205-219 | a new breaker is Closed with an empty streak, nothing in flight, generation 0, and a mirror that says so |
| `Circuit.CircuitBreaker.IssueTokenAt` | crates/core/src/circuit.rs:147-153 | the token carries the current generation; the in-flight count grows by one, saturating |
| `Circuit.CircuitBreaker.TransitionToHalfOpen` | crates/core/src/circuit.rs:165-170 | generation bumped, HalfOpen stamped, probe token of the new generation issued |
| `Circuit.CircuitBreaker.TryOpenToHalfOpen` | crates/core/src/circuit.rs:174-183 | a probe starts exactly when the recovery window since the opening has elapsed; otherwise nothing changes and the request is rejected |
| `Circuit.CircuitBreaker.TryResetStaleProbe` | crates/core/src/circuit.rs:191-200 | a fresh probe starts exactly when the probe timeout since the last one has elapsed; otherwise nothing changes and the request is rejected |
| `Circuit.CircuitBreaker.Acquire` | crates/core/src/circuit.rs:261-276 | the whole critical section equals the model's acquisition, mirror included |
| `Circuit.CircuitBreaker.Succeed` | crates/core/src/circuit.rs:288-309 | a recorded success equals the model's, including the early return of a stale token |
| `Circuit.CircuitBreaker.Fail` | crates/core/src/circuit.rs:321-346 | a recorded failure equals the model's, including the early return of a stale token |
| `Circuit.CircuitBreaker.Free` | crates/core/src/circuit.rs:367-375 | releasing frees the slot and changes nothing else |
| `Circuit.CircuitBreaker.Peek` | crates/core/src/circuit.rs:232-248 | the peek equals the model's, with the Closed answer taken from the mirror |
| `Circuit.CircuitBreaker.Idle` | crates/core/src/circuit.rs:413-420 | the idleness test equals the model's |
| `CircuitRuns.ReachableInv` | crates/core/src/circuit.rs:124-201 | in every reachable state: mirror equals state, in-flight equals tokens out, no token carries a later generation, time stamps are present where needed, the streak is below the threshold, at most one current token while HalfOpen, handed out no earlier than HalfOpen began |
| `CircuitRuns.MirrorPeekAndRecovery` | crates/core/src/circuit.rs:232-276 | in every reachable state the mirror is the state, the peek at t is true exactly when an acquisition at t is allowed, and from some time on every acquisition is allowed |
| `CircuitRuns.AdmitsExactlyAfterTheWindow` | crates/core/src/circuit.rs:174-276 | in every reachable state a request at v is admitted if and only if the circuit is Closed, or Open with a full recovery window passed since the sample of the failure that opened it, or HalfOpen with a full probe timeout passed since the sample that started the probe; both samples are read off the run |
| `CircuitRuns.TripShutsForAWindow` | crates/core/src/circuit.rs:329-336 | a failure at u that takes the breaker out of Closed leaves it admitting at v if and only if v is at least a recovery window after u |
| `CircuitRuns.SingleProbe` | crates/core/src/circuit.rs:163-200 | in every reachable HalfOpen state at most one outstanding token carries the current generation |
| `CircuitRuns.ProbeDecides` | crates/core/src/circuit.rs:288-346 | after a probe starts, however many other events follow, as long as none names its request and none starts another probe the breaker stays HalfOpen since that moment and the probe stays current; its success, whenever it can come, closes the circuit with an empty streak, and its failure opens it so that it admits again exactly from a full recovery window on |
| `CircuitRuns.HalfOpenOpensOnlyOnProbeFailure` | crates/core/src/circuit.rs:186-200 | from every reachable HalfOpen state a step leads to Open if and only if it is the failure of a token of the current generation; a probe that times out never does |
| `CircuitRuns.GenerationStep` | crates/core/src/circuit.rs:163-170 | a step changes the generation if and only if it starts a probe, and then by one |
| `CircuitRuns.GenerationCountsProbes` | crates/core/src/circuit.rs:136-170 | in every run the generation is the number of probes started |
| `CircuitRuns.StaleTokenOnlyFreesItsSlot` | crates/core/src/circuit.rs:288-346 | a token that was out when any later probe started can, for the rest of the run, only free its slot, whatever outcome it reports |
| `CircuitRuns.ClosedCountsTheStreak` | crates/core/src/circuit.rs:295-336 | in every reachable Closed state the stored count is the trailing run of counted failures in the ledger of the run, and is below the threshold (below one, when the threshold is zero) |
| `CircuitRuns.TripsExactlyAtThreshold` | crates/core/src/circuit.rs:329-336 | an event leaves Closed if and only if it is a counted failure completing a run of `threshold` of them (one, when the threshold is zero) |
| `CircuitRuns.IdleReadsTheLastTouch` | crates/core/src/circuit.rs:388-420 | a breaker is idle exactly when every token is back, it is not open less than a recovery window after the failure that opened it, and the sample of the touch (acquisition attempt or counted outcome) that took the lock last is old enough; samples of earlier touches are not looked at |
| `CircuitRuns.UntouchedExactlyInOrder` | crates/core/src/circuit.rs:261-267 | in every run, "idle for th at now implies every touch is at least th old" holds for all th and now if and only if a token is still out or no touch carries a later sample than the one that took the lock last |
| `CircuitRuns.RejectedJustNowLooksIdle` | crates/core/src/circuit.rs:264-267 | for every configuration with a recovery window of at most 1 and a probe timeout above 8, a run after which the breaker is idle for 5 at time 10 although a request sampled at 10 was turned away |
| `CircuitRuns.AdmissionsAreSpaced` | crates/core/src/circuit.rs:163-200 | with positive windows, between a trip and the return to Closed the first admission is a recovery window after the trip and successive ones are at least the shorter window apart, with clock samples in any order |
| `CircuitRuns.SpanAdmitsFew` | crates/core/src/circuit.rs:174-200 | hence a span L of such an episode admits at most 1 + L / min(windows) requests |
| `CircuitRuns.SpacedExactlyWithPositiveWindows` | crates/core/src/circuit.rs:174-200 | the spacing holds in every run if and only if both windows are positive; a zero window has a refuting run for every threshold |
| `CircuitRegistryRuns.ReachableInv` | crates/core/src/circuit.rs:503-580 | in every interleaving over any number of peers, the life of every instance (what was done to it, in order) is a run of a lone breaker, no instance stands under two peers, and every token finds its instance |
| `CircuitRegistryRuns.InstancesRunAlone` | crates/core/src/circuit.rs:503-580 | a registry run splits into one life per instance ever created; each life is a possible run of a lone breaker in which no acquisition is sampled before the first, and that of a standing instance leads to exactly its state and the tokens it has out |
| `CircuitRegistryRuns.LivesAreTheOrderlyRuns` | crates/core/src/circuit.rs:511-546 | the lives a registry can give its instances are exactly the runs of a lone breaker that begin with an acquisition, sampled no earlier than the birth, before which no other acquisition is sampled |
| `CircuitRegistryRuns.EveryInstanceIsSpaced` | crates/core/src/circuit.rs:163-200 | so with positive windows the recovery admissions of every instance, evicted ones included, are spaced in every interleaving |
| `CircuitRegistryRuns.TokensKeepTheirBreaker` | crates/core/src/circuit.rs:511-580 | in every interleaving, each unreturned token finds under its peer the very instance that issued it, which still counts it and whose generation is not behind the token's, so no outcome is dropped or charged to a recreated breaker |
| `CircuitRegistryRuns.InFlightCountsTickets` | crates/core/src/circuit.rs:147-161 | in every interleaving a breaker's in-flight count is the number of tokens issued for its peer and not returned, and a peer without a breaker has none |
| `CircuitRegistryRuns.EvictionIsExact` | crates/core/src/circuit.rs:555-580 | a removal step evicts exactly the peers with no token out, not open for less than the recovery window, and quiet long enough, and touches nothing else |
| `CircuitRegistryRuns.OpenCircuitHolds` | crates/core/src/circuit.rs:400-419 | with a positive recovery window, no interleaving in which the steps on that peer are sampled inside the window evicts or replaces an open breaker or issues a token for its peer; steps on other peers may be sampled whenever |
| `CircuitRegistryRuns.OpenHoldsExactlyWithAWindow` | crates/core/src/circuit.rs:174-183 | from every reachable registry an open breaker holds against every such step if and only if the recovery window is positive; with none, a request sampled before the trip, though not before the insertion, is admitted after it, for every threshold |
| `CircuitRegistryRuns.EvictionKeepsTheDecisionExactly` | crates/core/src/circuit.rs:388-420 | for an evicted peer and any later time, the recreated breaker admits the first request, and the old one would have admitted it too if and only if it is not HalfOpen inside its probe timeout |
| `CircuitRegistryRuns.EvictionIsHarmlessExactlyWithoutATimeout` | crates/core/src/circuit.rs:388-420 | for every idle threshold, no reachable breaker that a removal finds idle would have turned the next request away if and only if the probe timeout is zero |
| `CircuitRegistryRuns.StepsAreCalls` | crates/core/src/circuit.rs:503-580 | each step of a registry run changes the breakers as the registry method does, issues a token exactly when the method does, and presents the token issued |
| `CircuitRegistry.CircuitBreakerRegistry.constructor` | crates/core/src/circuit.rs:496-501 | a new registry tracks no peer |
| `CircuitRegistry.CircuitBreakerRegistry.Precheck` | crates/core/src/circuit.rs:505-507 | true for an unknown peer, else the breaker's peek |
| `CircuitRegistry.CircuitBreakerRegistry.TryAcquire` | crates/core/src/circuit.rs:511-522 | the peer's breaker, created if absent, makes one acquisition; other breakers and existing instances are untouched |
| `CircuitRegistry.CircuitBreakerRegistry.RecordSuccess` | crates/core/src/circuit.rs:525-529 | the peer's breaker, if any, records the success; nothing else changes |
| `CircuitRegistry.CircuitBreakerRegistry.RecordFailure` | crates/core/src/circuit.rs:532-536 | the peer's breaker, if any, records the failure; nothing else changes |
| `CircuitRegistry.CircuitBreakerRegistry.Release` | crates/core/src/circuit.rs:542-546 | the peer's breaker, if any, frees the slot; nothing else changes |
| `CircuitRegistry.CircuitBreakerRegistry.Scan` | crates/core/src/circuit.rs:558-563 | the candidates are exactly the peers idle when looked at |
| `CircuitRegistry.CircuitBreakerRegistry.RemoveIf` | crates/core/src/circuit.rs:574-578 | a peer is removed exactly when it is idle at the re-check, and no other breaker is touched |
| `CircuitRegistry.CircuitBreakerRegistry.Sweep` | crates/core/src/circuit.rs:572-579 | removes exactly the candidates still idle and counts them |
| `CircuitRegistry.CircuitBreakerRegistry.EvictIdle` | crates/core/src/circuit.rs:555-580 | a sweep evicts exactly the peers idle at the scan and again at the re-check, and returns their number |
| `HedgeRaceRuns.InitialFanOut` | crates/core/src/hedge.rs:419-432 | the fan-out appends distinct endpoints to all three lists alike, except that only the first attempt is primary and holds no reservation |
| `HedgeRaceRuns.OpenLaunchesAllItMay` | crates/core/src/hedge.rs:342-352 | opening launches, in order, fresh endpoints from the picker, the primary without a reservation and every copy with one, up to the configured number and the cap or until the budget or the picker refuses; it is lost exactly when nothing starts; and it asks for the per-try delay exactly while the cap has room |
| `HedgeRaceRuns.ReachableInv` | crates/core/src/hedge.rs:288-309 | after every sequence of calls the race agrees with a referee's book kept from calls and answers alone, and its reservations are the in-flight attempts but the primary |
| `HedgeRaceRuns.AttemptsAreDistinctAndCapped` | crates/core/src/hedge.rs:435-454 | endpoints are distinct, no more than the original cap, and at most one verdict is ever given |
| `HedgeRaceRuns.WinIsTheFirstSuccess` | crates/core/src/hedge.rs:398-410 | a call is answered with a win if and only if it reports a status from 200 to 499 of a running attempt before any verdict, and the attempts to cancel are exactly the others still running |
| `HedgeRaceRuns.LossNeedsEveryAttemptToFail` | crates/core/src/hedge.rs:520-539 | a loss means every launched attempt failed and carries the last status any of them reported; every call after a verdict, a second opening and a lowered cap are answered Pending |
| `HedgeRaceRuns.TimerStartsExactlyWhenAllowed` | crates/core/src/hedge.rs:362-392 | a timer call starts one copy if and only if no verdict was given, the cap has room, the budget grants and a fresh endpoint is offered, and arms the next wait only while room remains; it loses the race if and only if it starts nothing and nothing runs; while something runs a denied copy is asked for again after the per-try delay and any other is given up |
| `HedgeRaceRuns.FailureEndsTheRaceExactlyWhenSpent` | crates/core/src/hedge.rs:508-539 | the last running attempt's failure loses the race when the cap is spent and asks for a copy at once when it is not; any other failure is answered Pending |
| `HedgeRaceRuns.NothingStartsAfterDisallow` | crates/core/src/hedge.rs:516-518 | after further copies are disallowed no attempt starts for the rest of the run |
| `HedgeDriveRuns.LoopHeadIsNeverIdle` | crates/core/src/hedge.rs:740-775 | at every loop head the tasks are exactly the in-flight attempts and there is one, so the idle exit and the empty-address wake are unreachable |
| `HedgeDriveRuns.TurnsMakeProgress` | crates/core/src/hedge.rs:799-865 | every turn that goes on lowers 2 * (cap - started) + running, except a timer tick that launches nothing; a timer wake never ends the race |
| `HedgeDriveRuns.TurnsAreExact` | crates/core/src/hedge.rs:740-865 | at every loop head, a turn launches an attempt if and only if the timer fired or the last task failed, no attempt finished by then asked for a halt, the cap has room and a fresh endpoint is offered and granted; it delivers if and only if a task succeeded or the last one failed and nothing was launched; it arms, keeps or stops the timer as stated; and a timer that is not armed or a task that is not running has no effect |
| `HedgeDriveRuns.OpeningArmsTheTimer` | crates/core/src/hedge.rs:719-737 | after opening the timer is armed if and only if the deadline can be represented, a per-try timeout is configured and fewer than `max_attempts` attempts were launched |
| `HedgeDriveRuns.NothingStartsAfterAHalt` | crates/core/src/hedge.rs:799-828 | once a finished attempt has asked for a halt, no attempt is started for the rest of any script |
| `HedgeDriveRuns.DeliversWithinMaxAttempts` | crates/core/src/hedge.rs:719-775 | the driver has delivered by the time `max_attempts` attempts have finished, and never lets more finish |
| `HedgeDriveRuns.DeliveryReportsTheAttempts` | crates/core/src/hedge.rs:799-905 | a delivery is the first success, with its endpoint and payload (empty when it carries none), or the last status and last payload any failed attempt produced |
| `HedgeDriveRuns.DeliveryComesFromOneAttempt` | crates/core/src/hedge.rs:799-905 | over every script, the delivery is one attempt's own (the success that ended the race, else the last attempt with a status or a payload, else empty) if and only if that success carries a payload, or that last attempt lacks neither a status nor a payload that an earlier one had; attempts with a status exactly when they have a payload always meet this |
| `HedgeDriveRuns.BareWinnerDeliversNothing` | crates/core/src/hedge.rs:875-884 | a winner without a payload is delivered as a failure with neither status nor payload, whatever came before |
| `HedgeDriveRuns.MixedAttemptsCanSplitADelivery` | crates/core/src/hedge.rs:896-905 | a two-attempt script whose delivery pairs one attempt's status with the other's payload |
| `HedgeDriveRuns.TimerOk` | crates/core/src/hedge.rs:839-865 | a driver timer step returns to a good loop head or fails with nothing in flight; it never delivers a win |
| `HedgeDriveRuns.DriveOk` | crates/core/src/hedge.rs:740-775 | the invariant of the driver loop over every script of wakes |
| `HedgeDrive.Flight.constructor` | crates/core/src/hedge.rs:644-649 | no task is running |
| `HedgeDrive.Flight.Launch` | crates/core/src/hedge.rs:652-664 | one task per attempt, in order, each with its endpoint recorded |
| `HedgeDrive.Flight.JoinedWake` | crates/core/src/hedge.rs:689-712 | a finished or panicked task is removed and reported against its endpoint |
| `HedgeDrive.Flight.Stop` | crates/core/src/hedge.rs:667-669 | no task is left |
| `HedgeDrive.OnTimerStep` | crates/core/src/hedge.rs:839-865 | launches what the race asks for, resets the deadline, or reports why to stop |
| `HedgeDrive.RunFlight` | crates/core/src/hedge.rs:740-775 | the loop computes the model's drive over the script, so every theorem about drives holds of it |
| `HedgeDrive.DriveRace` | crates/core/src/hedge.rs:719-737 | the driver's result is the model's, and a script in which `max_attempts` attempts finish ends in a delivery |
| `HedgeObjects.AdmitsIsExact` | crates/core/src/hedge.rs:137-159 | the saturating test implies the exact one, equals it while the copies' product fits, and admits the first copy under any positive budget |
| `HedgeObjects.HedgeBudget.constructor` | crates/core/src/hedge.rs:81-87 | both counters start at zero |
| `HedgeObjects.HedgeBudget.NoteRequest` | crates/core/src/hedge.rs:90-92 | one more request, modulo 2^64 |
| `HedgeObjects.HedgeBudget.EndRequest` | crates/core/src/hedge.rs:95-108 | one request fewer, never below zero, whatever spurious failures occur |
| `HedgeObjects.HedgeBudget.RevertAdmission` | crates/core/src/hedge.rs:115-128 | one copy fewer, never below zero |
| `HedgeObjects.HedgeBudget.TryAdmit` | crates/core/src/hedge.rs:137-159 | admits exactly when the budget has room, and counts exactly what it admits |
| `HedgeObjects.HedgeReservation.constructor` | crates/core/src/hedge.rs:166-171 | a new reservation is open |
| `HedgeObjects.HedgeReservation.Drop` | crates/core/src/hedge.rs:198-204 | the first drop returns the admission, a second does not |
| `HedgeObjects.HedgeRace.constructor` | crates/core/src/hedge.rs:317-335 | a fresh race holds nothing |
| `HedgeObjects.HedgeRace.StartOne` | crates/core/src/hedge.rs:435-454 | starts as the model does under the budget's answer, and the budget is charged exactly for the copies held |
| `HedgeObjects.HedgeRace.StartInitial` | crates/core/src/hedge.rs:419-432 | the loop is the model's fan-out under the budget's successive answers |
| `HedgeObjects.HedgeRace.Open` | crates/core/src/hedge.rs:342-352 | counts the request once and opens as the model does |
| `HedgeObjects.HedgeRace.OnTimer` | crates/core/src/hedge.rs:362-392 | the timer call is the model's under the budget's answer, with the charge kept exact |
| `HedgeObjects.HedgeRace.DropCopy` | crates/core/src/hedge.rs:570-578 | dropping one copy returns exactly one admission |
| `HedgeObjects.HedgeRace.ReleaseCopy` | crates/core/src/hedge.rs:570-578 | releases the reservation of that endpoint, if it holds one |
| `HedgeObjects.HedgeRace.ClearCopies` | crates/core/src/hedge.rs:553-557 | clearing returns one admission per copy held |
| `HedgeObjects.HedgeRace.OnComplete` | crates/core/src/hedge.rs:398-410 | the completion is the model's, with the charge kept exact |
| `HedgeObjects.HedgeRace.DisallowMore` | crates/core/src/hedge.rs:516-518 | the cap becomes the number started |
| `HedgeObjects.HedgeRace.Drop` | crates/core/src/hedge.rs:586-594 | dropping a race returns its copies and its request |
| `HedgeBudgetRuns.ReachableInv` | crates/core/src/hedge.rs:90-204 | the books of the shared budget balance in every interleaving of atomic steps |
| `HedgeBudgetRuns.CountersAreExact` | crates/core/src/hedge.rs:435-454 | across any number of races `hedges` is the in-flight copies plus reservations in hand or being returned, `requests` is the races opened and not gone, and the primary is never charged |
| `HedgeBudgetRuns.CountersDrain` | crates/core/src/hedge.rs:586-594 | both counters are zero once every race has been dropped |
| `HedgeBudgetRuns.AdmissionHasRoom` | crates/core/src/hedge.rs:137-159 | the exchange that admits a copy finds hedges * 10000 < requests_seen * bps, whatever changed since the loads |
| `HedgeBudgetRuns.HedgesNeverExceedTheBudget` | crates/core/src/hedge.rs:137-159 | `hedges` never exceeds ceil(peak requests * bps / 10000) |
| `HedgeSharedRaces.SharedRacesRunAlone` | crates/core/src/hedge.rs:342-454 | in every interleaving of the shared budget, a race that was opened and not dropped stands exactly where its own calls, in order, lead a race on its own; asking, checking, exchanging and choosing are together one call of the timer |
| `HedgeSharedRaces.SharedRacesKeepTheRules` | crates/core/src/hedge.rs:398-454 | so in every interleaving attempts are distinct and within the cap, at most one verdict is given, and a finished attempt wins if and only if it is the first success of one still running |
| `HedgeBudgetRuns.AdmitAlone` | crates/core/src/hedge.rs:137-159 | uninterrupted, the atomic steps of the admission loop take a reservation exactly when the budget has room |
| `HedgeBudgetRuns.ReturnAlone` | crates/core/src/hedge.rs:95-128 | uninterrupted, returning a reservation and ending a request each take one from their counter, never below zero |
| `RetryRuns.AccrualIsPaid` | crates/core/src/retry.rs:125-133 | accrued tokens never exceed the rate times the time consumed, which never passes the sample, also when the product saturates |
| `RetryRuns.ReachableInv` | crates/core/src/retry.rs:125-194 | tokens, retries admitted and claimed-but-unadded tokens never exceed the initial fill plus what was credited |
| `RetryRuns.RetriesAreRateBounded` | crates/core/src/retry.rs:125-194 | over any interleaving, clock samples and caps, retries admitted are at most rate + floor(rate * (latest - start) / 1000) |
| `RetryRuns.TokensStayUnderTheCap` | crates/core/src/retry.rs:95-173 | in every interleaving the bucket, and every cap a thread is about to clamp to, never exceeds the largest of the rate and the caps in use |
| `RetryRuns.EveryWindowIsRateBounded` | crates/core/src/retry.rs:125-194 | over any window of any interleaving, retries admitted are at most the largest of the rate and the caps so far, plus the tokens claimed and not yet added when it began, plus floor(rate * (latest at its end - refill mark at its beginning) / 1000) |
| `RetryRuns.NoTokenIsLost` | crates/core/src/retry.rs:125-194 | in every interleaving whose additions are never cut by a cap, tokens held, retries admitted and tokens claimed but not added are together exactly the initial fill and what was credited |
| `RetryRuns.RefillAlone` | crates/core/src/retry.rs:125-173 | uninterrupted, the atomic steps of a refill are one refill of the bucket, whose worth RefillFills states |
| `RetryRuns.TakeAlone` | crates/core/src/retry.rs:178-194 | uninterrupted, the atomic steps of an acquisition admit exactly when a token is there, and take it |
| `RetryCarry.OneRefill` | crates/core/src/retry.rs:125-133 | when the product fits in 64 bits, one refill credits the whole tokens of the span, leaves less than a token's worth of time, wastes less than a millisecond, and nothing for an exact rate |
| `RetryCarry.RemainderIsUnderOneToken` | crates/core/src/retry.rs:120-154 | after any refills at non-decreasing times whose product with the rate fits in 64 bits, the uncredited time is worth less than one token |
| `RetryCarry.SplittingLosesLittle` | crates/core/src/retry.rs:120-154 | under the same conditions, splitting a span over n accruals never credits more than one refill, falls short by less than 1 + n * (rate - 1) / 1000, and credits the same when the rate divides 1000 or is a multiple of it |
| `RetryCarry.ExactRatesAreTheLossFreeOnes` | crates/core/src/retry.rs:128-133 | splitting loses nothing in every such schedule if and only if the rate divides 1000 or is a multiple of it |
| `RetryRefill.RefillFills` | crates/core/src/retry.rs:125-173 | when the product fits in 64 bits an uncontested refill leaves min(cap, tokens + floor(rate * (now - last) / 1000)) tokens |
| `RetryRefill.WaitYieldsAToken` | crates/core/src/retry.rs:125-133 | with a positive rate, waiting ceil(1000 / rate) milliseconds or more accrues a token, also when the product saturates |
| `Retry.RetryBudget.constructor` | crates/core/src/retry.rs:72-80 | the bucket starts filled to the floor |
| `Retry.RetryBudget.MaxTokens` | crates/core/src/retry.rs:95-105 | the cap is the larger of the share of the load and the floor |
| `Retry.RetryBudget.RefillAt` | crates/core/src/retry.rs:125-154 | a refill whose claim no other thread contests is the model's, and when the product fits in 64 bits leaves min(cap, tokens + floor(rate * (now - last) / 1000)) tokens |
| `Retry.RetryBudget.AddTokens` | crates/core/src/retry.rs:157-173 | leaves min(cap, tokens + added) tokens, saturating at 64 bits, whatever spurious failures occur |
| `Retry.RetryBudget.TryAcquire` | crates/core/src/retry.rs:178-194 | admits exactly when a token is there, and takes it |
| `Retry.ClusterRetryState.constructor` | crates/core/src/retry.rs:227-233 | no request is active |
| `Retry.ClusterRetryState.Enter` | crates/core/src/retry.rs:236-238 | one more active request, modulo 2^64, and the new count saturated |
| `Retry.ClusterRetryState.Leave` | crates/core/src/retry.rs:241-257 | one active request fewer, never below zero |
| `Retry.ClusterRetryState.TryAdmitRetry` | crates/core/src/retry.rs:261-265 | a retry is admitted exactly when the refilled and clamped bucket is not empty, and in particular whenever ceil(1000 / rate) milliseconds have passed since the refill mark |
| `TraceState.SerializeTracestate` | crates/core/src/trace_state.rs:44-65 | the loop is the greedy serialisation |
| `TraceState.ParseListMember` | crates/core/src/trace_state.rs:22-31 | one list element is blank, malformed or a valid pair |
| `TraceState.ParseTracestate` | crates/core/src/trace_state.rs:19-41 | the loop is the model's parse |
| `TraceStateSpec.SerializesLongestPrefix` | crates/core/src/trace_state.rs:44-65 | the serialiser emits the canonical form of the longest prefix within 512 bytes, and nothing exactly when even the first member does not fit |
| `TraceStateSpec.KeyGrammar` | crates/core/src/trace_state.rs:73-121 | a key is valid if and only if it is 1 to 256 key bytes beginning with a lower-case letter, or a tenant of 1 to 241 beginning with a letter or digit and a system of 1 to 14 beginning with a letter, joined by one `@` |
| `TraceStateSpec.ValueGrammar` | crates/core/src/trace_state.rs:123-135 | a value is valid if and only if it is 1 to 256 bytes from 0x20 to 0x7E other than comma and equals, the last not a space |
| `TraceStateSpec.ParsesEveryRendering` | crates/core/src/trace_state.rs:19-65 | any rendering of at most 32 valid members with distinct keys, with any padding and blank elements, parses to the canonical form of the longest prefix that fits |
| `TraceStateSpec.AcceptsOnlyRenderings` | crates/core/src/trace_state.rs:19-41 | the input is not rejected if and only if it is such a rendering |
| `TraceStateSpec.ParsesExactlyFittingRenderings` | crates/core/src/trace_state.rs:19-65 | parsing yields a header if and only if the input is such a rendering with at least one member, the first of which fits in 512 bytes on its own |
| `TraceStateSpec.OutputReparsesToItself` | crates/core/src/trace_state.rs:12-41 | every output parses to itself |
| `NextHopSpec.ProtectedIgnoresCase` | crates/core/src/reserved_headers.rs:136-143 | protection does not depend on case |
| `NextHopSpec.NominationsAreIndependent` | crates/core/src/reserved_headers.rs:161-167 | one value nominates exactly its trimmed usable elements; an unusable element hides no other |
| `NextHopSpec.StripsExactlyTheSpecifiedFields` | crates/core/src/next_hop_headers.rs:95-121 | for any headers and lower-case list, each field is absent, unchanged or the restored framing, exactly as the declarative specification says; the rows of NextHopByName say what that means field by field |
| `NextHopSpec.NeverBothFramings` | crates/core/src/next_hop_headers.rs:215-241 | for both hop-by-hop lists, Transfer-Encoding never remains beside Content-Length, Content-Length is never stripped, and Transfer-Encoding remains exactly as the restored `chunked` |
| `NextHopSpec.OnlyWebsocketUpgradesCross` | crates/core/src/next_hop_headers.rs:170-197 | a static hop-by-hop field crosses only as half of a clean WebSocket upgrade, unchanged, or as the restored framing |
| `NextHopSpec.StrippingIsIdempotent` | crates/core/src/next_hop_headers.rs:95-121 | for both hop-by-hop lists, stripping twice is stripping once |
| `NextHopByName.UntouchableFieldsCross` | crates/core/src/reserved_headers.rs:136-143 | for both lists, a field named `host`, `forwarded` or `content-length`, or beginning with `x-forwarded-`, `x-praxis-`, `x-ext-protocol-` or `x-ext-agent-`, crosses with its values whatever `Connection` says |
| `NextHopByName.HopFieldsNeverCross` | crates/core/src/reserved_headers.rs:55-82 | `keep-alive`, `te`, `trailer` and `proxy-authenticate` never cross, nor `proxy-authorization` in a request |
| `NextHopByName.OtherFieldsCrossExactlyWhenUnnamed` | crates/core/src/next_hop_headers.rs:253-276 | any other field crosses, unchanged, if and only if no `Connection` value has an element, between commas and with any whitespace around it, that spells its name in any case |
| `NextHopByName.UpgradePairCrossesExactly` | crates/core/src/next_hop_headers.rs:170-197 | `Upgrade` and `Connection` cross, unchanged, if and only if the hop may keep an upgrade and there is exactly one readable `Upgrade` value, spelling `websocket` |
| `NextHopByName.FramingCrossesExactly` | crates/core/src/next_hop_headers.rs:211-241 | `Transfer-Encoding` crosses, as `chunked`, if and only if restoring is asked for, the last element of its last value is `chunked`, there is no `Content-Length`, and restoring is not suppressed on a kept upgrade |
| `NextHopHeaders.HeaderTarget.RemoveByName` | crates/core/src/next_hop_headers.rs:79-81 | removes the field whatever the case of the name given |
| `NextHopHeaders.HeaderTarget.InsertTransferEncodingChunked` | crates/core/src/next_hop_headers.rs:83-88 | sets the single value `chunked` |
| `NextHopHeaders.HeaderTarget.StripStaticNames` | crates/core/src/next_hop_headers.rs:104-109 | the loop over static names is the model's |
| `NextHopHeaders.HeaderTarget.StripTokensOf` | crates/core/src/next_hop_headers.rs:259-274 | the loop over one value's tokens is the model's |
| `NextHopHeaders.HeaderTarget.StripConnectionTokens` | crates/core/src/next_hop_headers.rs:253-276 | the loop over all values strips all nominations |
| `NextHopHeaders.HeaderTarget.Strip` | crates/core/src/next_hop_headers.rs:95-121 | the in-place strip is the model's |
| `OverloadRuns.BandInUnit` | crates/core/src/overload.rs:415-423 | a band pressure lies in [0, 1] |
| `OverloadRuns.BandIsMonotonic` | crates/core/src/overload.rs:464-470 | a higher ratio never means a lower pressure, whatever the band |
| `OverloadRuns.BandIsLinear` | crates/core/src/overload.rs:415-423 | pressure is 0 up to the scaling threshold, 1 from the saturation threshold on, and between them equal steps of the ratio are equal steps of the pressure |
| `Overload.BandEdges` | crates/core/src/overload.rs:40-68 | cgroup memory and heap scale from 0.80 to 0.95, CPU from 0.10 to 0.50, connections and descriptors from 0.70 to 0.95 |
| `OverloadRuns.GaugeMoves` | crates/core/src/overload.rs:402-412 | a first sample sets the gauge, every later one leaves 0.7 of the gauge and 0.3 of the sample's pressure, and a missing, non-finite or negative ratio leaves it alone |
| `OverloadRuns.PressureStaysInUnit` | crates/core/src/overload.rs:402-412 | smoothed pressure stays in [0, 1] for every sequence of samples and missed rounds |
| `OverloadRuns.SaturationApproach` | crates/core/src/overload.rs:402-412 | n saturated samples take the gauge from p to 1 - (1 - p) * 0.7^n |
| `OverloadRuns.ReachableInv` | crates/core/src/overload.rs:225-259 | in every run, missed rounds included, the run counters are the trailing runs of raw samples with missed rounds passed over, and a gauge at the floor is always logged |
| `OverloadRuns.HysteresisIsExact` | crates/core/src/overload.rs:225-259 | in every run, missed rounds included, saturation is entered exactly on a raw saturated sample that is the third in a row or brings the gauge to the floor, and left exactly when the gauge is below the floor and the round was missed or brought a third or later raw clear sample in a row; missed rounds neither count nor break a row |
| `OverloadRuns.LoggedStateIsExact` | crates/core/src/overload.rs:108-116 | in every run, a sampled resource not logged as saturated is logged as idle if its gauge is at most 1e-9 and as scaling otherwise |
| `OverloadRuns.ThreeInARowSaturate` | crates/core/src/overload.rs:232-244 | in every run a sample that is the third or a later raw saturated one in a row leaves saturation logged, whatever rounds were missed between |
| `OverloadRuns.MissedRoundsFollowTheGauge` | crates/core/src/overload.rs:257-258 | after any run, a stretch of missed rounds changes neither the gauge nor the run counters and leaves saturation logged exactly when the gauge stands at the floor |
| `OverloadRuns.MissedRoundCanDropSaturation` | crates/core/src/overload.rs:257-258 | a concrete run in which a missed round ends a saturation although the latest three samples were all saturated |
| `OverloadRuns.LogLeadsTheGauge` | crates/core/src/overload.rs:70-88 | after any run that leaves the gauge at 0, it takes exactly 59 saturated samples in a row to reach the floor, while saturation is logged at the third |
| `Overload.Monitor.constructor` | crates/core/src/overload.rs:335-349 | nothing has been sampled: no pressure and no raw sample |
| `Overload.Monitor.Fold` | crates/core/src/overload.rs:369-389 | each resource advances by its own ratio and band only |
| `Overload.TransitionTracker.constructor` | crates/core/src/overload.rs:124-132 | no state and empty runs |
| `Overload.TransitionTracker.RecordSampleAt` | crates/core/src/overload.rs:169-198 | one resource is updated as the model does, the others are untouched, and a transition is reported exactly on a change |
| `Overload.TransitionTracker.Update` | crates/core/src/overload.rs:155-166 | resources without a pressure are skipped, all others tracked independently, and exactly the changes are reported in order |
| `Overload.Tick` | crates/core/src/overload.rs:356-366 | one observe-then-update tick moves each resource exactly as its own gauge, so the run theorems hold of all five |

## Left out

- Memory-order weakness: steps are sequentially consistent; Acquire and Release annotations are not modelled.
- Floating point: `percent_to_bps` is replaced by integer basis points, `RetryBudget::max_tokens` by an arbitrary share of the load floored at the rate, and pressures are real numbers, so rounding is not captured.
- `RetryBudget::unlimited`: it is only practically unlimited, and no always-admits claim is made for it.
- HedgeDrive.RunFlight: the race is a value and the budget's answers are part of the script, because other races change the budget between wakes; the mutable race object is modelled by HedgeObjects.HedgeRace instead.
- HedgeDrive.Flight.Stop: aborting is modelled as forgetting the tasks; tokio task mechanics beyond "a launched task finishes at most once, by answering or by panicking" are not modelled.
- HedgeObjects.HedgeRace.Open: calls of the timer before the race is opened are allowed on the object, but the whole-run theorems are about opened races.
- CircuitRuns.AdmissionsAreSpaced: stated for one breaker instance, and by CircuitRegistryRuns.EveryInstanceIsSpaced for every instance of a registry; an eviction of a HalfOpen breaker starts a new instance, and no spacing holds across it.
- CircuitRegistry.CircuitBreakerRegistry.EvictIdle: states a sweep that no other thread interrupts; removals against arbitrarily stale candidates, interleaved with anything, are the RemoveIfIdle steps of CircuitRegistryRuns.
- Retry.RetryBudget.RefillAt: states the uncontested refill; a claim lost to another thread, and every other interleaving, is in RetryRuns.
- CircuitRegistry.CircuitBreakerRegistry.RemoveIf: one clock sample serves both tests of idleness, where the code reads the clock once for each.
- Wrap-around past the named bounds: more than 2^32 - 1 outstanding tokens of one breaker, a wrapped 64-bit generation, and 2^64 counted requests are outside the run hypotheses.
- Non-UTF-8 and non-ASCII bytes in `Connection` tokens are treated as naming no header, which is their effect in the source; UTF-8 decoding itself is not modelled.
- `strip_reserved`, `is_forbidden_client_response_header`, `reused_only_replay_safe`, logging and metrics: they would only add easy members.
- Reading `/proc` and cgroup files, `usage_ratio`, and the ancestor walk: input and output, represented by the ratios given to the gauge.
- The rest of the repository (configuration, filters, protocol adapters, server, tooling) is not part of this model.
