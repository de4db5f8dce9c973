# Verification of the UES runtime state machine

UES decides whether a runner may perform an external write, such as sending a message or creating
a provider session, and recovers when it does not know whether a write happened. This project
models that decision machinery in Dafny and proves what it is for: no effect is executed twice, no
update is lost, and an interrupted operation recovers to the state of an uninterrupted one.

The model has five layers.

- **The store.** `StateStore` is the versioned document: lane and operation records under
  compare-and-swap, lane leases and a revision counter, as a class and as functions on its contents.
- **The runs.** `ClaimProtocol` and `LaneCalls` cut every multi-step call (claim, record UNKNOWN,
  read back, the lane updates with their retry loops, passive observations, every other lane writer)
  at its store calls. `ControlSystem` runs any number of them in any interleaving, with crashes at any
  point; `Legal(run)` says the actions can be taken, `After(run)` is the outcome. `ControlInvariants`,
  `AtMostOnce`, `LeaseExclusion`, `LeaseReordering`, `CanaryBound`, `GenerationChain`,
  `ObservationEffects` and `ConfirmedAccounting` state what holds after every run. `ClaimExecution` and
  `LaneCallExecution` are the same calls as methods on the store class, proved equal to the step
  functions; `SequentialClaims` ties a lone claim to a run. `ClaimAuthority`, `ClaimRaces`,
  `ReadbackOutcome`, `LaneCallOutcome` and `LaneMarks` say on what conditions on the stored records a
  claim is granted, a resolution or a lane update goes through and a mark moves, and what each leaves
  behind.
- **The scripts.** `ProtocolScripts` composes the calls into the functions of the generation protocol
  (create the next or the first session, send a message, reconcile, observe) as programs of runners;
  their interleavings are runs of the control system. `ScriptTraces` records what each function has done
  so far, `ScriptOutcomes` what it does after a provider call, `ScriptEnds` how it ends without one and
  what a reconciliation does after its look at the store. `EffectKeys` ties operation keys to generations,
  and `ProviderCalls` bounds how often a session is asked for.
- **The recovery of generations.** `GenerationProtocol`, `GenerationConvergence` and
  `GenerationRecovery` cover later generations of a lineage, `InitialRecovery` the first one, with a
  fault possible at every store update. `RivalRecovery` and `RivalConvergence` add what other runners
  write between any two store calls, `ObservedRecovery` passive observations between the attempts.
- **The decisions around them.** `QuotaWindow` (rolling window and task budget), `Lifecycle`,
  `Bindings`, `Reconciliation`, `SoundBindings`, `ReconciliationOffers`, `ReconciliationSafety`,
  `Portfolio` and `PortfolioOutcome` (the controller),
  `BranchRecovery` (write receipts), `LineageMatching`, `PassiveObservation` and `LineageObservation`
  (provider listings),
  `Percent`, `Identity` and `ReceiptCodec` (printers and parsers). `Text`, `Bytes`, `Wrappers`,
  `Multisets` and `Records` hold what they share.

Results that a caller may not expect:

- CONFIRMED is not absorbing (`ConfirmedIsNotAbsorbing`), so the bound on provider writes counts the
  persisted "not observed" readbacks.
- A lease can be granted before an earlier one has ended, but only if the lease right after the earlier
  one was acquired at or after its expiry and the later one before that expiry: the times callers supply
  went back (`ReorderedOnlyWhenClockGoesBack`). For all such times there is a run that does it
  (`ClockGoingBackReordersLeases`); adjacent leases are always separated.
- The quota bound is one of half-open windows. A closed window holds at most twice the limit, and more
  than the limit only with creates at both of its ends (`ClosedWindowNeverExceedsTwice`); for every
  positive limit some gated run reaches twice the limit (`ClosedWindowsCanHoldTwice`).
- If binding and accounting went through and clearing the pending mark took effect and was then
  reported as failed, the lane is marked UNKNOWN with nothing left to reconcile it by; every other
  failure of the hand-off is recovered (`HandOffRecoversExactlyUnlessClearTookEffect`).
- When the readback of a reconciliation saves the operation but not the lane, no later reconciliation
  gets over it (`HalfSavedReadbackSticks`).
- The first generation of a lineage, unlike later ones, clears its pending mark when it is bound. If
  the accounting after it fails, neither reconciliation recovers the lane and the creation may stay
  uncounted (`BoundFailureIsNeverRecovered`, `InitialRecoversExactlyWhenUnbound`).
- Reconciling again after a candidate moved repeats the result exactly when the evidence inherited
  from the previous binding is well formed (`ReconcileAgainAfterPrevious`). A sound lane can inherit
  malformed evidence exactly when it has a head and lacks CI or review (`MalformedEvidenceIsInherited`,
  `MalformedPreviousBlocksAgain`).
- A bound lane without a generation number gets one from its first proven observation
  (`FlickerNumbersUnnumberedLane`). No run that starts from an empty store reaches such a lane
  (`AlwaysNumbered`).
- An observation puts a pending transition back in a second write. The mark is lost exactly when the
  observation lands and the runner crashes before that write or loses all three attempts at it
  (`PendingSurvivesExactlyWhen`). A restoration that lands also puts back a transition and an UNKNOWN
  mark that were resolved in between (`PreservingRestoresWhatItRead`). The pending mark of a first
  generation is dropped by an observation and never restored (`MarksMoveOnlyBy`). From then on only the
  receipt of the operation recovers the lane, under checks a caller can make beforehand
  (`ObservedMarkIsGone`, `ReceiptRecoversExactlyWhen`).

## Model

| member | source | states |
|---|---|---|
| StateStore.DeterministicStateStore.constructor | ues/state_store.py:476-486 | a fresh document is empty and its revision is the sum of its versions |
| StateStore.DeterministicStateStore.ReadWorkstream | ues/state_store.py:519-537 | a read tells missing, corrupt or misfiled, and found records apart and returns the stored version |
| StateStore.DeterministicStateStore.ReadOperationRecord | ues/state_store.py:571-592 | the same for operations |
| StateStore.DeterministicStateStore.CompareAndSwapWorkstream | ues/state_store.py:539-569 | a lane write succeeds exactly when identity and expected version fit and the old record parses; it raises that version and the revision by one; a refused call changes nothing |
| StateStore.DeterministicStateStore.CompareAndSwapOperation | ues/state_store.py:594-622 | the same for operations |
| StateStore.DeterministicStateStore.AcquireLease | ues/state_store.py:624-679 | a lease is granted exactly on a positive ttl, a readable lane and no unexpired lease; the new lease names lane, owner, operation, time and version |
| StateStore.DeterministicStateStore.ReleaseLease | ues/state_store.py:681-699 | only the lease with the named id is cleared, a missing one is left alone, another one is refused |
| StateStore.SumVersionsUpdated | ues/state_store.py:562-567 | how one write moves the sum of all versions |
| StateStore.LaneWriteKeepsRevision | ues/state_store.py:562-568 | store_revision stays the sum of all lane and operation versions under a lane write |
| StateStore.OperationWriteKeepsRevision | ues/state_store.py:615-621 | and under an operation write |
| ControlInvariants.AlwaysSound | ues/state_store.py:539-622 | in every reachable state a runner whose snapshot still has the current version would compute the same write from a fresh read, and the revision is the sum of all versions |
| ControlInvariants.EveryActionIsOneWrite | ues/state_store.py:539-622 | every action of a run writes at most one entry, one version further, and keeps the revision sum |
| ControlInvariants.VersionNamesContents | ues/state_store.py:539-622 | between any two moments of a run versions never fall, and an entry at the same version is the same entry |
| ClaimExecution.ConsumeCanary | ues/state_store.py:792-825 | drawing from a canary grant, as a method, is the specified sequence of read, check, lease ownership check and write |
| ClaimExecution.ReleaseQuietly | ues/state_store.py:961-966 | the cleanup of a losing claimant releases its own lease or does nothing |
| ClaimExecution.PersistAndLink | ues/state_store.py:923-991 | persisting IN_FLIGHT and linking the lane, with the cleanup on failure, is what the step functions compute |
| ClaimExecution.ClaimOperation | ues/state_store.py:828-991 | a claim on the store object ends in the document and decision of the specified claim, whose grant and aftermath LoneClaimIsGrantedExactlyWhen spells out |
| ClaimExecution.ResolveAlone | ues/state_store.py:994-1087 | an undisturbed UNKNOWN record or readback saves the operation, then the lane, or refuses and changes nothing |
| ClaimExecution.SaveResolution | ues/state_store.py:1013-1026 | saving a resolution is operation first, lane second, each at the version read |
| ClaimExecution.RecordUnknownWrite | ues/state_store.py:994-1026 | recording UNKNOWN on the store object is the specified run, whose outcome UnknownIsRecorded spells out |
| ClaimExecution.RecordAuthoritativeReadback | ues/state_store.py:1029-1087 | a readback on the store object is the specified run, whose outcome ReadbackSaysObserved spells out |
| ClaimAuthority.LoneClaimIsGrantedExactlyWhen | ues/state_store.py:828-991 | a claim left alone is granted exactly when the lane is not in SHADOW, names the effect of the request, authorizes it (on a CANARY lane by the one grant issued for it, valid at the time, with an effect left and its expected start observed; on an ACTIVE_AUTO_SAFE lane by a complete, unexpired authorization), the operation is absent or read back as not observed with the same digest, nobody holds the lease and the ttl is positive; then lease, counter, operation and lane are exactly so and nothing else moved; otherwise it is denied and nothing moved |
| ClaimAuthority.AuthorityIsGivenExactly | ues/state_store.py:715-789 | both evaluations of authority, read from the records |
| ClaimAuthority.GrantDenialNamesCause | ues/state_store.py:724-751 | a denial on a CANARY lane says that no grant was issued for the effect, or several, or what is wrong with the one |
| ClaimAuthority.LoneDenialNamesFirstFailure | ues/state_store.py:846-921 | a denied claim names the first of the checks that failed |
| ClaimAuthority.ClaimantWasAuthorized | ues/state_store.py:846-889 | in every run whoever is past the check of its authority was authorized, at its own time, by the lane as it was at some moment of the run |
| ClaimAuthority.ClaimsWereAuthorized | ues/state_store.py:828-991 | so was every runner ever told CLAIMED |
| ClaimRaces.ClaimantsMoveSo | ues/state_store.py:792-991 | in every run, whatever others write in between, a claimant that took a lease draws only under that lease and from the only grant issued for its effect, persists exactly when nobody wrote the operation since, leaves a lane that is no longer held under its lease when it is denied unless the release lost a race, and says CLAIMED only of a linked lane or one that is gone |
| ReadbackOutcome.ReadbackSaysObserved | ues/state_store.py:1029-1087 | a readback of an ambiguous operation leaves it CONFIRMED, RECONCILED_NOT_OBSERVED or UNKNOWN as it was observed, not observed or undecided, with reconciliation required, receipt, post-condition, UNKNOWN mark and lease to match, and touches nothing else |
| ReadbackOutcome.UnknownIsRecorded | ues/state_store.py:994-1026 | recording UNKNOWN sets state, mark and receipt of operation and lane, merges the facts and touches nothing else |
| ReadbackOutcome.ResolutionGoesThroughExactlyWhen | ues/state_store.py:994-1087 | a resolution goes through exactly for the lane's own operation, ambiguous if it is a readback, on a readable lane; where the operation is refused nothing changes |
| ReadbackOutcome.OperationStateMoves | ues/state_store.py:923-1087 | in every run an operation becomes CONFIRMED only by a readback that observed it, RECONCILED_NOT_OBSERVED only by one that did not, IN_FLIGHT only by a claim of it while claimable, and UNKNOWN only by being recorded so |
| LaneMarks.MarksMoveOnlySo | ues/generation_pending.py:30-115 | in every run a lane leaves SHADOW only by being authorized or edited, an UNKNOWN mark is set and cleared by the resolutions of its operation, bindings and restorations only, and a pending transition is replaced only while nothing of the lane is unresolved |
| SequentialClaims.LoneClaimIsARun | ues/state_store.py:828-991 | what the store object computes for a claimant left alone is what a legal run reaches |
| SequentialClaims.SecondClaimIsRefused | ues/idempotency.py:46-64 | after a granted claim every further claim of the operation, whatever it carries, is denied and writes nothing |
| SequentialClaims.NotObservedReopensExactlyAmbiguous | ues/state_store.py:1044-1073 | a "not observed" readback opens an operation to another claim exactly when it was IN_FLIGHT or UNKNOWN |
| SequentialClaims.UnknownIsRecordedInEveryState | ues/state_store.py:1006-1013 | recording UNKNOWN has no state guard and keeps the request digest |
| SequentialClaims.ConfirmedIsNotAbsorbing | ues/state_store.py:1006-1013 | a confirmed operation can be moved to UNKNOWN and then be reset to claimable with the same digest |
| AtMostOnce.AtMostOnePerReset | ues/state_store.py:828-1087 | after every run, for every operation: provider writes <= CLAIMED answers <= 1 + persisted "not observed" readbacks, and attempt counts the IN_FLIGHT claims |
| AtMostOnce.CreateSessionAtMostOnce | ues/state_store.py:828-1087 | in every run without a "not observed" readback of an operation the provider is written at most once for it |
| AtMostOnce.OperationIdentityIsConstant | ues/state_store.py:923-960 | operations never disappear and never change request digest, lane, action or workstream; attempts never fall |
| AtMostOnce.WritesCarryOneDigest | ues/state_store.py:892-903 | all runners told CLAIMED for an operation carry the digest stored for it |
| LeaseExclusion.LeaseEndsForCause | ues/state_store.py:624-699 | a held lease ends only by takeover at or after its expiry, release by the runner it was granted to, or a definite readback of its operation |
| LeaseExclusion.LeaseHasOneHolder | ues/state_store.py:656-664 | a lease id on a lane was granted to one runner only, so cleanup never frees another runner's lease |
| LeaseExclusion.LaterLeaseImpliesEnd | ues/state_store.py:624-699 | lease ids are pairwise distinct; a lease had expired or been freed when the next was granted, and, with times that do not go back, when any later one was |
| LeaseReordering.ReorderedOnlyWhenClockGoesBack | ues/state_store.py:636-655 | in every run a lease is granted before an earlier one ended only if it was acquired before that one's expiry and the lease next to that one was not |
| LeaseReordering.ClockGoingBackReordersLeases | ues/state_store.py:624-679 | for all acquisition times with third < expiry of the first <= second, a run of three claims and a readback grants the third lease although the first was neither freed nor expired at that time |
| CanaryBound.ClaimsStayWithinGrant | ues/state_store.py:167-211 | in every reachable state a grant's counter is the length of its key list, within its maximum, and at least the CLAIMED answers drawn from it |
| CanaryBound.CanaryClaimsDraw | ues/state_store.py:905-921 | a CANARY claimant that goes on to persist has drawn from a grant, and the draw is counted |
| GenerationChain.RetryLoopIsAtomic | ues/lineage_generation.py:165-276 | whatever conflicts a lane update went through, the write that lands is the one it would compute from the document at that instant |
| GenerationChain.AlwaysNumbered | ues/lineage_registry.py:216-256 | in every reachable state a lane has a generation exactly when it has a fingerprint |
| GenerationChain.BindingStep | ues/lineage_generation.py:182-229 | one action, a binder's or an observer's, leaves a binding alone, binds the next generation remembering the fingerprint it follows, or is an observation that revokes a legacy adoption |
| GenerationChain.GenerationsFormAChain | ues/lineage_generation.py:165-276 | over every stretch of every run without a revocation the generation never decreases, the fingerprint of a generation never changes, and the recorded predecessor is the one bound before or, once observed again, the lane's own |
| GenerationChain.PredecessorIsRemembered | ues/lineage_generation.py:182-229 | on a lane nobody observes the recorded predecessor stays the one bound before |
| GenerationChain.NoGenerationIsSkipped | ues/initial_lineage_effects.py:251-351 | over a stretch without a revocation every generation between two reached ones was reached |
| GenerationChain.ListingsNeverRevoke | ues/lineage_registry.py:162-184 | in runs whose observations come from listings no binding is revoked |
| GenerationChain.ListedBindingsFormAChain | ues/lineage_registry.py:216-303 | so in such runs, binders and observers interleaved, the bindings of every lane form a chain |
| ObservationEffects.MarksMoveOnlyBy | ues/lineage_observation.py:23-70 | in every run a pending transition goes by being cleared under its key, replaced or observed away, and comes by being persisted or restored; the mark of a first generation comes by being persisted only |
| ObservationEffects.RestoreLandsExactlyWhen | ues/lineage_observation.py:46-70 | the restoration lands exactly when one of its three attempts is left alone |
| ObservationEffects.PendingSurvivesExactlyWhen | ues/lineage_observation.py:9-70 | a pending transition survives the observation exactly when the observation lost its swap, or the runner did not crash in between and one attempt to restore was left alone |
| ObservationEffects.PreservingRestoresWhatItRead | ues/lineage_observation.py:46-58 | a restoration that lands puts back the transition and the UNKNOWN mark read at first, whatever others wrote since |
| ObservationEffects.ObservePreservingEffects | ues/lineage_observation.py:9-70 | reading, observing and restoring on the store object, rivals and a crash included, is the specified run |
| EffectKeys.NextKeyNamesGeneration | ues/lineage_effects.py:308-325 | two later generations share an operation key exactly when lineage, generation, predecessor, source and branch agree |
| EffectKeys.FirstKeyNamesGeneration | ues/initial_lineage_effects.py:493-510 | the same for first generations, whose keys are never those of later ones |
| ProtocolScripts.FirstRequestIsRecorded | ues/initial_lineage_effects.py:529-546 | the receipt a first creation claims with is the one a stale reconciliation reads |
| ProtocolScripts.ScriptedRunIsLegal | ues/lineage_effects.py:273-437 | every interleaving of the protocol's functions, crashes included, is a run of the control system; what each function does in it is said by the ScriptOutcomes and ScriptEnds rows |
| ProtocolScripts.ScriptsNeverRecordNotObserved | ues/generation_reconciliation.py:97-210 | in none of them does anybody record that a session creation was not observed |
| ScriptTraces.ScriptsFollowPrograms | ues/lineage_effects.py:273-437 | in every scripted run what is left of a function is what remains of it after the calls it waited for, its provider call and its looks at the store |
| ScriptTraces.RanStaysOver | ues/lineage_effects.py:273-437 | the calls a function waited for were over and stay as they ended |
| ScriptOutcomes.NextCreateIsResolved | ues/lineage_effects.py:273-437 | in every scripted run a create of a later generation that called the provider and ended had its transition persisted, its lane opened and its claim granted before; after the call it recorded UNKNOWN if the answer was not clear and CONFIRMED if it was delivered, closed the lane, and bound, counted and cleared a delivered session, UNKNOWN recorded at the first of these that failed; a resolution that went well left that state, still there unless somebody wrote since, and a closing that went well left SHADOW |
| ScriptOutcomes.FirstCreateIsResolved | ues/initial_lineage_effects.py:354-732 | the same of a first creation, which binds and counts before it closes the lane |
| ScriptOutcomes.MessageIsResolved | ues/lineage_effects.py:114-270 | and of a message |
| ScriptEnds.UncalledNextIsClosed | ues/binding_safe_generation.py:208-308 | a create that ended without calling the provider failed in its preparation, or was denied its claim and closed the lane; told that the operation is confirmed it recorded UNKNOWN |
| ScriptEnds.UncalledFirstIsClosed | ues/initial_lineage_effects.py:354-732 | the same of a first creation |
| ScriptEnds.UncalledMessageIsClosed | ues/lineage_effects.py:114-270 | and of a message |
| ScriptEnds.NextReconciliationAdopts | ues/generation_reconciliation.py:60-210 | in every scripted run a reconciliation that ended confirmed and handed off the one session it matched with the pending transition it saw, or only looked |
| ScriptEnds.FirstReconciliationAdopts | ues/initial_lineage_reconciliation.py:62-210 | the same of a first generation that is pending |
| ScriptEnds.StaleReconciliationAdopts | ues/stale_initial_lineage_reconciliation.py:104-310 | and of one known by its receipt, under the caller's authority and without a lease that holds |
| ScriptEnds.ObservationPutsBack | ues/lineage_observation.py:9-70 | an observation that went well is followed by putting back the pending transition seen before it, if there was one, and by nothing else |
| ProviderCalls.CreationCalledAtMostOnce | ues/lineage_effects.py:313-425 | the provider is asked at most once for each key of a session creation |
| ProviderCalls.CreatesClaimTheirGeneration | ues/initial_lineage_effects.py:493-546 | the creates of a generation claim its key and no other create does |
| ProviderCalls.NextGenerationCreatedAtMostOnce | ues/binding_safe_generation.py:208-308 | however the functions interleave and crash, the session of a later generation is asked for at most once |
| ProviderCalls.FirstGenerationCreatedAtMostOnce | ues/initial_lineage_effects.py:354-732 | and that of a first generation |
| ConfirmedAccounting.RetainedExactly | ues/task_budget_accounting.py:52-64 | a key counts as already accounted exactly while it is among the newest 512 |
| ConfirmedAccounting.AccountingReflectsRun | ues/task_budget_accounting.py:33-109 | the stored counter and lists are those of the pairs counted in the run |
| ConfirmedAccounting.ListsAreWindows | ues/task_budget_accounting.py:75-79 | both lists hold min(count, 512) keys without duplicates |
| ConfirmedAccounting.CountIsDistinctPairs | ues/task_budget_accounting.py:33-109 | the count is the number of distinct pairs exactly when no pair was replayed after 512 newer ones |
| ConfirmedAccounting.FinishedSharesKey | ues/task_budget_accounting.py:33-109 | every call answered as accounted or already accounted has its operation or its transition among the pairs counted |
| ConfirmedAccounting.AnsweredCallsAreCountedOnce | ues/task_budget_accounting.py:33-109 | when no two answered calls share exactly one key, the pairs counted are those of the answered calls, and the count is their number exactly when none was replayed after 512 newer ones |
| ConfirmedAccounting.CountedExactlyWhenNotRetained | ues/task_budget_accounting.py:52-64 | a call is counted exactly when neither of its keys is among the newest 512 pairs counted |
| LaneCallExecution.SwapAmongOthers | ues/state_store.py:539-569 | a compare-and-swap with rivals ahead of it writes exactly when they left its version alone |
| LaneCallExecution.RetryLoop | ues/lineage_generation.py:165-276 | the read-plan-swap loop computes the specified retries, rivals included |
| LaneCallExecution.RunCall | ues/generation_pending.py:30-80 | each lane update on the store object is its plan under that loop |
| LaneCallExecution.RetryLosesNothing | ues/generation_pending.py:30-115 | a write that lands is planned on the document as the rivals left it; an update gives up only when a rival beat it in every attempt |
| LaneCallExecution.AloneEndsAsPlanned | ues/task_budget_accounting.py:33-109 | an undisturbed update does exactly what its plan on the current record says |
| LaneCallOutcome.CallEndsExactly | ues/generation_pending.py:30-115 | for every lane update left alone: exactly when it succeeds, with which error it is refused, that a record already as asked is left alone, and every field of the record it makes otherwise |
| LaneCallOutcome.AskedAgainChangesNothing | ues/lineage_generation.py:165-276 | a lane update that succeeded succeeds again and changes nothing (switching on, observing, restoring and free edits apart) |
| GenerationProtocol.MatchingSessions | ues/generation_reconciliation.py:36-57 | the loop returns the matching sessions, which are those MatchesAreTheShown describes |
| GenerationProtocol.MatchesAreTheShown | ues/generation_reconciliation.py:36-57 | the matches are, in order and as often as listed, exactly the sessions on the repository up to case and on the branch, with a name that is not blank and a title in which the bracketed marker stands at some index |
| GenerationProtocol.MatchCountIsShown | ues/generation_reconciliation.py:97-119 | no match exactly when no listed session is such a one, a single match exactly when a single one is |
| GenerationProtocol.CreatedSessionMatches | ues/binding_safe_generation.py:209-223 | the title a generation is created under always contains the marker that is searched for |
| GenerationConvergence.HandOffProgress | ues/binding_safe_generation.py:253-286 | under any faults, binding, accounting and clearing leave the lane at one of the known intermediate points |
| GenerationConvergence.ReconcileProgress | ues/generation_reconciliation.py:97-210 | a reconciliation under any faults stays among those points, and one that succeeds reaches the settled state |
| GenerationConvergence.FaultsConverge | ues/binding_safe_generation.py:208-308 | faults after a confirmed create, any number of reconciliations with any faults, then one that succeeds: generation, fingerprints, marks, operation state and count are those of the fault-free run |
| GenerationConvergence.AmbiguousCreateConverges | ues/generation_reconciliation.py:60-210 | the same when the create itself stayed ambiguous |
| RivalRecovery.InterferenceIsADrift | ues/state_store.py:539-622 | any interference that leaves the view alone and rewrites no version is one of the drifts the results among rivals speak of |
| RivalRecovery.StretchOfRunIsADrift | ues/state_store.py:539-622 | so is every stretch of a legal run that leaves the view alone |
| RivalRecovery.LaneWriteKeepsView | ues/lineage_generation.py:165-276 | so is every lane write that keeps evidence and UNKNOWN mark of the lane and, on the counter's lane, whether the generation is counted |
| RivalRecovery.RetryIsContended | ues/lineage_generation.py:165-276 | the update loop among rivals is the retry loop of the lane updates |
| RivalRecovery.ContendedEndsAsPlanned | ues/lineage_generation.py:165-276 | an update among rivals ends as planned on a document they left, or gives up and changes nothing of it |
| RivalRecovery.HandOffActsAsFaults | ues/binding_safe_generation.py:253-286 | a hand-off among rivals leaves the view of one without rivals under other faults |
| RivalRecovery.ResolveActsAsFault | ues/state_store.py:994-1087 | an UNKNOWN record or readback among rivals leaves the view of one without rivals under some fault |
| RivalConvergence.ReconcileActsAsFaults | ues/generation_reconciliation.py:60-210 | a reconciliation among rivals has the decision and leaves the view of one without rivals under other faults |
| RivalConvergence.FaultsConvergeAmongRivals | ues/binding_safe_generation.py:208-308 | faults and rivals after a confirmed create, any reconciliations among rivals, then one that succeeds: binding, marks and operation state are those of the undisturbed run without faults, and the generation is counted |
| RivalConvergence.AmbiguousConvergesAmongRivals | ues/generation_reconciliation.py:60-210 | the same when the create stayed ambiguous |
| GenerationRecovery.ReconcileSucceedsExactlyWhen | ues/generation_reconciliation.py:60-210 | a fault-free reconciliation succeeds exactly when one session matches, the operation is ambiguous, the binding is next or the same, and the counter is readable |
| GenerationRecovery.HandOffRecoversExactlyWhenPending | ues/binding_safe_generation.py:253-308 | a failed hand-off is recovered by a listing of exactly the created session if and only if its pending mark is still there |
| GenerationRecovery.MarkIsGoneExactlyWhenClearTookEffect | ues/binding_safe_generation.py:253-286 | a failed hand-off has lost the pending mark exactly when binding and accounting went through and the clearing took effect before it failed |
| GenerationRecovery.HandOffRecoversExactlyUnlessClearTookEffect | ues/binding_safe_generation.py:253-308 | a failed hand-off that recorded UNKNOWN is recovered under every fault but that one |
| GenerationRecovery.HalfSavedReadbackSticks | ues/state_store.py:1044-1087 | if a readback saves the operation and fails on the lane, every later reconciliation refuses and changes nothing |
| GenerationRecovery.PendingStateExactly | ues/generation_reconciliation.py:12-33 | which lanes a reconciliation takes on, and with which transition |
| GenerationRecovery.ReconcileAnswersByListing | ues/generation_reconciliation.py:97-210 | on a waiting lane the answer is "not yet observed" exactly when no listed session may be the one and "duplicate" exactly when two may, both changing nothing; what is adopted is the single session that may be the one |
| GenerationRecovery.NothingAdoptedWithoutMarker | ues/generation_reconciliation.py:97-106 | a listing without the marker in any title adopts nothing and changes nothing |
| GenerationRecovery.UpdateLane | ues/generation_pending.py:83-115 | one lane update under a fault, on the store object |
| GenerationRecovery.HandOffGeneration | ues/binding_safe_generation.py:253-286 | bind, account, clear on the store object, stopping at the first failure |
| GenerationRecovery.FinishCreatedGeneration | ues/binding_safe_generation.py:253-308 | the hand-off with UNKNOWN recorded on failure |
| GenerationRecovery.ReconcileUnknownGeneration | ues/generation_reconciliation.py:60-210 | the reconciliation on the store object is the specified one |
| InitialRecovery.InitialHandOffProgress | ues/initial_lineage_effects.py:665-700 | the binding takes effect unless it was skipped, and the hand-off succeeds exactly without faults |
| InitialRecovery.BoundIsInert | ues/stale_initial_lineage_reconciliation.py:67-101 | a bound first generation is refused by both reconciliations, whatever they list |
| InitialRecovery.RecordedIsPending | ues/stale_initial_lineage_reconciliation.py:121-178 | a receipt that passes every check of a stale reconciliation records the pending transition, but for the candidate |
| InitialRecovery.ReceiptIsReadExactlyWhen | ues/stale_initial_lineage_reconciliation.py:130-178 | which receipts a stale reconciliation goes by, and the transition it reads from one |
| InitialRecovery.StaleOperationExactly | ues/stale_initial_lineage_reconciliation.py:67-101 | which operation of a lane is stale |
| InitialRecovery.PendingInitialStateExactly | ues/initial_lineage_reconciliation.py:15-36 | which lanes a reconciliation of a first creation takes on, and with which transition |
| InitialRecovery.AdoptAnswersByListing | ues/stale_initial_lineage_reconciliation.py:193-290 | no session that may be the one and two of them change nothing and are told apart; what is adopted is the single one |
| InitialRecovery.AmbiguousInitialConverges | ues/initial_lineage_effects.py:547-608 | an ambiguous first create, any reconciliations of either kind, then one that succeeds: the outcome is that of a confirmed create without faults |
| InitialRecovery.InitialFaultsConverge | ues/initial_lineage_reconciliation.py:62-210 | any faults, any reconciliations of either kind, then one that succeeds: the outcome is that of the fault-free run |
| InitialRecovery.BoundFailureIsNeverRecovered | ues/initial_lineage_effects.py:665-706 | if the binding took effect and the accounting did not succeed, no sequence of reconciliations changes the state |
| InitialRecovery.InitialRecoversExactlyWhenUnbound | ues/initial_lineage_reconciliation.py:15-36 | a failed first creation is recovered by a listing of exactly the created session if and only if the lane still has generation 0 |
| InitialRecovery.AdoptSession | ues/stale_initial_lineage_reconciliation.py:193-290 | matching, readback, binding and accounting on the store object are the specified run |
| InitialRecovery.ReconcileUnknownInitial | ues/initial_lineage_reconciliation.py:62-210 | the reconciliation of a first creation on the store object is the specified one |
| ObservedRecovery.LookChangesLaneOnly | ues/lineage_observation.py:9-70 | an undisturbed observation rebuilds the evidence, may put a pending transition back and touches nothing else |
| ObservedRecovery.ObservedFaultsConverge | ues/stale_initial_lineage_reconciliation.py:104-310 | any faults after a confirmed first create, any reconciliations and observations that prove no session, in any order, then one that succeeds: the binding outcome is that of the fault-free run |
| ObservedRecovery.ObservedAmbiguousConverges | ues/stale_initial_lineage_reconciliation.py:104-310 | the same when the first create stayed ambiguous |
| ObservedRecovery.ObservedMarkIsGone | ues/initial_lineage_reconciliation.py:15-36 | after one such observation no reconciliation from the pending mark changes anything again |
| ObservedRecovery.ReceiptRecoversExactlyWhen | ues/stale_initial_lineage_reconciliation.py:67-310 | an unmarked lane is recovered from the receipt exactly when its checks pass, its lease is over, the caller is authorised and one session matches |
| QuotaWindow.FirstTimestamp | ues/task_budget.py:58-62 | the first field that parses |
| QuotaWindow.ObserveRollingQuotaWindow | ues/task_budget.py:33-84 | current, historical and unknown partition the inventory, and current counts the timestamps in the half-open window |
| QuotaWindow.GateAllowsExactlyWhen | ues/policy_resolution.py:197-236 | the gate opens exactly on complete grants, nothing unresolved, no refusal, a sound policy, and fewer tasks in the window than ceiling less hard reserve |
| QuotaWindow.BudgetExactly | ues/task_budget.py:87-255 | the budget is an error, allows a task, has its ceiling reached, is unresolved or inconsistent, and has so much left exactly under conditions on its inputs |
| QuotaWindow.ObservationCounts | ues/task_budget.py:33-84 | current counts the tasks stamped after the cutoff and not after now, unknown those without a readable timestamp |
| QuotaWindow.TasksOutsideWindowDoNotCount | ues/task_budget.py:50-69 | listing further tasks outside the window, old or in the future, never changes the decision |
| QuotaWindow.CreateFitsLimit | ues/task_budget.py:147-255 | a create that passed leaves room for itself among the earlier creates of its window |
| QuotaWindow.WindowNeverExceedsLimit | ues/policy_resolution.py:197-227 | over every gated run no half-open window holds more creates than ceiling less hard reserve |
| QuotaWindow.ClosedWindowNeverExceedsTwice | ues/task_budget.py:50-69 | over every gated run a closed window holds at most twice that, and no more than that unless creates lie at both of its ends |
| QuotaWindow.ClosedWindowsCanHoldTwice | ues/task_budget.py:50-69 | for every positive limit a gated run in which a closed window holds twice the limit |
| Lifecycle.ActionXorGate | ues/lifecycle.py:198-253 | every resolution has an action or a stop gate and never both; a stop moves nothing |
| Lifecycle.ActionsExactlyWhen | ues/lifecycle.py:256-521 | each action is asked for in exactly the listed situations |
| Lifecycle.ActionsLeadOn | ues/lifecycle.py:256-521 | the state each action leads to |
| Lifecycle.ActionsNameEvidence | ues/lifecycle.py:256-521 | the evidence each action is asked for on |
| Lifecycle.GatesExactlyWhen | ues/lifecycle.py:256-521 | each gate stops a lane in exactly the listed situations |
| Lifecycle.CapabilitiesExactly | ues/lifecycle.py:125-191 | which actions read only, which one is a control signal, and that all others are external effects |
| Lifecycle.ReviewIsBehindCi | ues/lifecycle.py:305-325 | a run standing at a review has a passing CI classification of the current SHA behind it |
| Lifecycle.ParentReviewIsEarned | ues/lifecycle.py:256-521 | a run that reaches PARENT_REVIEW_PENDING has, since its last NEW_SHA, a passing classification and then a passing review result |
| Lifecycle.ParentReviewIsTerminal | ues/lifecycle.py:363-392 | parent review is requested by a passing review result and nothing else, and the lane stays there |
| Reconciliation.OnlyActor | ues/reconciliation.py:319-340 | the actor observations of a role collapse to the last one exactly when all agree on every field |
| Reconciliation.ResolveActor | ues/reconciliation.py:272-375 | the loops resolve an actor as specified |
| Reconciliation.IssuesForProfile | ues/reconciliation.py:157-175 | the loop over the requirements reports unnamed, repeated, unproven and stale ones |
| SoundBindings.StructureExactly | ues/reconciliation.py:378-475 | a binding has no structural issue exactly when it is sound, field by field |
| SoundBindings.DriftExactly | ues/reconciliation.py:793-829 | a binding has no drift issue exactly when it has not drifted from the previous one, field by field |
| SoundBindings.ActorIsProvenExactlyWhen | ues/reconciliation.py:272-375 | an actor is proven exactly when it is observed in its role, all observations agree and it carries its proofs |
| SoundBindings.BareSessionProvesNobody | ues/reconciliation.py:272-375 | a session id without an observed actor or a source proves nobody |
| ReconciliationOffers.OffersExactlyWhen | ues/reconciliation.py:847-920 | an action is offered exactly for a sound, undrifted binding that, settled, wants it (verification while an action is in flight, else what its lifecycle asks for) and is clear for it (evidence, actor, requirements), with the capability it has |
| ReconciliationOffers.InFlightIsVerifiedFirst | ues/reconciliation.py:872-877 | while an action is in flight the offer is to verify it or nothing, read only; verification is offered exactly for sound, undrifted lanes in flight whose requirements are met; every other offer means that nothing is in flight |
| ReconciliationOffers.GateExactlyWhen | ues/reconciliation.py:832-920 | which gate stops a lane that is offered nothing |
| ReconciliationSafety.ActionsRestOnCurrentEvidence | ues/reconciliation.py:478-668 | reviews are dispatched only on unstale CI of the head; parent review and findings only on an unstale review of it; effects go to proven actors; every requirement is met; OffersExactlyWhen gives the exact condition of each offer |
| ReconciliationSafety.MovedCandidateStopsEffects | ues/reconciliation.py:691-729 | a reported candidate movement never comes with an external effect |
| ReconciliationSafety.MovementIsReportedExactlyWhen | ues/reconciliation.py:691-702 | movement is reported exactly for sound, undrifted lanes with another head than before |
| ReconciliationSafety.StalenessIsExact | ues/reconciliation.py:683-773 | evidence about another SHA is stale and flagged, evidence about the head is untouched |
| ReconciliationSafety.ReconcileIsIdempotent | ues/reconciliation.py:832-920 | reconciling a result again, alone or against itself, yields the identical result |
| ReconciliationSafety.SettledAgain | ues/reconciliation.py:847-920 | with a previous binding and sound outcome the second result differs in the movement flag only |
| ReconciliationSafety.ReconcileAgainAfterPrevious | ues/reconciliation.py:703-729 | that is so exactly when the evidence inherited from the previous binding is well formed; otherwise the second reconciliation is blocked |
| ReconciliationSafety.MalformedEvidenceIsInherited | ues/reconciliation.py:703-729 | only a lane with a head and without CI or without review inherits malformed evidence |
| ReconciliationSafety.MalformedPreviousBlocksAgain | ues/reconciliation.py:703-729 | for every such sound lane a previous binding without drift after which the second reconciliation is blocked |
| ReconciliationSafety.LaneWithoutEvidence | ues/reconciliation.py:378-475 | there are such lanes |
| Portfolio.CandidatesAreDisjoint | ues/reconciliation.py:935-990 | two results that may act have distinct lane keys and share no provider session |
| Portfolio.CandidateUsesSessionsInOneRole | ues/reconciliation.py:945-956 | a lane that may act binds each session in one role |
| Portfolio.PermutationPermutesResults | ues/reconciliation.py:935-990 | permuting the lanes permutes the results |
| Portfolio.BystanderMakesNoDifference | ues/reconciliation.py:935-990 | a lane that shares neither key nor session with another makes no difference to it |
| Portfolio.CountLanes | ues/reconciliation.py:942-943 | the counting loop counts every lane key |
| Portfolio.CollectOwners | ues/reconciliation.py:923-950 | the session map holds exactly the lanes and roles that bind a session |
| Portfolio.Reconcile | ues/reconciliation.py:935-990 | the loop over the portfolio judges every lane as specified |
| PortfolioOutcome.LaneIsJudgedExactly | ues/reconciliation.py:935-990 | a lane is ambiguous exactly if another listed lane has its name, then exactly if it binds a session that named lanes bind under two names or in two roles, and its result names exactly those sessions; every other lane is reconciled as if it stood alone |
| PortfolioOutcome.PreviousHasItsName | ues/reconciliation.py:935-990 | and against the previous binding of its name |
| BranchRecovery.LatestRecords | ues/idempotency.py:13-23 | the loop returns the newest receipt of every operation in order of first appearance |
| BranchRecovery.LatestAreTheNewest | ues/idempotency.py:13-23 | the newest receipts are those that no later one of the same operation follows |
| BranchRecovery.LatestInOrderOfNaming | ues/idempotency.py:13-23 | in the order in which their operations were first named |
| BranchRecovery.ConflictsExactly | ues/idempotency.py:397-419 | the conflicts of an operation are exactly the other operations whose newest receipt on the branch is still open |
| BranchRecovery.EvaluateBranchSerialization | ues/idempotency.py:397-419 | the loop returns the active operations of the branch other than the asking one |
| BranchRecovery.RecoverUnobservedOperations | ues/write_recovery.py:22-42 | the loop emits cancellations for exactly the active receipts that started at the live head |
| BranchRecovery.RecoveriesExactly | ues/write_recovery.py:22-42 | what a recovery emits is exactly the cancellations of the open newest receipts of the branch that started at the live head |
| BranchRecovery.RecoveryFreesExactly | ues/write_recovery.py:22-42 | with the emitted receipts appended, the conflicts left are, in order, exactly the earlier ones on another branch or with another start SHA |
| BranchRecovery.SecondRecoveryEmitsNothing | ues/write_recovery.py:22-42 | a second recovery at the same head emits nothing |
| BranchRecovery.BranchIsFreedExactlyWhen | ues/idempotency.py:397-419 | the branch is free after recovery exactly when every conflicting operation had started at the live head |
| LineageMatching.ExactCandidates | ues/lineage_registry.py:90-98 | the loop keeps exactly the sessions of the repository with a governed fingerprint |
| LineageMatching.MatchIsUniqueMaximum | ues/lineage_registry.py:52-159 | a match is proven exactly for the unique maximum of the sort key among the exact candidates and ambiguous exactly when there is none |
| LineageMatching.MatchExactlyWhen | ues/lineage_registry.py:58-159 | a session is proven exactly when it is the one that may be governed with all others behind it (active before inactive, later before earlier); the other answers likewise |
| LineageMatching.BranchIsJudgedExactly | ues/lineage_registry.py:134-159 | when the branch of a session agrees, is missing or has drifted |
| LineageMatching.ListingOrderIsIrrelevant | ues/lineage_registry.py:109-132 | the order of the inventory is irrelevant |
| PassiveObservation.UpsertObservation | ues/lineage_registry.py:216-303 | the step-by-step update of the record is the specified one |
| PassiveObservation.ObservationRebindsExactly | ues/lineage_registry.py:162-303 | what an observation makes of generation, fingerprint, predecessor and reason, by cases of the record and of what was found; nothing but evidence and mode changes |
| LineageObservation.FlickerKeepsBindingExactlyWhen | ues/lineage_registry.py:162-256 | a numbered lane keeps generation and fingerprint through every flicker of its session exactly unless it is a legacy adoption whose session is missing at first |
| LineageObservation.FlickerNumbersUnnumberedLane | ues/lineage_registry.py:253-256 | a bound lane without a generation gets generation 1 from its first proven observation and nothing else changes |
| LineageObservation.ListingsKeepBinding | ues/lineage_registry.py:52-256 | over any listings without another governed session a numbered lane keeps its binding |
| Text.StripDropsBlankEnds | ues/identity.py:16-20 | stripping takes white space off both ends and nothing else |
| Percent.UnquoteInvertsQuote | ues/identity.py:16-25 | every text comes back from its percent-encoding |
| Percent.QuoteIsSafe | ues/identity.py:16-25 | an encoding holds only unreserved characters and percent signs |
| Percent.QuoteLeavesExactlyUnreserved | ues/identity.py:16-25 | a text is its own encoding exactly when all its characters are unreserved |
| Percent.QuoteEscapesInHex | ues/identity.py:16-25 | every percent sign of an encoding starts an escape in two upper-case hexadecimal digits |
| Identity.ParseInvertsPrint | ues/identity.py:16-47 | parsing undoes printing on trimmed, non-empty components |
| Identity.ParseAcceptsExactlyCanonical | ues/identity.py:34-47 | exactly the printed forms are accepted |
| Identity.LaneIdsAreInjective | ues/identity.py:16-25 | two lane tuples share an id exactly when their stripped components agree |
| Identity.LineageLaneIdsAreInjective | ues/lineage_registry.py:47-49 | lineage lane ids tell projects, routes, workstreams and roles apart |
| Identity.CounterLaneIsNoLineage | ues/task_budget_accounting.py:8-31 | the lane that counts confirmed generations is never the lane of a lineage |
| ReceiptCodec.DecodeInvertsEncode | ues/operation_records.py:48-59 | decoding undoes encoding on every payload, and tokens consist of marker characters |
| ReceiptCodec.DecodableExactlyWhen | ues/operation_records.py:53-59 | a token decodes exactly when its length is not one more than a multiple of four |
| ReceiptCodec.EncodeInvertsDecodeExactlyWhen | ues/operation_records.py:48-59 | encoding undoes decoding exactly on tokens without stray bits |
| ReceiptCodec.TokenSpellsPayload | ues/operation_records.py:48-52 | a token read in base 64 is its payload read in base 256, shifted by the bits that fill up the last character, and as long as that takes |

## Left out

- Provider and GitHub calls, files, environment and command lines: a provider write is one action that a CLAIMED runner may take once; listings and timestamps are inputs.
- Digests: operation keys, fingerprints, lease ids and transition keys are represented by the values they digest.
- Timestamps are integers; `updated_at` and observation stamps are not kept. Case mapping is the ASCII one.
- Damage to the stored file: entries that do not parse are read as corrupt and refused, but no run produces one.
- Redaction of receipts and provenance fields that no decision reads.
- The blank-text checks of identifiers in the store and the record constructors.
- Lane writers outside the modelled ones: assumed to keep lease, issued grants and generation evidence of the record they read. The accounting results are about counter lanes nobody observes as a lineage, which `Identity.CounterLaneIsNoLineage` shows of the lanes the runtime counts on.
- The recovery of a first generation among rivals: `InitialRecovery` and `ObservedRecovery` let nobody write between its store calls.
- Runners outside the scripts may take part in a scripted run as they like, except that they do not record a session creation as not observed.
- A store that fails in the middle of a claim: the steps of a claim are refused or succeed, and a crash covers the rest.
- ConfirmedAccounting.AnsweredCallsAreCountedOnce: when two calls share exactly one key, the second is answered as already accounted and not counted, so the count is that of the pairs counted.
- Task specifications, Parent requests, lane authority and the assessments of a transition before it is persisted: flat lists of independent checks.
- The precedence between sources of a capacity policy and the legacy names of the budget inputs.
- Lifecycle runs that enter the waiting, failed or paused states, which resume in a state the caller chooses.
- Order and wording of reconciliation issues: they are a set of structured values; reason texts are left out.
- JSON and the comment around a receipt token; decoding starts from the characters a marker can hold.
- Decoding of bytes that are no UTF-8 replaces one byte at a time; the number of replacement characters makes no difference to what a lane id parser accepts.
- The answering of waiting sessions, telemetry, health lanes, terminal backfill, adapters and format fixes.
- Liveness: a runner that crashes after IN_FLIGHT leaves its lane waiting.
