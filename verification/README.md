# Verified models of the AYO protocols and engines

This project models the parts of AYO whose correctness depends on more than one function, and proves what
they promise over every input, every run or every reachable state.

| Part | Modules |
|---|---|
| Merchant "acknowledge arrival": an at-most-once command over an unreliable network | `MerchantCommand`, `MerchantScope`, `MerchantController`, `MerchantInvariant`, `MerchantTheorems`, `MerchantOutcomes`, `MerchantRecords`, `MerchantProof`, `MerchantControllerObject` |
| Courier "mark arrived": a failure latch that only an explicit recovery releases | `CourierCommand`, `CourierController`, `CourierTheorems`, `CourierOutcomes`, `CourierControllerObject` |
| Reconciliation reads against the pickup state machine | `PickupEngine`, `ReconciliationReads` |
| AP decision registry: an append-only log and its validator | `Registry`, `RegistryValidator`, `RegistryTheorems`, `RegistryNumbers` |
| Order fulfilment: dispatch, pickup and chain of custody | `Fulfilment`, `FulfilmentTheorems`, `DispatchTheorems`, `HandoverTheorems`, `FulfilmentObject` |
| Session credentials and booking intents: generation-tagged asynchronous state | `SessionManager`, `SignOutTheorems`, `SessionMeaning`, `BookingIntent`, `BookingTheorems` |
| Waiting at the pickup, waiting-policy resolution, driver ranking, structured diff | `WaitingSession`, `WaitingTheorems`, `WaitingOutcomes`, `WaitingPolicy`, `DriverRanking`, `StructuredDiff`, `StructuredDiffTheorems` |
| Shared vocabulary | `Options`, `Identifiers`, `Ordering` |

## How the models are built

- **Asynchronous code** (the two command controllers, the session manager, the booking controller): one code
  segment between two `await`s is one atomic step. A state holds the object's fields and every asynchronous
  execution that is still somewhere inside. A run is any sequence of steps: user calls, changes of identity and
  context, evidence, retirement, network replies and store writes interleave freely.
- **Objects and in-place updates** are classes whose methods are proved to do exactly one step of the state
  machine, and to keep its invariant. The theorems are about the state machine.
- **Loops** (the registry validator, ranking, policy resolution, waiting, the worker, the diff) are methods with
  invariants, proved equal to a specification whose meaning is then proved separately.
- **Fulfilment** commands are one unit of work each: a conflict rolls everything back. What the repositories do
  is taken from their source: a transition stores its target and adds one to the version, and order, assignment
  and custody columns are unique. Permissions, unused idempotency keys, evidence checks and generated
  identifiers are inputs.

## Findings

- **Courier recovery.** "A recovery with no flight pending always releases the latch" holds for the presentation
  boundary (`markArrived`, `reconcileCurrentOperation`, `recordExplicitRecovery`). The handle-based
  `createAttempt` is public too, and through it the property is false: `LatchCanStickOutsideTheBoundary` gives
  the run, and `RecoveryReleasesExactly` the exact condition in any state.
- **Waiting.** Invalidation is not absorbing (`CleanObservationRevives`), and a pause that ends in invalidation
  is never credited (`InvalidatedPauseIsNotCredited`).
- **Evidence during a pause.** Evidence can be ready while a pause still runs (`ReadyWhilePaused`);
  `FreeWaitOutsidePausesIsExact` says exactly when the rider had the whole free wait outside every pause.
- **Sign-out.** "After a sign-out the vault stays empty until a session is established" is false: the refresh
  takes the generation of its call, not of the vault read before it. `SignedOutSessionReturns` gives the run and
  `SignOutLastsExactly` the exact condition.
- **Custody.** A custody whose assignment is released or cancelled before acceptance is stranded for good
  (`StrandedCustodyIsNeverAccepted`).
- **Registry.** The separate check for headings of bare reservations can never fire
  (`ReservationCheckIsRedundant`).
- **Actionability.** `isAcknowledgeArrivalActionable` agrees with what pressing does, except that a new attempt
  also needs well-formed identifiers and a well-formed generated key; the theorem states this exactly.

## Model

| member | source | states |
|---|---|---|
| `MerchantTheorems.NewKeyOnlyAfterRefusal` | AYO-Mobile/services/merchant-acknowledge-arrival-controller.ts:105-208 | in every reachable state, of two posts for one identity, merchant, order and pickup under different keys, the later one at no higher version, the earlier one got a definite non-success answer below 500 |
| `MerchantTheorems.UnresolvedPostBlocksNewKeys` | AYO-Mobile/services/merchant-acknowledge-arrival-controller.ts:256-298 | a post without a definite refusal whose flight settled blocks every later operation of that custody below a strictly higher version, over any continuation |
| `MerchantTheorems.UnreleasedOutcomeBlocksNewKeys` | AYO-Mobile/services/merchant-acknowledge-arrival-controller.ts:169-208 | from the moment a dispatched submit ended with anything but a definite refusal (applied, unknown, malformed, or invalidated after the dispatch), every operation of that custody created later in any run has a strictly higher version |
| `MerchantTheorems.FailedRefreshBlocksNewKeys` | AYO-Mobile/services/merchant-acknowledge-arrival-controller.ts:193-196 | a post answered 401 whose refresh fails, returns no session or another one, or finds the scope moved, blocks new keys although the post was refused |
| `MerchantTheorems.PostsFollowTheirOperations` | AYO-Mobile/services/merchant-acknowledge-arrival-controller.ts:105-163 | along the wire the operation never goes back: after a newer operation posted, no older one is sent again |
| `MerchantTheorems.ConsumedBlocksLowerVersions` | AYO-Mobile/services/merchant-acknowledge-arrival-controller.ts:282-298 | once a version is recorded, every operation created later in any run for that custody has a strictly higher version |
| `MerchantTheorems.EveryPostLeftLive` | AYO-Mobile/services/merchant-acknowledge-arrival-command.ts:35-81 | every post, the resend after a 401 included, left when identity, session, generations, merchant, order, pickup and version all equalled the attempt's, with the attempt's own bearer, and never over an unknown outcome |
| `MerchantTheorems.AtMostOnePending` | AYO-Mobile/services/merchant-acknowledge-arrival-controller.ts:105-163 | in every reachable state at most one flight is live and at most one post is unanswered |
| `MerchantTheorems.NothingLeavesAfterRetire` | AYO-Mobile/services/merchant-acknowledge-arrival-command-scope.ts:72-76 | after retirement no run sends another post |
| `MerchantTheorems.ActionableMeansAcknowledgeStarts` | AYO-Mobile/services/merchant-acknowledge-arrival-controller.ts:89-124 | pressing starts a flight if and only if the command is actionable and, for a new attempt, the identifiers and generated key are well formed; the returned result agrees |
| `MerchantTheorems.AvailableMeansReconcileStarts` | AYO-Mobile/services/merchant-acknowledge-arrival-controller.ts:99-137 | reconciling starts a flight if and only if reconciliation is offered |
| `MerchantTheorems.ConsumingOutcomeIsRecorded` | AYO-Mobile/services/merchant-acknowledge-arrival-controller.ts:169-254 | an operation settled as unknown, retry-same-attempt or applied has its version recorded as consumed |
| `MerchantTheorems.AttemptsNeverChange` | AYO-Mobile/services/merchant-acknowledge-arrival-controller.ts:139-163 | no run changes the attempt, and so the key, of an operation |
| `MerchantOutcomes.ReconciliationIsExact` | AYO-Mobile/services/merchant-acknowledge-arrival-controller.ts:210-231 | in every reachable state, a pickup read taken and settled while the operation is current, with anything happening in between, ends applied if and only if the same pickup waits above the attempt's version with proving timestamps, unknown iff it waits so without proof, retry iff it has still arrived at the version, offers the action and no foreign evidence stands, and otherwise invalid with scope changed, authority lost or state changed, each exactly |
| `MerchantOutcomes.FailedReconciliationIsExact` | AYO-Mobile/services/merchant-acknowledge-arrival-controller.ts:232-254 | what a read ends as when it failed, broke its contract, or the operation ceased to be current before the read or before the settlement |
| `MerchantOutcomes.SubmitIsExact` | AYO-Mobile/services/merchant-acknowledge-arrival-controller.ts:169-270 | a success answer ends applied if and only if its body proves the acknowledgement, everything was live when the body was read and the operation current when it settled; unknown iff the body is unreadable or does not prove it while live; scope changed otherwise; a server failure is unknown, a 409 is rejected with its code, and any other refusal loses authority or asks for a refresh |
| `MerchantOutcomes.UnansweredIsUnknown` | AYO-Mobile/services/merchant-acknowledge-arrival-command.ts:121-143 | a post without an answer, and a failing session store, end as unknown |
| `MerchantOutcomes.SendIsExact` | AYO-Mobile/services/merchant-acknowledge-arrival-command.ts:35-51 | a session reply sends one post, of this attempt, if and only if it is the attempt's own session, not aborted, and identity, context and evidence all equal the attempt |
| `MerchantOutcomes.UnsentIsInvalid` | AYO-Mobile/services/merchant-acknowledge-arrival-command.ts:35-51 | any other session ends the submit as invalid, for a changed scope |
| `MerchantRecords.SubmitRecordsExactly` | AYO-Mobile/services/merchant-acknowledge-arrival-controller.ts:169-208 | a submit records its version if and only if it ended applied or unknown, or lost its scope after the dispatch; a refusal records nothing and withdraws the attempt's evidence |
| `MerchantRecords.ReconciliationLeaves` | AYO-Mobile/services/merchant-acknowledge-arrival-controller.ts:210-254 | a reconciliation records nothing new; a retry makes the attempt live again, applied and lost authority or state withdraw its evidence, unknown leaves the scope alone |
| `MerchantRecords.RecordedWasIssued` | AYO-Mobile/services/merchant-acknowledge-arrival-controller.ts:282-298 | in every run a recorded version is that of one of the custody's own operations: nothing above it is blocked |
| `MerchantProof.AppliedWasProved` | AYO-Mobile/services/merchant-acknowledge-arrival-controller.ts:169-254 | in every run an operation that counts as applied was handed, in one of its own flights, a success body or pickup read that proves its acknowledgement |
| `MerchantProof.AppliedWasAcknowledged` | AYO-Mobile/services/merchant-acknowledge-arrival-controller.ts:169-254 | if every answer shows the pickup as the backend's state machine left it, the last transition before the proving answer was an acknowledgement at or above the attempt's version |
| `MerchantInvariant.StepKeepsInv` | AYO-Mobile/services/merchant-acknowledge-arrival-controller.ts:62-298 | every step of user, environment, service, network and controller keeps the custody invariant |
| `MerchantInvariant.AcknowledgeShape` | AYO-Mobile/services/merchant-acknowledge-arrival-controller.ts:105-124 | pressing does nothing, retries the same attempt, or creates an attempt above the recorded version |
| `MerchantInvariant.RunKeepsInv` | AYO-Mobile/services/merchant-acknowledge-arrival-controller.ts:62-298 | every run keeps it |
| `MerchantInvariant.SubmitSettles` | AYO-Mobile/services/merchant-acknowledge-arrival-controller.ts:169-208 | a submit settles without recording its version only if nothing was dispatched or the failure was a definite refusal |
| `MerchantInvariant.ReconcileSettles` | AYO-Mobile/services/merchant-acknowledge-arrival-controller.ts:210-254 | a reconciliation settles its operation, touches no issued attempt or post, and lowers no recorded version |
| `MerchantScope.GuardMeansLive` | AYO-Mobile/services/merchant-acknowledge-arrival-command-scope.ts:154-180 | an attempt matches the current scope if and only if it is valid and equals the live readers and the evidence in every field, in an unretired lifetime |
| `MerchantScope.RetryEvidenceAccepted` | AYO-Mobile/services/merchant-acknowledge-arrival-command-scope.ts:110-119 | retry evidence of a valid attempt is published if and only if the operation is current, the pickup is unchanged and offered, and no foreign evidence stands; the attempt is then live again |
| `MerchantScope.CurrentMeansRestorable` | AYO-Mobile/services/merchant-acknowledge-arrival-command-scope.ts:140-152 | an operation is current if and only if some evidence would make its attempt live again |
| `MerchantScope.CreatedResolves` | AYO-Mobile/services/merchant-acknowledge-arrival-command-scope.ts:121-138 | a freshly created handle resolves for submit |
| `MerchantCommand.CreatedAttemptMatches` | AYO-Mobile/domain/merchant-acknowledge-arrival-command.ts:108-138 | creation succeeds exactly for a valid scope and key, and the attempt matches the scope it was created from |
| `MerchantScope.CommandScope.PublishFresh` | AYO-Mobile/services/merchant-acknowledge-arrival-command-scope.ts:78-98 | in place: the new scope is the published one and nothing else changes |
| `MerchantScope.CommandScope.PublishRetryEvidence` | AYO-Mobile/services/merchant-acknowledge-arrival-command-scope.ts:110-119 | in place: publishes retry evidence and answers whether it did |
| `MerchantScope.CommandScope.CreateForCurrentPickup` | AYO-Mobile/services/merchant-acknowledge-arrival-command-scope.ts:121-128 | in place: issues a handle exactly when the current scope admits an attempt |
| `MerchantScope.CommandScope.Retire` | AYO-Mobile/services/merchant-acknowledge-arrival-command-scope.ts:72-76 | in place: retirement clears evidence and ends the lifetime |
| `MerchantControllerObject.AcknowledgeArrivalController.AcknowledgeArrival` | AYO-Mobile/services/merchant-acknowledge-arrival-controller.ts:105-124 | in place: exactly the press step of the state machine, and the result the caller gets |
| `MerchantControllerObject.AcknowledgeArrivalController.ReconcileAcknowledgeArrival` | AYO-Mobile/services/merchant-acknowledge-arrival-controller.ts:126-137 | in place: exactly the reconcile step, and its result |
| `MerchantControllerObject.AcknowledgeArrivalController.SessionReplies` | AYO-Mobile/services/merchant-acknowledge-arrival-command.ts:35-51 | in place: session check, dispatch guard and send, as one segment |
| `MerchantControllerObject.AcknowledgeArrivalController.ResponseArrives` | AYO-Mobile/services/merchant-acknowledge-arrival-command.ts:45-77 | in place: an answer resends once after a 401, or is classified |
| `MerchantControllerObject.AcknowledgeArrivalController.FinishSubmit` | AYO-Mobile/services/merchant-acknowledge-arrival-controller.ts:169-208 | in place: the settlement of a submit |
| `MerchantControllerObject.AcknowledgeArrivalController.FinishReconcile` | AYO-Mobile/services/merchant-acknowledge-arrival-controller.ts:210-254 | in place: the settlement of a reconciliation |
| `MerchantControllerObject.AcknowledgeArrivalController.IsAcknowledgeArrivalActionable` | AYO-Mobile/services/merchant-acknowledge-arrival-controller.ts:89-97 | answers the actionability of the state |
| `CourierTheorems.LatchHoldsOverAllCalls` | AYO-Mobile/services/courier-mark-arrived-controller.ts:24-126 | over all calls, the handle-based ones included, a latch with no newer recovery holds through every trace without a recorded recovery, and every press changes nothing |
| `CourierTheorems.LatchHoldsUntilRecovery` | AYO-Mobile/services/courier-mark-arrived-controller.ts:58-103 | over the presentation boundary, moreover, no flight starts until a recovery is recorded |
| `CourierTheorems.FailureLatchesUnlessRecovered` | AYO-Mobile/services/courier-mark-arrived-controller.ts:131-144 | an unexpected failure latches exactly when no recovery was recorded since the submit started |
| `CourierTheorems.RecoveryDuringFlightIsKept` | AYO-Mobile/services/courier-mark-arrived-controller.ts:118-126 | a recovery recorded during the flight is consumed when it clears |
| `CourierTheorems.RecoveryReleasesLatch` | AYO-Mobile/services/courier-mark-arrived-controller.ts:80-85 | with no flight pending a recorded recovery always releases the latch |
| `CourierTheorems.RecoveredSubmitReusesKey` | AYO-Mobile/services/courier-mark-arrived-controller.ts:58-103 | with the same condition live the next press submits the same operation, attempt and key |
| `CourierTheorems.RecoveredWithoutConditionInvalidates` | AYO-Mobile/services/courier-mark-arrived-controller.ts:172-179 | without the condition the recovery invalidates the operation and releases the latch |
| `CourierTheorems.RecoveryReleasesExactly` | AYO-Mobile/services/courier-mark-arrived-controller.ts:80-85 | in any state at all, a recovery releases a latch if and only if the guards of the consuming branch hold |
| `CourierTheorems.FailedStateIsReached` | AYO-Mobile/services/courier-mark-arrived-controller.ts:131-144 | a concrete run reaches a latched failure |
| `CourierTheorems.LatchCanStickOutsideTheBoundary` | AYO-Mobile/services/courier-mark-arrived-controller.ts:24-34 | from there, an attempt created by handle leaves a latch that the next recovery does not release |
| `CourierTheorems.StepKeepsInv` | AYO-Mobile/services/courier-mark-arrived-controller.ts:15-180 | every step of the presentation boundary keeps the latch invariant |
| `CourierOutcomes.SubmitIsExact` | AYO-Mobile/services/courier-mark-arrived-controller.ts:131-144 | what each answer of a running submit settles, and that every one but an unexpected failure withdraws the attempt's evidence |
| `CourierOutcomes.ReconciliationIsExact` | AYO-Mobile/services/courier-mark-arrived-controller.ts:145-156 | a read ends applied if and only if the pickup arrived above the attempt's version or waits two above it, retry iff it still travels at the version, offers the action and the condition can be published again, scope changed iff it cannot, and state changed otherwise |
| `CourierOutcomes.FailedReadIsExact` | AYO-Mobile/services/courier-mark-arrived-controller.ts:157-170 | an ambiguous or unexpected failure leaves the operation as it was; any other settles as it says |
| `CourierOutcomes.OutcomeWasAnswered` | AYO-Mobile/services/courier-mark-arrived-controller.ts:131-170 | over every run and every entry point, an operation that ended applied, unknown, retryable or rejected was handed, in one of its own running flights, the answer that says so |
| `CourierOutcomes.AppliedWasArrival` | AYO-Mobile/services/courier-mark-arrived-controller.ts:131-170 | an applied operation was confirmed by its submit, or a read showed a pickup whose first transition since the attempt was the arrival, at exactly its version |
| `CourierOutcomes.PressSubmitsExactly` | AYO-Mobile/services/courier-mark-arrived-controller.ts:24-103 | in every reachable state pressing starts a flight if and only if no failure is latched and the standing operation may be submitted over its own live evidence, or none stands and an attempt can be created |
| `CourierOutcomes.LiveIsCurrentWithEvidence` | AYO-Mobile/services/courier-mark-arrived-command-scope.ts:78-104 | an attempt matches the current scope if and only if its operation is current and its own evidence stands |
| `CourierCommand.CommandScope.PublishRetryEvidence` | AYO-Mobile/services/courier-mark-arrived-command-scope.ts:51-57 | in place: publishes retry evidence and answers whether it did |
| `CourierCommand.CommandScope.PublishFresh` | AYO-Mobile/services/courier-mark-arrived-command-scope.ts:32-44 | in place: the new scope is the published one |
| `CourierCommand.CommandScope.CreateForCurrentPickup` | AYO-Mobile/services/courier-mark-arrived-command-scope.ts:59-66 | in place: issues a handle exactly when the current scope admits an attempt |
| `CourierControllerObject.MarkArrivedController.CreateAttempt` | AYO-Mobile/services/courier-mark-arrived-controller.ts:24-34 | in place: exactly the creation step |
| `CourierControllerObject.MarkArrivedController.MarkArrived` | AYO-Mobile/services/courier-mark-arrived-controller.ts:58-67 | in place: exactly the press step |
| `CourierControllerObject.MarkArrivedController.Submit` | AYO-Mobile/services/courier-mark-arrived-controller.ts:89-103 | in place: exactly the submit step |
| `CourierControllerObject.MarkArrivedController.ReconcileCurrentOperation` | AYO-Mobile/services/courier-mark-arrived-controller.ts:70-116 | in place: exactly the reconcile step |
| `CourierControllerObject.MarkArrivedController.RecordExplicitRecovery` | AYO-Mobile/services/courier-mark-arrived-controller.ts:80-85 | in place: exactly the recovery step |
| `CourierControllerObject.MarkArrivedController.SubmitReturned` | AYO-Mobile/services/courier-mark-arrived-controller.ts:131-144 | in place: the settlement of a submit, the latch included |
| `CourierControllerObject.MarkArrivedController.ReconcileReturned` | AYO-Mobile/services/courier-mark-arrived-controller.ts:145-170 | in place: the settlement of a reconciliation |
| `CourierControllerObject.MarkArrivedController.ClearPending` | AYO-Mobile/services/courier-mark-arrived-controller.ts:118-126 | in place: the clearing callback, which may consume a recovery |
| `PickupEngine.VersionCountsApplied` | BACKEND/courier_pickup/engine.py:27-60 | over every run the version grows by the number of applied transitions |
| `PickupEngine.ActionsMoveOneLevel` | BACKEND/courier_pickup/engine.py:27-60 | an action is allowed exactly on its own level of an open attempt and moves it by one, corrections downwards; any open attempt can end |
| `PickupEngine.LevelIsNet` | BACKEND/courier_pickup/engine.py:27-60 | over every run that does not end the attempt, the level is the rises less the corrections |
| `ReconciliationReads.MarkArrivedReadIsExact` | AYO-Mobile/domain/courier-mark-arrived-command.ts:98-106 | for every pickup run from travelling at v: retry exactly when nothing happened; already applied exactly when arrived or waiting, and then the first transition was the arrival at v |
| `ReconciliationReads.AcknowledgeReadIsExact` | AYO-Mobile/domain/merchant-acknowledge-arrival-command.ts:167-196 | from arrived at v: each answer of the merchant read exactly characterised; a waiting pickup's last transition was an acknowledgement at or above v |
| `RegistryTheorems.IdentityLifecycle` | tools/validate_ap_decision_registry.py:599-657 | in an accepted registry the events of each id are a prefix of reserved, allocated, superseded with constant title and purpose, each prior id naming its predecessor |
| `RegistryTheorems.ReservedOnlyHasNoHeading` | tools/validate_ap_decision_registry.py:726-750 | a reserved-only id has no heading at all |
| `RegistryTheorems.LiveAllocationHasOneHeading` | tools/validate_ap_decision_registry.py:726-750 | a live allocated id has exactly one heading of any text, and it is the allocated title |
| `RegistryTheorems.HeadingOfEventId` | tools/validate_ap_decision_registry.py:726-736 | a heading of an id with events stands under its allocated title |
| `RegistryTheorems.ReservationCheckIsRedundant` | tools/validate_ap_decision_registry.py:737-742 | the check for headings of bare reservations never fires once the registration check passed |
| `RegistryTheorems.ReconciliationMapsRepairToLive` | tools/validate_ap_decision_registry.py:686-708 | every reconciliation maps one collision repair to one live allocated event |
| `RegistryTheorems.ReconciliationsAreInjective` | tools/validate_ap_decision_registry.py:658-725 | no two reconciliations share a repair or a successor |
| `RegistryTheorems.ResolvedCountIsExact` | tools/validate_ap_decision_registry.py:336-353 | the reported resolved count is the number of reconciliations plus the unmapped repairs already marked resolved |
| `RegistryTheorems.HistoryGrows` | tools/validate_ap_decision_registry.py:751-765 | over any chain of accepted revisions allocations never change, and events and reconciliations only grow as prefixes |
| `RegistryTheorems.AllocationFollowsReservation` | tools/validate_ap_decision_registry.py:766-781 | over any chain, an allocation first appears in a strictly later revision than the reservation it continues |
| `RegistryTheorems.ReconciliationFollowsAllocation` | tools/validate_ap_decision_registry.py:782-789 | over any chain, a reconciliation first appears in a strictly later revision than its allocation |
| `RegistryTheorems.SuccessorIsNeverSuperseded` | tools/validate_ap_decision_registry.py:699-708 | an allocation once used as a reconciliation successor is the latest event of its id, and never superseded, in every later accepted revision |
| `RegistryTheorems.FirstIsFirst` | tools/validate_ap_decision_registry.py:756-760 | the revision called first is the least that holds the event |
| `RegistryNumbers.TextReadsBack` | tools/validate_ap_decision_registry.py:553-553 | reading the decimal text of n gives n |
| `RegistryNumbers.LeadingZeros` | tools/validate_ap_decision_registry.py:553-553 | leading zeros do not change a number |
| `RegistryNumbers.EqualLengthsCompareAsText` | tools/validate_ap_decision_registry.py:553-564 | digit strings of equal length compare as numbers if and only if they compare as text |
| `RegistryNumbers.ApIdOfReads` | tools/validate_ap_decision_registry.py:553-553 | the id of n, however padded, stands for n |
| `RegistryNumbers.AllocationsAreOrdered` | tools/validate_ap_decision_registry.py:558-565 | in an accepted registry any two allocations stand in strict order of number, title and commit |
| `RegistryNumbers.IdsStandInTextOrder` | tools/validate_ap_decision_registry.py:558-565 | in an accepted registry ids of one length stand in text order |
| `RegistryNumbers.BlockedIdsAreAbsent` | tools/validate_ap_decision_registry.py:553-557 | in an accepted registry no allocation and no event carries an id of a blocked number, however padded |
| `RegistryNumbers.RangesStandApart` | tools/validate_ap_decision_registry.py:419-437 | the blocked ranges of an accepted registry are well formed and pairwise apart, in order |
| `RegistryNumbers.ActiveIdIsUnambiguous` | tools/validate_ap_decision_registry.py:578-598 | an id in active use has one title and no superseded or colliding record |
| `RegistryNumbers.RepairsAreResolvedOrNot` | tools/validate_ap_decision_registry.py:545-552 | only a collision repair is unresolved, and a repair is unresolved or resolved |
| `RegistryNumbers.EventIdFixesEvent` | tools/validate_ap_decision_registry.py:631-634 | with commitments that tell contents apart, an event id fixes the whole event in any two accepted registries |
| `RegistryNumbers.RecIdFixesReconciliation` | tools/validate_ap_decision_registry.py:711-714 | the same for reconciliations |
| `RegistryNumbers.EvidenceIsGoverned` | tools/validate_ap_decision_registry.py:599-725 | all lifecycle evidence rests on governed commits, and without an authoritative main there is none |
| `RegistryValidator.Validate` | tools/validate_ap_decision_registry.py:472-803 | the loops return the first failing phase, or else the exact report: counts of allocations, ids, colliding ids, headings, events, reconciliations and resolved repairs |
| `RegistryValidator.CheckRanges` | tools/validate_ap_decision_registry.py:419-437 | decides whether all ranges are well formed, ordered and disjoint |
| `RegistryValidator.CheckAllocation` | tools/validate_ap_decision_registry.py:522-566 | decides one allocation against those before it |
| `RegistryValidator.CheckAllocations` | tools/validate_ap_decision_registry.py:522-566 | decides all allocations and groups them by id |
| `RegistryValidator.CheckGroup` | tools/validate_ap_decision_registry.py:579-598 | decides one id's records as pairs, and whether their titles collide |
| `RegistryValidator.CheckCollisions` | tools/validate_ap_decision_registry.py:578-598 | decides all pairs and counts the colliding ids |
| `RegistryValidator.CheckEvent` | tools/validate_ap_decision_registry.py:601-655 | decides one event on the dictionaries exactly as its link to the latest event of its id |
| `RegistryValidator.CheckEvents` | tools/validate_ap_decision_registry.py:599-657 | decides all events and leaves the dictionaries of ids and latest events |
| `RegistryValidator.CheckHistorical` | tools/validate_ap_decision_registry.py:686-698 | decides that exactly one allocation matches and awaits repair |
| `RegistryValidator.CheckReconciliation` | tools/validate_ap_decision_registry.py:661-722 | decides one reconciliation against those before it |
| `RegistryValidator.CheckReconciliations` | tools/validate_ap_decision_registry.py:658-725 | decides all reconciliations |
| `RegistryValidator.CheckHeadings` | tools/validate_ap_decision_registry.py:726-750 | decides the heading rules |
| `RegistryValidator.CheckBaseline` | tools/validate_ap_decision_registry.py:751-789 | decides the append-only rules against the baseline |
| `RegistryValidator.CountResolved` | tools/validate_ap_decision_registry.py:790-794 | counts the effectively resolved repairs |
| `FulfilmentTheorems.AcceptedCustodyHistory` | BACKEND/custody/application.py:116-242 | every reachable accepted custody was sealed by the owner, verified by the bound courier, released by the owner and accepted by the courier, in this order and nothing else, both courier steps while the bound assignment was current, and it is current now |
| `FulfilmentTheorems.VerifiedWithTheIssuedCode` | BACKEND/persistence/custody_repository.py:227-272 | in every reachable store a custody at or beyond verification was verified exactly once, with the code its seal issued, and not after its expiry |
| `FulfilmentTheorems.VerificationIsExact` | BACKEND/persistence/custody_repository.py:227-272 | on a sealed custody, by the bound courier under a current assignment, verification succeeds if and only if the shown code is the issued one, in time |
| `FulfilmentTheorems.HandoverAuthorityIsExact` | BACKEND/custody/application.py:165-242 | release succeeds if and only if the custody is verified and the owner of its merchant asks; acceptance iff it is released and its courier asks under a current assignment |
| `HandoverTheorems.EveryWaitingOrderCanBeDelivered` | BACKEND/custody/application.py:116-242 | from any store a waiting dispatch whose order has no custody has a run of ten commands by its own courier and owner that ends with the custody accepted |
| `HandoverTheorems.CourierMoveIsExact` | BACKEND/courier_pickup/application.py:184-311 | in every reachable store a courier command is accepted if and only if the bound courier gives it over an open assignment, no custody exists for the order, and it is a courier action one level apart |
| `HandoverTheorems.MerchantMoveIsExact` | BACKEND/courier_pickup/application.py:147-311 | in every reachable store a merchant command is accepted if and only if the owner gives it, no custody exists, it is a merchant action that fits, and an acknowledgement finds the assignment open |
| `HandoverTheorems.OnlyItsPartiesMoveAPickup` | BACKEND/courier_pickup/application.py:184-311 | no command but such a move, by the courier or the owner, ever changes a pickup, and each adds one to its version |
| `HandoverTheorems.SealIsExact` | BACKEND/custody/application.py:116-163 | sealing succeeds if and only if the custody waits and the owner of its merchant asks; it issues exactly the code and expiry given |
| `DispatchTheorems.OneCourierPerDispatch` | BACKEND/courier_dispatch/application.py:77-138 | in every reachable store a dispatch has at most one open assignment |
| `DispatchTheorems.CurrentMeansOpen` | BACKEND/courier_dispatch/current_assignment.py:9-25 | in every reachable store the eleven comparisons hold if and only if the pickup's assignment is open |
| `DispatchTheorems.AnswerIsExact` | BACKEND/courier_dispatch/application.py:77-138 | an answer counts if and only if it comes from the courier of the open offer, before its expiry |
| `DispatchTheorems.AnswerDecides` | BACKEND/courier_dispatch/application.py:77-138 | an acceptance opens one assignment of that courier, a decline leaves the dispatch waiting, and both close the offer |
| `DispatchTheorems.DecisionIsExact` | BACKEND/courier_dispatch/application.py:201-275 | an authority action is granted if and only if its state, offer expiry and custody guard allow it |
| `DispatchTheorems.ReleasedWaitsAgain` | BACKEND/courier_dispatch/engine.py:43-91 | a released, expired or revoked dispatch waits again, with no offer or open assignment |
| `DispatchTheorems.WaitingCanBeOffered` | BACKEND/courier_dispatch/application.py:140-199 | a waiting dispatch can be offered to any courier, and the offer then stands |
| `DispatchTheorems.CancelEnds` | BACKEND/courier_dispatch/engine.py:43-91 | a cancelled or unfulfilled dispatch has no open assignment left |
| `DispatchTheorems.TerminalIsFinal` | BACKEND/courier_dispatch/engine.py:43-91 | no run changes a cancelled or unfulfilled dispatch, so it is never offered again |
| `DispatchTheorems.StepKeepsTied` | BACKEND/courier_dispatch/application.py:26-275 | every command keeps offers, assignments and pickups bound to their dispatches |
| `FulfilmentTheorems.AcceptedStaysAssigned` | BACKEND/courier_dispatch/application.py:201-275 | from acceptance on, over every run, the dispatch stays assigned to that courier under the same assignment |
| `FulfilmentTheorems.WaitingPickupIsFrozen` | BACKEND/courier_pickup/application.py:266-311 | in every reachable store a waiting pickup has the custody of its order bound to it and is unchanged by every run |
| `FulfilmentTheorems.WaitingIsNeverCorrected` | BACKEND/courier_pickup/application.py:266-268 | the correction of a waiting state is refused in every reachable store |
| `FulfilmentTheorems.AcknowledgedPickupIsFrozen` | BACKEND/courier_pickup/application.py:266-311 | from acknowledgement on no command of any kind changes the acknowledged waiting pickup |
| `FulfilmentTheorems.CustodyEndsPickupAuthority` | BACKEND/courier_pickup/application.py:266-268 | every pickup command on an order in custody is refused |
| `FulfilmentTheorems.RunContinues` | BACKEND/custody/application.py:165-223 | over every run a custody keeps its binding, its events as a prefix, its acceptance and its pickup |
| `FulfilmentTheorems.ClosedStaysClosed` | BACKEND/persistence/courier_dispatch_repository.py:625-642 | no command reopens a closed assignment |
| `FulfilmentTheorems.StrandedCustodyIsNeverAccepted` | BACKEND/courier_dispatch/current_assignment.py:9-25 | a custody whose assignment closed before acceptance is never accepted in any run, and gains no courier step |
| `FulfilmentTheorems.StepKeepsInv` | BACKEND/courier_dispatch/application.py:201-275 | every command of dispatch, pickup and custody keeps the cross-aggregate invariant |
| `FulfilmentTheorems.AuthorityShape` | BACKEND/persistence/courier_dispatch_repository.py:349-449 | an authority command changes only its dispatch, offers and its own active assignment by closing it, and never an assigned dispatch whose custody was accepted |
| `FulfilmentTheorems.ActivateStep` | BACKEND/persistence/custody_repository.py:33-92 | activating custody for a waiting pickup of an order without custody keeps the invariant |
| `FulfilmentObject.Repositories.AdmitReadyEvent` | BACKEND/courier_dispatch/application.py:26-61 | in place: exactly the admission step; an existing dispatch is never rewritten |
| `FulfilmentObject.Repositories.Offer` | BACKEND/courier_dispatch/application.py:140-199 | in place: exactly the offer step |
| `FulfilmentObject.Repositories.Answer` | BACKEND/courier_dispatch/application.py:77-138 | in place: exactly the courier's answer |
| `FulfilmentObject.Repositories.Decide` | BACKEND/courier_dispatch/application.py:201-275 | in place: exactly the authority step, custody guard included |
| `FulfilmentObject.Repositories.Consume` | BACKEND/persistence/courier_pickup_repository.py:43-139 | in place: exactly the creation of a pickup, once per assignment; the same message finds it again, another one is refused |
| `FulfilmentObject.Repositories.Move` | BACKEND/courier_pickup/application.py:184-311 | in place: exactly the pickup step, activating custody on acknowledgement |
| `FulfilmentObject.Repositories.SealPackage` | BACKEND/custody/application.py:116-163 | in place: exactly the sealing step |
| `FulfilmentObject.Repositories.Handover` | BACKEND/custody/application.py:165-242 | in place: exactly the verify, release or accept step |
| `SessionManager.SignOutIsFinal` | AYO-Mobile/services/session-manager.ts:24-30 | in every reachable state the vault holds no session saved under a generation before the last sign-out whose queued step ran |
| `SessionManager.CompletedSignOutClearsForGood` | AYO-Mobile/services/session-manager.ts:24-30 | after a sign-out's queued step, no continuation leaves a session saved under an older generation in the vault |
| `SignOutTheorems.SignOutLastsExactly` | AYO-Mobile/services/session-manager.ts:16-41 | after a sign-out's queued step the vault stays empty over every run that establishes nothing if and only if no session is read and held, refreshed under the current generation, or queued to be saved under it |
| `SignOutTheorems.SignedOutSessionReturns` | AYO-Mobile/services/session-manager.ts:34-35 | a concrete run: a credential read before the sign-out is refreshed after it and saved again |
| `SignOutTheorems.EmptiedStaysEmpty` | AYO-Mobile/services/session-manager.ts:34-58 | an empty vault with nothing on its way stays empty over every run that establishes nothing |
| `SignOutTheorems.NotQuietRefills` | AYO-Mobile/services/session-manager.ts:34-63 | whatever is on its way has a run, without any new authentication, that leaves a session in the vault |
| `SessionManager.ClearsNothingNewer` | AYO-Mobile/services/session-manager.ts:42-58 | no failed refresh, stale persist or sign-out clears a session saved under a newer generation |
| `SessionManager.OneRefreshPerGeneration` | AYO-Mobile/services/session-manager.ts:34-41 | at most one refresh of each generation is unfinished |
| `SessionManager.ConfirmedPersistIsCurrent` | AYO-Mobile/services/session-manager.ts:51-58 | a persist that completes after its save left its session in the vault under the current generation |
| `SessionManager.SignedOutGrows` | AYO-Mobile/services/session-manager.ts:24-26 | the last finished sign-out is never forgotten by any run |
| `SessionManager.StepKeepsInv` | AYO-Mobile/services/session-manager.ts:14-63 | every call, reply and queue step keeps the invariant |
| `SessionMeaning.QueueDrains` | AYO-Mobile/services/session-manager.ts:51-63 | left alone the queue empties, and the vault then holds exactly what the last counting mutation says |
| `SessionMeaning.AdvancingKeepsMeaning` | AYO-Mobile/services/session-manager.ts:51-63 | no segment of the queue changes what it will leave in the vault |
| `SessionMeaning.EstablishMeans` | AYO-Mobile/services/session-manager.ts:15-15 | establishing under the current generation stores that session; under an older one it changes nothing |
| `SessionMeaning.SignOutMeans` | AYO-Mobile/services/session-manager.ts:24-26 | a sign-out leaves the vault empty |
| `SessionMeaning.RefreshReplyMeans` | AYO-Mobile/services/session-manager.ts:42-50 | a refresh of the current generation stores what it returned and empties the vault if it failed; an older one changes nothing |
| `SessionMeaning.AuthenticationMeans` | AYO-Mobile/services/session-manager.ts:14-58 | a new authentication discards what is queued and unsaved, while queued clears and saves under way still empty the vault |
| `SessionMeaning.EverySessionHasASource` | AYO-Mobile/services/session-manager.ts:14-58 | in every run what the vault or queue holds was stored before, established, or returned by a refresh |
| `SessionManager.Manager.RefreshSession` | AYO-Mobile/services/session-manager.ts:34-41 | in place: joins the flight of the current generation or starts one, whichever session was read |
| `SessionManager.Manager.ResumeRead` | AYO-Mobile/services/session-manager.ts:16-33 | in place: after its vault read a caller finds nothing, keeps the session, or refreshes it under the generation of this moment |
| `SessionManager.Manager.RefreshReply` | AYO-Mobile/services/session-manager.ts:42-50 | in place: queues a persist, or a clear if the generation is still current |
| `SessionManager.Manager.PressSignOut` | AYO-Mobile/services/session-manager.ts:24-26 | in place: a new generation and a queued clear |
| `SessionManager.Manager.AdvanceQueue` | AYO-Mobile/services/session-manager.ts:51-63 | in place: one segment of the mutation at the head of the queue |
| `BookingIntent.InvalidatedFlightIsSilentForever` | AYO-Mobile/services/booking-intent-controller.ts:26-35 | over every later interleaving, nothing a cancelled, retired, cleared or superseded flight does reaches the store |
| `BookingIntent.InvalidatedStays` | AYO-Mobile/services/booking-intent-controller.ts:35-35 | no run revives an invalidated flight |
| `BookingIntent.FlightTouchesOnlyItsIntent` | AYO-Mobile/services/booking-intent-controller.ts:26-29 | a flight that changes the store changes the intent it was started for, and is the live one |
| `BookingIntent.OrphanedPreviewHasLapsed` | AYO-Mobile/services/booking-intent-controller.ts:31-31 | a stored preview that no live flight stands for belongs to a lapsed continuity, so the next read retires it, also while invalidated flights await their replies |
| `BookingIntent.UnsharedPreviewHasLapsed` | AYO-Mobile/services/booking-intent-controller.ts:31-31 | the same for a controller that shares no flight |
| `BookingIntent.OrphanBesideLateReply` | AYO-Mobile/services/booking-intent-controller.ts:21-35 | a concrete run reaches such a record beside a flight that still awaits its reply |
| `BookingIntent.OnePreviewMayWrite` | AYO-Mobile/services/booking-intent-controller.ts:21-29 | at most one preview may still write, and new callers share it |
| `BookingIntent.StepKeepsInv` | AYO-Mobile/services/booking-intent-controller.ts:16-36 | every call and every flight step keeps the invariant |
| `BookingTheorems.ReplyDecides` | AYO-Mobile/services/booking-intent-controller.ts:27-27 | in every reachable state a reply that counts writes into its flight's own intent: stale for an expired preview, locked for an unexpired one, failed safe for a failed one |
| `BookingTheorems.OtherRepliesWriteNothing` | AYO-Mobile/services/booking-intent-controller.ts:27-27 | any other reply writes nothing |
| `BookingTheorems.StoredStatusWasWritten` | AYO-Mobile/domain/booking-intent.ts:13-16 | over every run whatever is stored was put there by its own event: a lock by an unexpired preview for this intent's live flight, a safe failure by a failed one, staleness by an expired preview or by reading an expired lock |
| `BookingTheorems.LeavingEmptiesTheStore` | AYO-Mobile/services/booking-intent-controller.ts:33-35 | retiring and clearing empty the store and leave no reply that counts |
| `BookingTheorems.BeginIsExact` | AYO-Mobile/services/booking-intent-controller.ts:16-20 | an intent begins if and only if the store is empty, the continuity current and the identifiers well formed |
| `BookingTheorems.DraftCanBeDecided` | AYO-Mobile/services/booking-intent-controller.ts:21-29 | in every reachable state a draft of a current continuity with no flight about has a run of preview, start and reply that ends exactly as the reply says |
| `BookingTheorems.PreviewIsShared` | AYO-Mobile/services/booking-intent-controller.ts:21-29 | while a flight is under way a preview changes nothing; a new one starts only over a draft of the same input and is then the only one whose reply counts |
| `BookingIntent.Controller.StartPreview` | AYO-Mobile/services/booking-intent-controller.ts:21-29 | in place: exactly the preview call |
| `BookingIntent.Controller.ReplyToFlight` | AYO-Mobile/domain/booking-intent.ts:14-16 | in place: a reply locks, fails or stales the preview only while its flight is current |
| `BookingIntent.Controller.ReadView` | AYO-Mobile/services/booking-intent-controller.ts:31-31 | in place: a read retires a record whose continuity lapsed |
| `BookingIntent.Controller.ReplaceIdentityWith` | AYO-Mobile/services/booking-intent-controller.ts:32-32 | in place: a changed identity supersedes the flight and drops the record |
| `WaitingTheorems.DeadlineEquation` | BACKEND/arrival_waiting/engine.py:259-370 | in every run the deadline is the start plus the free wait plus the credited pauses |
| `WaitingTheorems.PauseCreditIsBounded` | BACKEND/arrival_waiting/engine.py:334-340 | on a clock that never runs backwards the credit never exceeds the true resumed pauses and loses less than one second per resume |
| `WaitingTheorems.OnlyStaleObservationsAreRefused` | BACKEND/arrival_waiting/engine.py:298-340 | the pause timestamp is set exactly while paused, the missing-timestamp conflict is unreachable, and an observation is refused exactly for a stale sequence |
| `WaitingTheorems.SequencesIncrease` | BACKEND/arrival_waiting/engine.py:298-299 | accepted observation sequences strictly increase |
| `WaitingTheorems.EvidenceReadyIsExact` | BACKEND/arrival_waiting/engine.py:373-442 | evidence is ready if and only if the session is not invalidated, free wait plus credited pauses have elapsed since the start, and no signal speaks against it |
| `WaitingTheorems.RiderHadTheFreeWait` | BACKEND/arrival_waiting/engine.py:373-442 | whenever evidence is ready the rider had the free wait outside resumed pauses, short of less than a second per resume |
| `WaitingTheorems.FreeWaitOutsidePausesIsExact` | BACKEND/arrival_waiting/engine.py:356-370 | the whole free wait lay outside every pause if and only if the deadline, put off by the uncredited pause time, was passed by now or by the start of the pause that still runs |
| `WaitingTheorems.ReadyWhilePaused` | BACKEND/arrival_waiting/application.py:451-457 | a concrete family: a session paused at its start is ready once the free wait has passed, without a moment of waiting |
| `WaitingTheorems.CleanObservationRevives` | BACKEND/arrival_waiting/engine.py:341-355 | invalidation is not absorbing: any later clean observation returns the session to waiting with the same deadline |
| `WaitingTheorems.InvalidatedPauseIsNotCredited` | BACKEND/arrival_waiting/engine.py:341-370 | a pause that turns into invalidation adds nothing to the credit or the deadline |
| `WaitingTheorems.UniqueKeepsReasons` | BACKEND/arrival_waiting/engine.py:414-414 | suppression reasons are kept as a set, each once |
| `WaitingOutcomes.ReasonsAreExact` | BACKEND/arrival_waiting/engine.py:300-324 | a reason is given if and only if its own signal speaks |
| `WaitingOutcomes.ObservationIsExact` | BACKEND/arrival_waiting/engine.py:341-355 | an accepted observation pauses if and only if the driver left and leaving pauses, or only the position is in doubt and doubt pauses; it invalidates iff anything else disturbs; otherwise the time left decides |
| `WaitingOutcomes.PauseInstantIsExact` | BACKEND/arrival_waiting/engine.py:356-370 | a pause that goes on keeps its first instant, a new one begins now, a resumed one is credited |
| `WaitingOutcomes.StartIsExact` | BACKEND/arrival_waiting/engine.py:259-287 | waiting starts if and only if the arrival is verified for this ride and assignment, with the whole free wait ahead |
| `WaitingOutcomes.SuppressionsAreExact` | BACKEND/arrival_waiting/engine.py:380-414 | a reason is listed if and only if its signal or the clock suppresses now, or it made the session invalid |
| `WaitingOutcomes.ResponsibilityIsExact` | BACKEND/arrival_waiting/engine.py:416-427 | the rider answers exactly for ready evidence; otherwise outside causes come first, then the platform's, then the driver's |
| `WaitingOutcomes.ProjectionAnnouncesExpiry` | BACKEND/arrival_waiting/workers.py:16-39 | the worker only announces expiry: no time, pause or sequence changes |
| `WaitingSession.EvaluateContinuity` | BACKEND/arrival_waiting/engine.py:290-370 | the appending evaluation computes the specified next session or conflict |
| `WaitingSession.EvaluateEvidence` | BACKEND/arrival_waiting/engine.py:373-442 | the appending evaluation computes the specified evidence |
| `WaitingSession.CreditedSeconds` | BACKEND/arrival_waiting/engine.py:339-339 | whole seconds, never negative, short of the true pause by less than a second |
| `WaitingSession.SessionRepository.RunOnce` | BACKEND/arrival_waiting/workers.py:16-39 | in place: every claimed active session moves to ending, all else is unchanged, and the count is exact |
| `WaitingPolicy.SelectionIsExact` | BACKEND/arrival_waiting/engine.py:219-256 | resolution succeeds if and only if one matching policy strictly dominates all others |
| `WaitingPolicy.SelectedWins` | BACKEND/arrival_waiting/engine.py:233-256 | the selected policy occurs once, matches and strictly dominates every other match |
| `WaitingPolicy.AmbiguityIsExact` | BACKEND/arrival_waiting/engine.py:236-241 | ambiguity is reported if and only if the top rank is shared |
| `WaitingPolicy.UnavailableIsExact` | BACKEND/arrival_waiting/engine.py:226-232 | unavailable if and only if no policy matches |
| `WaitingPolicy.ResolutionIsOrderIndependent` | BACKEND/arrival_waiting/engine.py:219-256 | every permutation gives the same winner or the same conflict |
| `WaitingPolicy.MatchIsExact` | BACKEND/arrival_waiting/engine.py:194-216 | a policy matches if and only if city and effective period fit and every dimension it names equals the context |
| `WaitingPolicy.SelectedPolicyIsExact` | BACKEND/arrival_waiting/engine.py:233-256 | a policy is selected if and only if it matches, is listed once, and every other match names strictly fewer optional dimensions, or equally many with strictly lower priority |
| `WaitingPolicy.AmbiguityIsATie` | BACKEND/arrival_waiting/engine.py:236-241 | ambiguity is reported if and only if two listed matches share the largest number of named dimensions and the highest priority among those |
| `WaitingPolicy.SpecificityIsNamedOptional` | BACKEND/arrival_waiting/engine.py:201-216 | specificity is one plus the number of optional dimensions a policy names |
| `WaitingPolicy.MatchedDimensions` | BACKEND/arrival_waiting/engine.py:194-216 | the loop answers the dimensions exactly of a matching policy |
| `WaitingPolicy.ResolveWaitingPolicy` | BACKEND/arrival_waiting/engine.py:219-256 | filter and stable sort compute the specified resolution |
| `DriverRanking.RankCandidates` | BACKEND/dispatch/handoff.py:150-204 | the result is the specified ranking: ordered, and holding exactly the eligible candidates as often as given |
| `DriverRanking.RankingIsTheEligible` | BACKEND/dispatch/handoff.py:150-204 | the ranking is a sorted permutation of the eligible candidates |
| `DriverRanking.RankingIsOrderIndependent` | BACKEND/dispatch/handoff.py:196-204 | with distinct driver ids the ranking does not depend on the input order |
| `DriverRanking.EqualKeysKeepInputOrder` | BACKEND/dispatch/handoff.py:196-204 | different candidates with one whole key keep the input order, so distinctness is needed |
| `DriverRanking.LargeGapDecides` | BACKEND/dispatch/handoff.py:181-194 | eligible drivers whose pickup costs differ by 55 seconds or more are never reordered |
| `DriverRanking.SmallerGapCanReorder` | BACKEND/dispatch/handoff.py:181-194 | for any two driver ids, at every pickup cost and every gap up to 54 seconds, there are eligible candidates of these drivers that are reordered |
| `DriverRanking.ImprovingNeverLosesPlaces` | BACKEND/dispatch/handoff.py:181-204 | a driver who becomes nearer, more reliable, less cancelling, less loaded or more owed, and worse in nothing, never loses a place; the others keep their order |
| `DriverRanking.NoWorseCostsNoMore` | BACKEND/dispatch/handoff.py:181-194 | more reliability or missed opportunity never costs more; more cancellations, workload or distance never cost less |
| `DriverRanking.ExchangeRates` | BACKEND/dispatch/handoff.py:181-194 | ten percent of reliability or cancellations is one second, each of the first three rides five, five percent of missed opportunity one second back; with nothing against or owed the cost is the pickup cost |
| `DriverRanking.RankingIsLexicographic` | BACKEND/dispatch/handoff.py:196-204 | the lower effective cost stands first, then the nearer driver, then the one heading the right way, then the smaller id |
| `DriverRanking.EligibilityImproves` | BACKEND/dispatch/handoff.py:150-180 | fresher, longer and surer evidence and more services never cost the eligibility; a conflict, expiry, future or stale observation always does |
| `StructuredDiffTheorems.DiffIsFrontier` | tools/validate_ci_governance_evidence.py:552-575 | a path is reported if and only if both documents hold objects down to it and there one lacks the key or the values differ |
| `StructuredDiffTheorems.ReportedPathsAreAntichain` | tools/validate_ci_governance_evidence.py:552-575 | no reported path is a prefix of another |
| `StructuredDiffTheorems.ReportedPathsAscend` | tools/validate_ci_governance_evidence.py:564-572 | the paths are reported in ascending order, so the report is the sorted frontier |
| `StructuredDiffTheorems.DriftAscends` | tools/validate_ci_governance_evidence.py:574-575 | the drift keeps that order |
| `StructuredDiffTheorems.DiffPatches` | tools/validate_ci_governance_evidence.py:552-575 | replacing, adding or removing exactly the reported paths in the baseline, one after the other, yields the candidate |
| `StructuredDiffTheorems.EmptyDiffMeansEqual` | tools/validate_ci_governance_evidence.py:552-575 | nothing is reported if and only if the documents are equal |
| `StructuredDiffTheorems.DriftIsEmptyExactly` | tools/validate_ci_governance_evidence.py:574-575 | with an allow-list the drift is empty if and only if every changed path is listed |
| `StructuredDiff.Visitor.Visit` | tools/validate_ci_governance_evidence.py:564-572 | in place: the recursive visit appends exactly the changed paths below its path, in sorted key order |
| `StructuredDiff.StructuredTransitionDrift` | tools/validate_ci_governance_evidence.py:552-575 | computes the unlisted changed paths, and refuses roots that are not objects |

## Left out

- Case folding of identifiers is ASCII only, which is all a UUID can hold.
- The consumed-version key is a tuple instead of a joined string; the parts contain no separator, so the two agree.
- A failing session store during a merchant request counts as an unexpected error; wire formats are replies of a classified kind.
- The courier command service is not modelled: its answers, classified as the controller distinguishes them, are inputs.
- The session manager's vault is taken to hold well-formed, unexpired records and to succeed; the generation stored beside a session is history kept by the model, and only handed-out generations are presented to `establish`.
- Booking identifier generation and request validation are inputs; a lapsed identity continuity is taken never to become current again, which the controller itself does not enforce.
- The registry's historical provenance manifest is one answer of a parameter, as are Git lookups and SHA-256; the type checks on raw JSON and the fixed AP-099/AP-100 reservation constants are not modelled.
- Fulfilment's idempotent replays, audit events, outbox messages and permission tables are not modelled; a replay returns an earlier view and writes nothing.
- Arrival evaluation, readiness evaluation and rider-presence evidence of the waiting engine are not modelled: each is one pass of thresholds over its inputs, with no state.
- Row locks, the claim limit and skipped rows of the recovery worker: any set of distinct due sessions may be claimed.
- Structured diff leaves are compared up to the equality of the host language, where 1, 1.0 and true are equal.
- The start-travel controller, active ride lifecycle, delivery verification, catalogue, pricing and booking confirmation, user interface, localization and configuration are not modelled: they are tables, presentation, a variant of the protocols above, or calls into pricing and booking stores.
