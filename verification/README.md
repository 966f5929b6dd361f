# Delivery machinery: a verified model

The daemon turns webhook requests into turns of a coding task. A message is
written through the Desktop application when it can be and through the app
server otherwise. Many deliveries run at once, changes from Desktop may be lost,
repeated or reordered, and a write whose result is unknown must never be made a
second time. This project models the machinery that keeps these promises and
proves them for every input, every run and every interleaving.

| file | models |
|---|---|
| `Routing`, `Coordinator`, `CoordinatorSafety`, `CoordinatorRuns`, `CoordinatorService` | the two-route write protocol: fallback policy, one transition system over any number of deliveries, its invariants, when a delivery acts and what every answer leads to, and the sequential code against it |
| `GatePool` | the reference-counted task gates |
| `Replica`, `ThreadState`, `ReplicaAgreement`, `ReplicaFence`, `DocumentAgreement` | the Desktop replica as a specification and as the mutable object, the fence that lets no gap go unnoticed, the document its changes patch, and what it shows of the server's documents over every run |
| `Injection`, `Serialize`, `Attachment`, `AttachmentProof`, `AttachmentOutcomes`, `AttachmentScenes`, `AttachmentService` | injection proofs, the per-task command chain, the attachment machine, what a confirmation is worth, how each command ends, two runs at its limit, and the event handlers that update the replicas |
| `Lanes`, `LaneService` | the delivery lanes as interleaved steps and as the updating service |
| `Framing`, `Wire`, `Owners`, `OwnerRegistry`, `SessionRequest` | the frame codec, the pending-request table, the owner registry and request targets |
| `TaskEvents`, `IdleWait` | the canonical event stream, and the idle evidence folded from it |
| `Decoder`, `RateLimit`, `Registry`, `Journal` | delivery identities in a JSON tree, the sliding-window limiter, the webhook token table, and the bounded diagnostic journal |

Objects that update fields in the original are classes here: each method says
exactly which specification step takes the old state to the new one, and the
properties are proved about those steps over all runs. Concurrent protocols are
transition systems in which the environment picks the next step and every answer
of an adapter, a clock or a stream. Fields marked `ghost`, and the records kept
in a transition system's state (traces, logs, ledgers), belong to an observer
and steer nothing.

## Results about the code

Here the code promises less than one might expect. Each property is stated with
its exact condition, in both directions, and with a concrete input on which it
fails.

- A confirmed injection was introduced by one applied change since the baseline,
  at a revision at least the baseline's. Whatever Desktop sends, the change is
  strictly newer if and only if the replica is synchronized when it arrives or
  has already moved past the baseline, for a start and for a steer
  (`IntroductionIsStrictExactlyWhen`). A run of the attachment in which a patch that
  cannot be applied costs the replica its synchronization and a second snapshot of
  the same revision then brings the turn ends Confirmed (`SameRevisionCanConfirm`).
- If the changes come from a server's own documents, a confirmed start is always
  strictly newer; a confirmed steer is, unless the document at the baseline already
  holds its identity in the expected turn (`LandedIsNewer`, `ConfirmedIsNewer`), and
  that condition is exact (`HonestIntroductionIsStrictExactlyWhen`). An entity with a
  text whose turn gets another identity is the input: a run on such documents ends
  Confirmed on a second snapshot of the baseline's revision
  (`RecordedSteerCanConfirm`).
- A drained service stays drained under every step if and only if no queue-mode
  submission is between the accepting check and its offer
  (`DrainedStaysExactlyWhenNoneMidway`); a check, then the stop, then the offer is the
  input (`OfferAfterDrain`).
- A turn that the latest history ends running is tracked unless the last diff to
  list it anew hid it (`IdleEvidenceIsReal`): an empty set after a diff is true of
  the history as it ends if and only if the diff hides no turn that ends running
  (`IdleAfterDiffExactly`). A history that lists one turn as done and then as running
  is the input, in a run of the stream that ends the wait while the turn runs
  (`HiddenTurnEndsWait`); distinct turns rule it out. A turn that vanishes from the
  history while running stays in the tracked set (`ActiveAgainstLatest`).
- Waiting for idleness can succeed between two reports of one history diff while
  another turn of that same history runs (`IdleBetweenTwoTurns`); in every run the
  verdict is right if and only if every unread report that runs at last is hidden and
  no turn that ends the history running is stale, which with distinct turns says
  that nothing the diff still has to report is running (`IdleVerdictInsideDiff`). The
  recheck under the gate reads one whole snapshot and is exact
  (`InspectionIsExact`).
- A diff replays to the next history if and only if no turn of it ends as it was
  after being listed otherwise (`DiffReplaysExactly`); a duplicate identity can do
  that (`DuplicateHidesChange`), distinct ones cannot (`DiffReproduces`). Over a run
  each turn is told right exactly if the last diff to list it anew did not hide it
  (`TurnIsToldExactly`).
- The replica goes on mirroring the patched document if and only if every edit means
  the same to both: no entity that shares the changed turn reads otherwise, a binding
  names an entity that reads as its turn does, and what no delta tells changes no
  entity with a turn (`MirrorsExactly`, `MirrorsThroughPatches`; `SharedTurnDiverges`
  is a failing input). A snapshot is mirrored if and only if entities that share a turn
  read alike (`SnapshotMirrorsExactly`). Under these conditions the replica mirrors the
  server's document at its revision in every run (`ReplicaAgrees`).
- The identities seen are those of the document if and only if none disappeared and
  each new one was listed; those bound, if and only if each change does for every
  identity what `IdentityKept` says (`IdentitiesMatchExactly`). An entity removed with
  its identity (`RemovedIdentityStaysSeen`) and an entity whose turn gets another
  identity (`RenamedTurnLosesBinding`) are the failing inputs.
- The token table answers as the ledger if and only if the lookup is no earlier than
  the latest search may have been (`Registry.ClockMayGoBackExactlyTo`); a sweep at the
  expiry and a lookup before it are the input (`SweptTooEarly`).
- The limiter's table answers as the full history if and only if the next call is
  no earlier than the latest call so far (`RateLimit.ClockMayGoBackExactlyTo`;
  `BackwardsClockForgets` is a failing input).
- A request is called not-written although its frame reached the socket's write if
  and only if that very call threw (`NotWrittenThoughReached`;
  `ThrowingWriteSaysNotWritten` is the input).
- On a broken frame stream exactly the envelopes completed before the breaking
  chunk are returned (`BrokenPushLosesItsOwn`); one good frame in that chunk is
  lost (`GoodFrameBeforeBreakIsLost`).
- The record just appended is the journal's last one unless its append rotates and
  its own line exceeds three quarters of the byte limit; then the journal is empty
  (`NewestSurvivesUnlessTooLong`; `LongRecordEmptiesJournal` is the input).

Elsewhere the code keeps what it promises, and each answer is told exactly: when a
command may end not-submitted (`OutcomeFitsAnswer`), when a queued message acts
(`ActsOnlyWhenFoundIdle`), that no lost change goes unnoticed
(`NothingMissedWhileSynchronized`), what settles a request
(`OpenRequestIsSettledExactlyBy`), and which jobs are taken
(`OfferIsTakenExactlyWhen`).

The injection proof also relies on commands of a task running one at a time:
following again inside the window would pass the proof
(`RefollowingWouldGoUnnoticed`), and `OneCommandInFlight` shows it cannot happen.

## Model

| member | source | states |
|---|---|---|
| Routing.FallbackIffSafe | src/contracts/delivery.ts:83-108 | The policy table and its reader together allow the second route exactly after a Desktop outcome that wrote nothing and was not a busy task. |
| Routing.RemainingWait | src/delivery/coordinator-support.ts:107-115 | Before the deadline no call may take longer than what is left until it; no call may take longer than the idle timeout, and every one may take at least one millisecond, also at or after the deadline. |
| CoordinatorSafety.AdvanceKeeps | src/delivery/coordinator.ts:65-304 | Whatever the adapters, clock and streams answer, one step of a delivery keeps: at most one write, attempts recorded as made, the app server called only after a safe Desktop end, submissions before the deadline. |
| CoordinatorSafety.AfterDesktopKeeps | src/delivery/coordinator.ts:239-255 | Deciding between retry, stop and fallback keeps that invariant, with the attempts reported equal to the attempts made. |
| CoordinatorSafety.LocalProbingKeeps | src/delivery/coordinator.ts:181-232 | The app-server attempt, with its probe, deadline check and submit, keeps that invariant. |
| CoordinatorSafety.AfterReconcileKeeps | src/delivery/coordinator.ts:264-304 | Reconciling adds no call and no write; a match confirms the one turn really written, on the route that wrote it. |
| CoordinatorSafety.InvIsTruthful | src/delivery/coordinator.ts:153-304 | A delivery satisfying the invariant has at most one write; an attempt that may have written ends its trace; the app server is called at most once and right after a fallback-eligible Desktop end; and the final outcome says what happened, Unavailable only when nothing was written. |
| CoordinatorSafety.AtMostOneWrite | src/delivery/coordinator.ts:332-393 | In every interleaving of any number of deliveries, retries included, every delivery is truthful in that sense. |
| CoordinatorSafety.BreakerHolds | src/delivery/coordinator.ts:71-82 | In every interleaving no Desktop submit follows an ambiguous Desktop write on its task before that very delivery is positively reconciled. |
| CoordinatorSafety.CommitRespectsBreaker | src/delivery/coordinator.ts:247-249 | Setting the breaker inside the gate is early enough: no step of any delivery can slip a Desktop submit in between. |
| CoordinatorSafety.StepIsLocal | src/delivery/coordinator.ts:284-287 | A step touches only its own delivery and task; a breaker entry is never overwritten and only its own delivery removes it, after a match. |
| CoordinatorSafety.BreakerFallsBack | src/delivery/coordinator.ts:71-82 | Under the breaker the Desktop round ends without a call or a write and the delivery goes on to the app server unless its deadline passed. |
| CoordinatorSafety.OneMutationPerTask | src/delivery/coordinator.ts:348-393 | At most one delivery of a task is inside its gate in any reachable state. |
| CoordinatorSafety.DesktopCalledExactlyWhen | src/delivery/coordinator.ts:125-158 | Desktop's submit is called exactly when it just reported, before the deadline, an idle task to a queued message or one running turn to a steer. |
| CoordinatorSafety.DesktopLoggedExactlyBy | src/delivery/coordinator.ts:65-179 | In every interleaving each Desktop submit ever logged was called by one such follow of the delivery it names, and each such follow logged its own. |
| CoordinatorSafety.BreakerShutsDesktop | src/delivery/coordinator.ts:71-82 | In every interleaving, as long as a task's breaker stands no delivery of that task calls Desktop's submit. |
| CoordinatorSafety.BlockedDeliveryFallsBack | src/delivery/coordinator.ts:71-82 | In every interleaving a delivery that checks the breaker while its task has one records an unsubmitted Desktop round with its next step, whatever happened in between, and goes on to the app server unless its deadline passed. |
| CoordinatorRuns.ActsOnlyWhenFoundIdle | src/delivery/coordinator.ts:348-356 | In every interleaving whatever a queued message does, calling an adapter or ending a route, it does after a recheck that found its task idle since it last got the gate. |
| CoordinatorRuns.LeavesRunningTaskAlone | src/delivery/coordinator.ts:353-363 | In every interleaving a queued message whose recheck found a running turn neither calls an adapter nor ends a route before another recheck finds its task idle. |
| CoordinatorRuns.QueuedWaitsForIdleFirst | src/delivery/coordinator.ts:335-348 | In every interleaving a queued message asks for the gate only right after a wait that saw its task idle. |
| CoordinatorRuns.BusyTaskIsWaitedFor | src/delivery/coordinator.ts:241-245 | In every interleaving a queued message whose task Desktop found busy makes no call and records no attempt before the canonical stream showed a turn run and end. |
| CoordinatorRuns.FallsBackExactlyWhen | src/delivery/coordinator.ts:239-257 | After Desktop the app server is tried if and only if Desktop wrote nothing, the task is not busy and there is time; otherwise a busy task sends a queued message back to wait, and anything else ends the round with what Desktop said. |
| CoordinatorRuns.AppServerCalledExactlyWhen | src/delivery/coordinator.ts:187-222 | The app server's submit is called exactly when it just said it is available, before the deadline. |
| CoordinatorRuns.EveryItemHasItsStep | src/delivery/coordinator.ts:65-262 | In every interleaving each call and each attempt of a delivery was added by one step of it, for a reason that fits: a fitting follow or an available server in time for a call, Desktop's decision or the app server's answer for an attempt. |
| CoordinatorRuns.CallsAreInTime | src/delivery/coordinator.ts:376-379 | In every interleaving each adapter call is made after the message arrived and before its turn timeout, at least one millisecond, is over. |
| CoordinatorRuns.WaitsExactly | src/delivery/coordinator.ts:335-371 | A queued message gives up a wait exactly when it times out, or its deadline passed before the wait; otherwise it goes on to the gate, the recheck and the round, or back as the recheck said. |
| CoordinatorRuns.ReleasedExactly | src/delivery/coordinator.ts:323-371 | A round's result is final once the gate is released, an ambiguous one is reconciled, and a retry waits for activity exactly if told so. |
| CoordinatorRuns.ReconciledExactly | src/delivery/coordinator.ts:264-304 | Reconciliation confirms the turn found, on the route that wrote and as the operation it was, with one more attempt; without a match the delivery stays ambiguous. |
| CoordinatorService.RoundSubmitsExactlyWhen | src/delivery/coordinator.ts:65-179 | A Desktop round calls submit exactly if nothing before it failed, the activity fits the mode and there is time; then the reply stands, and a defect there or while closing is ambiguous. |
| CoordinatorService.UnsubmittedRoundSaysWhy | src/delivery/coordinator.ts:70-178 | A round that does not submit ends for the first thing in its way: the breaker, the probe, connecting, following or the activity; a defect while closing stands for whatever that was. |
| CoordinatorService.LocalRoundExactly | src/delivery/coordinator.ts:181-232 | The app-server attempt submits exactly if the server is available in time; its reply stands, a defect is ambiguous, and without a submit the reason found is recorded. |
| CoordinatorService.LocalDeliveryCoordinator.SubmitDesktop | src/delivery/coordinator.ts:65-179 | The sequential round with its `submitted` flag reaches the decision that the interleaved steps reach under the same answers. |
| CoordinatorService.LocalDeliveryCoordinator.SubmitLocal | src/delivery/coordinator.ts:181-232 | So does the app-server attempt, down to the attempts it reports. |
| CoordinatorService.LocalDeliveryCoordinator.Route | src/delivery/coordinator.ts:234-262 | A whole routing round leaves the breaker map and the gated result of the interleaved steps. |
| CoordinatorService.LocalDeliveryCoordinator.Reconcile | src/delivery/coordinator.ts:264-304 | Reconciling removes the breaker exactly where the interleaved step does, and reports the same outcome. |
| GatePool.TaskGatePool.Enter | src/delivery/coordinator-support.ts:87-97 | A run gets the task's one gate, new only when nobody overlaps, and is counted; every other run keeps its gate. |
| GatePool.TaskGatePool.TakePermit | src/delivery/coordinator-support.ts:98-98 | The semaphore grants exactly when no run of the task is inside, as one permanent mutex would. |
| GatePool.TaskGatePool.ReleasePermit | src/delivery/coordinator-support.ts:98-98 | Giving the permit back frees exactly this task's mutex. |
| GatePool.TaskGatePool.Leave | src/delivery/coordinator-support.ts:99-103 | The gate is forgotten exactly when the last overlapping run leaves, and nobody else's gate changes. |
| GatePool.EntryExactlyWhileUsed | src/delivery/coordinator-support.ts:81-105 | An entry exists exactly while some run overlaps on the task, and all of them hold that same entry. |
| ThreadState.DesktopThreadState.BindTurn | src/transport/desktop-state.ts:240-249 | The in-place update of three maps is the specified rebinding: a turn no key points to is collected with its bindings. |
| ThreadState.DesktopThreadState.DropTurnDeliveries | src/transport/desktop-state.ts:272-276 | The deleting loop removes exactly the bindings to one turn. |
| ThreadState.DesktopThreadState.ApplyDelta | src/transport/desktop-state.ts:211-238 | Each of the five deltas changes the indexes as specified, binding an unknown turn as a new running one. |
| ThreadState.DesktopThreadState.BindDeliveries | src/transport/desktop-state.ts:263-270 | The binding loop binds in order and skips keys without a turn. |
| ThreadState.DesktopThreadState.ApplySnapshot | src/transport/desktop-state.ts:167-188 | A snapshot is applied, ignored or answered by a resync exactly by the revision fence, and replaces everything when applied. |
| ThreadState.DesktopThreadState.ApplyPatches | src/transport/desktop-state.ts:190-209 | On a synchronized replica, unreadable patches and newer ones on another base cost it its synchronization with a resync verdict, and newer ones on its own revision bring it to theirs; in all cases the in-place update is the specified one. |
| ThreadState.DesktopThreadState.Apply | src/transport/desktop-state.ts:140-145 | A change of another generation, or while not connected, changes nothing. |
| ThreadState.DesktopThreadState.Disconnect | src/transport/desktop-state.ts:128-133 | A disconnect during an injection makes it uncertain and keeps what was observed. |
| ThreadState.DesktopThreadState.HasMultipleActiveTurns | src/transport/desktop-state.ts:91-97 | The early-exit count answers exactly whether two different turns run. |
| ReplicaAgreement.IndexesStayLinked | src/transport/desktop-state.ts:108-276 | After any events the turn map holds exactly the turns some key points to, each under its own identity, every binding points to a live turn, and synchronized implies connected with a valid revision. |
| ReplicaAgreement.RevisionGrows | src/transport/desktop-state.ts:167-209 | Within one following the revision never goes back and never becomes unknown. |
| ReplicaFence.FenceExactly | src/transport/desktop-state.ts:140-209 | A change that reaches the replica makes it lose track, keep what it has, or stand synchronized at the change's revision, told from the two revisions and the base alone; a resync is asked for exactly when it loses track. |
| ReplicaFence.NoGapGoesUnnoticed | src/transport/desktop-state.ts:190-209 | A synchronized replica given an unreadable change is synchronized no more, and given a newer one it is at that revision or synchronized no more. |
| ReplicaFence.NothingMissedWhileSynchronized | src/transport/desktop-state.ts:140-209 | After any events: as long as a replica stays synchronized, every change delivered to its generation was readable and is no newer than what it has. |
| ReplicaFence.NothingShownWithoutRevision | src/transport/desktop-state.ts:114-121 | After any events a replica without a revision shows nothing. |
| ReplicaFence.InjectionIsLastMark | src/transport/desktop-state.ts:128-138 | After any events the injection is as last set, only that a running one that lost its connection since is uncertain. |
| ReplicaAgreement.ContentKeepsSeen | src/transport/desktop-state.ts:181-205 | If every binding's identity is listed with its change, every bound delivery is also observed. |
| ReplicaAgreement.MirrorsExactly | src/transport/desktop-state.ts:211-249 | For every document and every delta the replica goes on mirroring the patched document if and only if no entity sharing the changed turn reads otherwise and a binding names an entity that reads as its turn does. |
| ReplicaAgreement.MirrorsExactlyWhenPlain | src/transport/desktop-state.ts:211-249 | With distinct turns before and after, only a binding can fail: exactly one to an entity that is not a running turn without error. |
| ReplicaAgreement.MirrorsThroughPatches | src/transport/desktop-state.ts:201-249 | At every point of a whole list of edits, told by deltas or not told at all, the replica mirrors the edited document if and only if every edit means the same to the document it is made in. |
| ReplicaAgreement.SharedTurnDiverges | src/transport/desktop-state.ts:233-236 | Two keys sharing a turn are an input where it does not: a status of one is seen through both. |
| DocumentAgreement.SnapshotMirrorsExactly | src/transport/desktop-state.ts:181-194 | A replica that takes all entities of a document with a turn mirrors it if and only if entities that share a turn read alike. |
| DocumentAgreement.ReplicaAgrees | src/transport/desktop-state.ts:140-249 | However changes are dropped, repeated or reordered, a replica with a revision mirrors the server's document at it, provided snapshots list such documents and patches are edits from one document to the other that each mean the same. |
| DocumentAgreement.MirroringDetermines | src/transport/desktop-state.ts:108-133 | Mirroring a document fixes the replica's keys and turns completely. |
| DocumentAgreement.IdentitiesMatchExactly | src/transport/desktop-state.ts:205-276 | After patches the identities seen are the document's if and only if none disappeared and each new one was listed; those bound are held by their turns if and only if each rebound identity is held by its new turn, each other one whose turn stayed is still held by it, and the rest by none. |
| DocumentAgreement.IdentitiesAgree | src/transport/desktop-state.ts:140-276 | Under that condition on every change, in every run a replica with a revision has seen exactly the identities of the server's document at it and bound each, if a turn holds it, to one that does. |
| DocumentAgreement.RemovedIdentityStaysSeen | src/transport/desktop-state.ts:201-232 | An entity removed with its identity is an input where it does not: the identity stays seen, and a snapshot of that revision is ignored. |
| DocumentAgreement.RenamedTurnLosesBinding | src/transport/desktop-state.ts:215-262 | So is an entity whose turn gets another identity: it keeps its text and the replica loses the binding. |
| Injection.ProofMeans | src/transport/desktop-injection.ts:23-74 | What any accepted proof says about the two states it compares: a strictly newer revision of the same generation, with a turn or a binding the baseline did not have. |
| Injection.StartProvenExactlyBy | src/transport/desktop-injection.ts:38-56 | Without a reported turn a start is proven exactly by one single novel turn together with the newly observed delivery. |
| Injection.ProvenExactlyWhenShown | src/transport/desktop-injection.ts:39-74 | A turn is accepted as proof if and only if the replica is synchronized anew and shows it as the command's: a steer's expected turn that the new delivery is bound to, or for a start the reported new turn, or else the only new one with the delivery newly seen. |
| Serialize.OneAtATimeInOrder | src/transport/desktop-attachment.ts:336-345 | While a command of a task runs, every other open one waits and arrived later. |
| Serialize.ArriveKeepsOrder | src/transport/desktop-attachment.ts:336-340 | Chaining to the newest promise keeps every open command behind an open one at least as new as all before it. |
| Serialize.StartKeepsOrder | src/transport/desktop-attachment.ts:341-341 | Starting after the predecessor released keeps that order. |
| Serialize.ReleaseKeepsOrder | src/transport/desktop-attachment.ts:341-344 | Releasing keeps that order, also when the chain's entry is deleted because it is still the newest. |
| Serialize.SomeoneGoesOn | src/transport/desktop-attachment.ts:336-345 | While a command waits, one command of its task runs or may start. |
| AttachmentProof.StepKeeps | src/transport/desktop-attachment.ts:58-262 | Every command step, change and connection event keeps each running command's window: a baseline of its own state, and after any disconnect or following in the window the task is disconnected or of another generation. |
| AttachmentProof.ValidMeansFits | src/transport/desktop-attachment.ts:274-293 | Validation lets a start through exactly when no turn runs, and a steer exactly when the expected turn is the only one running. |
| AttachmentService.DesktopAttachment.GetState | src/transport/desktop-attachment.ts:215-222 | Each task gets one replica object of its own the first time it is asked for, by a command or a look at its state, and keeps it. |
| AttachmentService.DesktopAttachment.OnChange | src/transport/desktop-attachment.ts:179-190 | A change updates in place the replica of its task only; the history is requested exactly when that replica cannot go on from what it has and no request is outstanding, and then it is not synchronized; a request is forgotten exactly when a change brings the replica on. |
| AttachmentService.DesktopAttachment.OnReconnecting | src/transport/desktop-attachment.ts:193-197 | The loop starts every replica over under the next generation. |
| AttachmentService.DesktopAttachment.OnReconnected | src/transport/desktop-attachment.ts:198-203 | The loop starts over exactly the connecting replicas, under the same generation. |
| AttachmentService.DesktopAttachment.OnDisconnected | src/transport/desktop-attachment.ts:204-207 | The loop disconnects every replica and forgets outstanding history requests. |
| AttachmentService.DesktopAttachment.CloseAttachment | src/transport/desktop-attachment.ts:169-177 | Closing disconnects every replica once; closing again changes nothing. |
| AttachmentProof.OneCommandInFlight | src/transport/desktop-attachment.ts:336-345 | In every run at most one command of a task is between its start and its end. |
| AttachmentOutcomes.OutcomeFitsAnswer | src/transport/desktop-attachment.ts:66-148 | In every run, from the events alone: a command that ended not-submitted had no answer that leaves open a write, and one that had such an answer ended confirmed, ambiguous or rejected, rejected exactly on a refusal; without any such answer it ended none of these three. |
| AttachmentOutcomes.AnswerDecides | src/transport/desktop-attachment.ts:92-119 | In every run an answer that says nothing was written ends the command not-submitted, with the reason the refusal gave; a refusal after a possible write ends it rejected; after any other the command looks for the expected or the reported turn. |
| AttachmentOutcomes.ConfirmedExactlyWhenShown | src/transport/desktop-attachment.ts:114-148 | In every run the wait for the proof ends confirmed with a turn if and only if it did not time out and the replica shows that turn as the command's against the state before the injection, and ambiguous otherwise. |
| AttachmentOutcomes.InjectsExactlyWhenItFits | src/transport/desktop-attachment.ts:75-88 | In every run a synchronized command is sent exactly if it fits the task's activity; otherwise it ends not-submitted, as busy exactly if a turn runs under a start or several do. |
| AttachmentOutcomes.SyncFailureEnds | src/transport/desktop-attachment.ts:70-74 | In every run a command whose synchronization fails ends at once and not-submitted. |
| AttachmentOutcomes.ConfirmedKeptItsLink | src/transport/desktop-attachment.ts:66-148 | In every run no disconnect, reconnect or close happened between a confirmed command's validation and its confirmation. |
| AttachmentOutcomes.BeginSynchronizes | src/transport/desktop-attachment.ts:224-237 | In every run a command that begins finds its task synchronized or has it follow the current generation, or connect first without a link, and neither restarts a replica that is ready or follows already; after the close it only fails. |
| AttachmentOutcomes.NoTaskIsStuck | src/transport/desktop-attachment.ts:336-345 | In every run, while a command of a task waits, one of its commands runs or may begin. |
| AttachmentOutcomes.LinkReachesEveryTask | src/transport/desktop-attachment.ts:169-208 | In every run before the close: a lost link disconnects every replica, a reconnect has every one follow the next generation from nothing, its end has exactly the connecting ones follow, and a change reaches its own task under the current generation; afterwards none of these changes anything. |
| AttachmentProof.ConfirmedMeansLanded | src/transport/desktop-attachment.ts:66-148 | In every run a Confirmed result means: no disconnect, reconnect or following since the baseline, and one change of the same generation, applied since, first made the turn exist (start) or bound the delivery to the expected turn (steer), on a baseline that passed validation; bindings are listed as decoded changes always do. |
| AttachmentProof.LandedIsNewer | src/transport/desktop-injection.ts:58-74 | If the changes come from a server's own documents, that change is strictly newer than the baseline: for a start always, for a steer unless the baseline's own document already holds the identity in the expected turn. |
| AttachmentProof.ConfirmedIsNewer | src/transport/desktop-attachment.ts:66-148 | So in every run of the attachment a confirmed start, and a confirmed steer whose identity the baseline's document did not hold in that turn, landed by a strictly newer change. |
| AttachmentProof.HonestIntroductionIsStrictExactlyWhen | src/transport/desktop-state.ts:167-209 | In an unbroken window the next change such a server may send to make the claim true is strictly newer than the baseline if and only if the replica is synchronized, or past the baseline, or the baseline's document does not bear the claim out. |
| AttachmentProof.AppliedIsNewerExactlyWhenReady | src/transport/desktop-state.ts:167-209 | Every change a replica can apply next is strictly newer than it if and only if it is synchronized. |
| AttachmentProof.IntroductionIsStrictExactlyWhen | src/transport/desktop-state.ts:167-209 | In an unbroken window the next change to introduce a turn, or to bind a delivery, is strictly newer than the baseline, whatever is sent, if and only if the replica is synchronized or already past the baseline. |
| AttachmentProof.LandedIsNewerUnlessDesynchronized | src/transport/desktop-injection.ts:58-74 | A change that proves an injection without being strictly newer came to a replica that had left synchronization, at that replica's own revision. |
| AttachmentScenes.SameRevisionCanConfirm | src/transport/desktop-attachment.ts:66-148 | There is a run of the whole attachment that ends Confirmed although the turn came with a second snapshot of the baseline's own revision, let in after a resync. |
| AttachmentScenes.RecordedSteerCanConfirm | src/transport/desktop-attachment.ts:66-148 | So there is one on a server's own documents that confirms a steer, its identity already in the baseline's document but unbound after that entity's turn was renamed. |
| AttachmentProof.RefollowingWouldGoUnnoticed | src/transport/desktop-attachment.ts:234-237 | Without the command chain a second synchronization inside the window would still pass the proof. |
| Lanes.StepKeeps | src/delivery/delivery.ts:150-251 | Every interleaving of check, offer, take, completion, steer and stop keeps one worker per lane, exact counts, and per-task order. |
| Lanes.AcceptedInOrder | src/delivery/delivery.ts:150-214 | In every run the accepted jobs of a task are its finished, then its at most one running, then its queued ones, across lanes removed and re-created; accepted equals finished plus pending. |
| Lanes.LanesAreBounded | src/delivery/delivery.ts:182-224 | At most 1,000 lanes, at most 101 unfinished jobs in one, steer count exact and at most 100, a worker exactly for each lane. |
| Lanes.DrainIsTrue | src/delivery/delivery.ts:292-314 | Once closed with no submission midway, a poll that adds up to zero, reading lanes and steers at different moments, means all accepted work has finished and stays so. |
| Lanes.DrainedStaysExactlyWhenNoneMidway | src/delivery/delivery.ts:226-232 | A closed and drained service stays drained under every step if and only if no queue-mode submission is midway. |
| Lanes.OfferAfterDrain | src/delivery/delivery.ts:226-232 | A check, then the stop, then the offer is a run in which it does not. |
| Lanes.ClosedLetsNothingIn | src/delivery/delivery.ts:216-251 | While the service does not accept, every step leaves the checked and the reserved submissions at most as they are, and accepts at most one that was midway. |
| Lanes.OfferIsTakenExactlyWhen | src/delivery/delivery.ts:182-214 | In every run an offered job is accepted if and only if its task has unfinished jobs and fewer than a hundred of them wait, or has none and there are fewer than a thousand lanes; a refused one changes nothing else. |
| Lanes.LaneExactlyWhileUnfinished | src/delivery/delivery.ts:150-214 | A lane exists exactly while its task has an accepted job that is not finished, and its queue holds exactly the jobs not started. |
| Lanes.CheckPassesExactlyWhileAccepting | src/delivery/delivery.ts:226-229 | In every run a submission passes the check exactly while the service accepts. |
| Lanes.SteerIsReservedExactlyWhen | src/delivery/delivery.ts:216-224 | In every run a steer is reserved exactly while the service accepts and fewer than a hundred steers run. |
| Lanes.NoJobIsStuck | src/delivery/delivery.ts:150-180 | In every run a task with unfinished jobs has a worker that can take the next one or finish the one it runs. |
| LaneService.DeliveryLanes.Offer | src/delivery/delivery.ts:182-214 | A task with a lane takes a job exactly while fewer than a hundred wait in it, one without exactly while fewer than a thousand lanes exist; a taken job is the last of its queue and of the accepted ones, a refused one leaves lanes and queues alone; the lane invariant is kept. |
| LaneService.DeliveryLanes.Take | src/delivery/delivery.ts:150-155 | The lane invariant is kept; the worker had nothing running and now runs the job that was first in its task's queue. |
| LaneService.DeliveryLanes.Complete | src/delivery/delivery.ts:156-180 | The lane invariant is kept; the worker goes on exactly while its task's queue holds another job. |
| LaneService.DeliveryLanes.CheckAccepting | src/delivery/delivery.ts:226-229 | The lane invariant is kept; a submission is let through, and midway afterwards, exactly while the service accepts. |
| LaneService.DeliveryLanes.ReserveSteer | src/delivery/delivery.ts:216-224 | The lane invariant is kept; a steer is reserved, and runs, exactly while the service accepts and fewer than a hundred steers run, and the count stays the exact number of running steers. |
| LaneService.DeliveryLanes.CompleteSteer | src/delivery/delivery.ts:237-246 | The end of a steer gives back exactly its own reservation: the clamp never fires. |
| LaneService.DeliveryLanes.StopAccepting | src/delivery/delivery.ts:287-290 | From then on no step lets anything new in: nothing passes the check, no steer is reserved, and only a queue-mode submission that was already midway may still be taken. |
| LaneService.DeliveryLanes.PendingInLanes | src/delivery/delivery.ts:292-303 | The summing loop gives the total of the lane counts in whatever order it visits them. |
| Framing.Uint32RoundTrip | src/transport/desktop-ipc/framing.ts:93-125 | A length written as four little-endian bytes reads back as itself. |
| Framing.DecodeContinues | src/transport/desktop-ipc/framing.ts:116-148 | Decoding a longer stream is decoding its beginning and continuing with the leftover; a break stays where it was. |
| Framing.LeftoverIsUnfinished | src/transport/desktop-ipc/framing.ts:129-146 | What is kept between arrivals is one unfinished frame of at most the limit plus three bytes. |
| Framing.ChunkingIsInvisible | src/transport/desktop-ipc/framing.ts:108-149 | For every split of every stream the envelopes, the malformed count and the leftover are those of one push; on a broken stream what was returned is a prefix of the good envelopes. |
| Framing.BrokenPushLosesItsOwn | src/transport/desktop-ipc/framing.ts:122-137 | On a broken stream exactly the envelopes completed before the breaking chunk were returned. |
| Framing.GoodFrameBeforeBreakIsLost | src/transport/desktop-ipc/framing.ts:122-137 | One good frame and a length of zero in one chunk return nothing. |
| Framing.FramesDecodeBack | src/transport/desktop-ipc/framing.ts:76-148 | Encoded bodies within bounds decode back in order with nothing left. |
| Framing.ReadableFramesDecode | src/transport/desktop-ipc/framing.ts:116-148 | Framed bodies that all read decode to their envelopes in order, with the malformed ones counted and the rest of the stream decoded after them. |
| Framing.StreamBreaksExactlyAt | src/transport/desktop-ipc/framing.ts:122-146 | After such frames a length of zero or above the limit breaks the stream, and so does an unreadable body; a frame that is not complete waits for more. |
| Framing.EncodeFrame | src/transport/desktop-ipc/framing.ts:89-97 | The buffer filled in place is the length prefix and the body, made exactly for bodies within the limit. |
| Framing.Scan | src/transport/desktop-ipc/framing.ts:122-147 | The decoding loop computes the recursive decoding of the buffer. |
| Framing.FrameDecoder.Push | src/transport/desktop-ipc/framing.ts:116-148 | An arrival decodes leftover and chunk together, counts malformed envelopes even when it throws, and always leaves an unfinished frame. |
| Owners.RegistryStaysConsistent | src/transport/desktop-ipc/thread-owners.ts:18-107 | In every reachable state owners and unroutable marks are disjoint, a task with waiters has neither and the registry is open, and every waiter issued either waits or is settled, never both. |
| Owners.SettledOnce | src/transport/desktop-ipc/thread-owners.ts:94-120 | A settlement never changes, whatever happens later. |
| Owners.OwnerIsFirstRoutable | src/transport/desktop-ipc/thread-owners.ts:51-85 | The pinned owner is the source of the first routable snapshot since the last drop, invalidation, reset or close, and there is none exactly when there was no such snapshot. |
| Owners.OwnerResultIsEvidence | src/transport/desktop-ipc/thread-owners.ts:70-107 | Every waiter given an owner was given the first routable source as of that moment. |
| Owners.UnroutableIsLastMark | src/transport/desktop-ipc/thread-owners.ts:18-81 | A task is unroutable exactly when nothing unmarked it since it was last invalidated, reset for a refresh, or seen without a source while unowned. |
| Owners.SettlementHasItsCause | src/transport/desktop-ipc/thread-owners.ts:23-120 | Each settlement names its cause: the owner pinned then, a closed registry, a reset, the waiter's own timer, or a task marked unroutable. |
| Owners.WaiterIsToldExactlyBy | src/transport/desktop-ipc/thread-owners.ts:18-120 | After every history a waiter is settled by the next event if and only if that is its own timer, a reset, the close, an invalidation of its task or a snapshot of it, each with its own answer. |
| Owners.NewWaitIsToldExactly | src/transport/desktop-ipc/thread-owners.ts:88-107 | After every history a new wait is told the owner if there is one, else of the close, else of the mark, and waits with none of these. |
| OwnerRegistry.DesktopThreadOwners.Observe | src/transport/desktop-ipc/thread-owners.ts:51-81 | Observing pins, marks unroutable or ignores as specified, and wakes all waiters of that task and no other. |
| OwnerRegistry.DesktopThreadOwners.Wait | src/transport/desktop-ipc/thread-owners.ts:87-107 | A wait is told at once what is known, and otherwise joins its task's group. |
| OwnerRegistry.DesktopThreadOwners.TimeOut | src/transport/desktop-ipc/thread-owners.ts:96-103 | A timer settles only its own waiter, once, and forgets an emptied group. |
| OwnerRegistry.DesktopThreadOwners.ResolveThread | src/transport/desktop-ipc/thread-owners.ts:109-114 | Exactly the waiters of one task are settled. |
| OwnerRegistry.DesktopThreadOwners.ResolveWaiters | src/transport/desktop-ipc/thread-owners.ts:116-120 | The loop over groups settles every waiter exactly once, in whatever order. |
| OwnerRegistry.DesktopThreadOwners.Drop | src/transport/desktop-ipc/thread-owners.ts:18-21 | Dropping forgets owner and mark and wakes nobody. |
| OwnerRegistry.DesktopThreadOwners.Invalidate | src/transport/desktop-ipc/thread-owners.ts:23-27 | Invalidating marks the task unroutable and tells its waiters so. |
| OwnerRegistry.DesktopThreadOwners.NeedsRefresh | src/transport/desktop-ipc/thread-owners.ts:29-31 | Whatever history led here, a refresh is needed exactly if nothing unmarked the task since it was last invalidated, reset for a refresh, or seen without a source while unowned. |
| OwnerRegistry.DesktopThreadOwners.BeginRefresh | src/transport/desktop-ipc/thread-owners.ts:33-35 | Beginning a refresh lifts the mark and settles nobody. |
| OwnerRegistry.DesktopThreadOwners.ResetOwners | src/transport/desktop-ipc/thread-owners.ts:37-42 | A reset clears owners, leaves exactly the given tasks unroutable and settles every waiter. |
| OwnerRegistry.DesktopThreadOwners.Close | src/transport/desktop-ipc/thread-owners.ts:44-49 | Closing settles every waiter and every later wait without an owner. |
| SessionRequest.MutationTargetsEvidence | src/transport/desktop-ipc/session-request.ts:58-107 | A mutation is targeted only at an owner its wait was given; a wait that gave none leaves the task unowned, unroutable and without waiters. |
| SessionRequest.BudgetFitsWire | src/transport/desktop-ipc/session-request.ts:17-56 | What is left of a granted deadline is never refused by the connection as out of bounds, and never extends the requested time. |
| SessionRequest.BudgetIsGrantedExactlyWhen | src/transport/desktop-ipc/session-request.ts:17-56 | A request may still be submitted exactly if its timeout is an ordered number no smaller than the least and at least that least is left of the shorter of it and the most; then exactly what is left is granted, and a mutation never gets more than half a minute. |
| SessionRequest.ReadTargetsOwner | src/transport/desktop-ipc/session-request.ts:58-107 | After every history a read goes to the first routable source since the last clear if its task is followed and has one, and otherwise to nobody in particular. |
| SessionRequest.MutationIsTargetedExactly | src/transport/desktop-ipc/session-request.ts:58-107 | A mutation goes to the owner its wait gave exactly if the task is followed, within its budget and the wait gave one; every refusal says which of these failed. |
| Wire.TableIsHonest | src/transport/desktop-ipc/wire.ts:226-398 | In every run the table is bounded, empty once ended, and an error says not-written exactly when the frame never reached the socket's write or that very call threw. |
| Wire.NotWrittenThoughReached | src/transport/desktop-ipc/wire.ts:273-297 | In every run a request whose frame reached the socket's write is called not-written if and only if it was admitted and encoded and its own write threw. |
| Wire.ThrowingWriteSaysNotWritten | src/transport/desktop-ipc/wire.ts:289-297 | A first request within bounds whose write throws is such an input. |
| Wire.SettledExactlyOnce | src/transport/desktop-ipc/wire.ts:226-398 | Once issued a request is open or settled, a settlement never changes, and at the end everything is settled. |
| Wire.SettlementHasItsCause | src/transport/desktop-ipc/wire.ts:226-398 | A request is settled only by an event its settlement names: its own response, timer, write failure or refusal, or the end of the connection. |
| Wire.OpenRequestIsSettledExactlyBy | src/transport/desktop-ipc/wire.ts:237-398 | In every run an open request is settled by its response, its timer, its write error or the end of the connection, each with its own answer and leaving the table, and by nothing else. |
| Wire.RequestIsAdmittedExactlyWhen | src/transport/desktop-ipc/wire.ts:226-330 | In every run a request is open afterwards if and only if the connection lasts, its timeout is within bounds, the table has room, it is encoded and its write returns; every other one is settled at once as not-written with the first reason that applies. |
| Wire.RawConnection.ValidateRequest | src/transport/desktop-ipc/wire.ts:301-330 | A refusal is final before anything happens: the request never enters the table nor reaches the socket and is settled not-written with that reason. Without one, a frame that encodes is handed to the socket, and the table stays within its limit. |
| Wire.RawConnection.Request | src/transport/desktop-ipc/wire.ts:226-299 | Registering, encoding and writing end in the specified state, with the mark set only once the write returned. |
| Wire.RawConnection.Respond | src/transport/desktop-ipc/wire.ts:353-361 | A response resolves its open request and takes it from the table; one that belongs to none is an orphan and changes nothing. |
| Wire.RawConnection.Expire | src/transport/desktop-ipc/wire.ts:237-247 | A timeout takes its open request from the table and fails it as timed out, with the label its mark gives. |
| Wire.RawConnection.FailWrite | src/transport/desktop-ipc/wire.ts:274-285 | A write error takes its open request from the table and fails it as not written through, with the label its mark gives. |
| Wire.RawConnection.RejectEverything | src/transport/desktop-ipc/wire.ts:389-398 | The rejecting loop settles every open request once with its own label and empties the table. |
| Wire.RawConnection.Finish | src/transport/desktop-ipc/wire.ts:377-387 | Ending twice is ending once. |
| Wire.RawConnection.Shut | src/transport/desktop-ipc/wire.ts:183-189 | Closing after an end settles nothing again. |
| TaskEvents.SameTurnIsEquality | src/app-server/local-events.ts:24-28 | Two turns count as the same exactly when nothing about them differs. |
| TaskEvents.DiffReproducesExactly | src/app-server/local-events.ts:30-41 | For any histories and any turn: replaying the diff gives the turn as the next history ends with it if and only if that history does not list it otherwise before ending as the previous one did. |
| TaskEvents.DiffReplaysExactly | src/app-server/local-events.ts:30-41 | The same for whole histories, duplicates included. |
| TaskEvents.DiffReproduces | src/app-server/local-events.ts:30-41 | With distinct turns, replaying a diff over what a consumer knows gives every turn of the next history as it is there. |
| TaskEvents.ChangesComeFromNext | src/app-server/local-events.ts:30-41 | A diff reports only turns of the next history, as they are there and never as the previous one ended with them. |
| TaskEvents.DuplicateHidesChange | src/app-server/local-events.ts:34-39 | A history listing one turn twice is an input on which the replay differs. |
| TaskEvents.NoRefreshIsLost | src/app-server/local-events.ts:54-96 | In every run at most one refresh waits, and a state notice since the latest load began still has one waiting before close or removal. |
| TaskEvents.EndsAreNotLost | src/app-server/local-events.ts:51-84 | In every run a removal is reported at most once and otherwise still waits in the queue, and a close waits there until the stream has ended. |
| TaskEvents.AtRestIsCurrent | src/app-server/local-events.ts:70-108 | A stream at rest that was told of every change has delivered the server's current history. |
| TaskEvents.StreamEndsExactlyBy | src/app-server/local-events.ts:75-108 | In every run the stream ends exactly when it takes the close from its queue or a load fails; a removed task alone does not end it. |
| TaskEvents.SignalsAreServed | src/app-server/local-events.ts:77-108 | In every run a removal taken from the queue is reported, a refresh leads to a load exactly while task and connection last, and a loaded history is delivered as it was read. |
| TaskEvents.DiffTells | src/app-server/local-events.ts:30-41 | Whatever a consumer knew, after a diff it knows a turn as the next history ends with it if and only if the diff does not hide that, and the turn was listed anew or known right before. |
| TaskEvents.TurnIsToldExactly | src/app-server/local-events.ts:75-108 | In every run, whatever the histories list, what was emitted gives a turn as the latest delivered history ends with it if and only if the last diff to list it anew did not hide that. |
| TaskEvents.EmittedReproducesLatest | src/app-server/local-events.ts:75-108 | In every run, whatever the histories list, folding all that was emitted gives every turn as the latest delivered history ends with it if and only if none is stale in that sense; if every history lists its turns once, it gives every listing as it is there. |
| TaskEvents.EmittedReplaysUntilHidden | src/app-server/local-events.ts:75-108 | In every run, whatever the histories list, what was emitted replays the latest delivered history until the first delivered diff that hides a change, and not after that one. |
| TaskEvents.TaskEventStream.Receive | src/app-server/local-events.ts:54-74 | The callback keeps the queue invariants: after a state notice exactly one refresh waits, and after a removal or a close none is added. |
| TaskEvents.TaskEventStream.Take | src/app-server/local-events.ts:77-96 | A load begins only while task and connection last, with no refresh left waiting; a reported removal waits no more. |
| TaskEvents.TaskEventStream.Deliver | src/app-server/local-events.ts:98-108 | Delivering a load brings a consumer who was up to date up to date again, exactly if the diff hides no change. |
| IdleWait.ActiveIsLastReport | src/delivery/coordinator-queue.ts:35-48 | After every event stream the tracked set is exactly the turns last reported in progress since the last snapshot. |
| IdleWait.AwaitState | src/delivery/coordinator-queue.ts:50-97 | The wait ends at the first event that decides: a removal, or an initialized stream with nothing active, after an earlier activity if one is required. |
| IdleWait.DecidesExactlyWhen | src/delivery/coordinator-queue.ts:60-97 | The wait ends exactly at a removal, or once a snapshot was seen and no turn is last reported running, after some turn was if an activity is asked for. |
| IdleWait.ActiveAgainstLatest | src/delivery/coordinator-queue.ts:35-48 | For a consumer who knows every turn as the latest history ends with it, the tracked set is exactly the turns that end it running, those that vanished from it while running, and those a snapshot listed running before ending them otherwise. |
| IdleWait.DistinctActive | src/delivery/coordinator-queue.ts:35-48 | If moreover every snapshot and the latest history list their turns once, it is exactly the running and the vanished turns. |
| IdleWait.IdleEvidenceIsReal | src/app-server/local-events.ts:30-109 | In every run, whatever the histories list, a turn that ends the latest delivered history running is tracked unless the last diff to list it anew hid it; so an empty set is true of that history as it ends if and only if no turn that ends it running is hidden so. If every history lists its turns once, an empty set always means nothing running. |
| IdleWait.IdleAfterDiffExactly | src/app-server/local-events.ts:30-41 | For a consumer who was up to date, an empty set after a whole diff is true of the next history as it ends if and only if the diff hides no turn that ends running. |
| IdleWait.IdleMidDiffExactly | src/delivery/coordinator-queue.ts:60-67 | For a consumer who was up to date, idleness seen after part of a diff is idleness of the next history as it ends if and only if every unread report that runs at last is hidden and no turn that ends running is; if that history lists its turns once, if and only if no unread report is running. |
| IdleWait.IdleVerdictInsideDiff | src/delivery/coordinator-queue.ts:50-97 | In every run, whatever the histories list, an idle verdict given inside a diff is true of that diff's history as it ends if and only if every unread report that runs at last is hidden by the diff and no turn that ends the history running is stale; if every history lists its turns once, if and only if no unread report is running. |
| IdleWait.IdleBetweenTwoTurns | src/delivery/coordinator-queue.ts:60-67 | It does fail: one turn ends and another starts in one diff, and the wait ends in between. |
| IdleWait.HiddenTurnEndsWait | src/app-server/local-events.ts:30-109 | And a history that lists a turn as done before it lists it running is a run in which the wait ends on a whole diff while the turn runs. |
| IdleWait.InspectionIsExact | src/delivery/coordinator-queue.ts:99-138 | The recheck says idle, or active, exactly when the stream's first event is a snapshot without, or with, a running turn. |
| Decoder.DeliveryIds | src/transport/desktop-task-decoder.ts:101-120 | The worklist ends on every tree and finds exactly the identities of the recursive definition, once each. |
| Decoder.VisitFields | src/transport/desktop-task-decoder.ts:111-117 | Visiting one object neither loses nor invents an identity, and shrinks what is left. |
| Decoder.SnapshotBindings | src/transport/desktop-task-decoder.ts:44-50 | A binding is read exactly for each entity key and each identity inside that entity. |
| Decoder.ReadSnapshot | src/transport/desktop-task-decoder.ts:44-64 | Everything a snapshot binds is among the identities it lists. |
| Decoder.PatchDeliveryIds | src/transport/desktop-task-decoder.ts:122-132 | A patch lists the identity it writes directly and those inside its value, and only under a turn entity. |
| Decoder.PatchDeliveryBindings | src/transport/desktop-task-decoder.ts:134-144 | A patch binds exactly its identities to the key after the first entity marker. |
| Decoder.IdsAreCarried | src/transport/desktop-task-decoder.ts:101-120 | The identities of a tree are exactly those some path through its arrays and objects leads to. |
| Decoder.PatchCarriesExactly | src/transport/desktop-task-decoder.ts:122-132 | A patch carries an identity exactly if its path goes through the turn entities and either ends in the message identity with that text as its value, or its value carries it. |
| Decoder.KeyFollowsFirstMarker | src/transport/desktop-task-decoder.ts:134-144 | The key of a patch is exactly the text after the first entity marker of its path. |
| Decoder.ReadPatches | src/transport/desktop-task-decoder.ts:37-39 | Everything a list of patches binds is among the identities it lists. |
| Decoder.ReadChangesAreListed | src/transport/desktop-task-decoder.ts:44-144 | So every decoded change meets what the replica and the injection proof rely on. |
| RateLimit.LimiterRefinesFullHistory | src/rate-limit.ts:9-26 | For calls in time order the pruned limiter decides every call as one remembering every accepted call forever. |
| RateLimit.DecidesAlikeExactlyFrom | src/rate-limit.ts:10-19 | A table pruned up to a cutoff decides the next call as the full history does, whatever both hold, if and only if the call's own cutoff is no earlier. |
| RateLimit.ClockMayGoBackExactlyTo | src/rate-limit.ts:9-26 | After any calls in time order, whatever the limit, the next call is decided as by full history if and only if it is no earlier than the latest time those calls may have. |
| RateLimit.NoWindowOverflows | src/rate-limit.ts:9-26 | For calls in time order, no window that ends at a call the pruned limiter accepted holds more than the limit of calls it accepted for that task. |
| RateLimit.AcceptedExactlyWhenRoom | src/rate-limit.ts:16-26 | For calls in time order a call is accepted if and only if the window that ends with it holds fewer than the limit of the calls accepted before it for its task. |
| RateLimit.BackwardsClockForgets | src/rate-limit.ts:10-15 | Three calls of two tasks are an input on which it decides differently. |
| RateLimit.ThreadRateLimiter.Prune | src/rate-limit.ts:11-15 | The pruning loop leaves each task exactly its recent hits and forgets tasks without any. |
| RateLimit.ThreadRateLimiter.AllowCall | src/rate-limit.ts:9-26 | One call updates the map and answers as the pruned limiter is specified. |
| Registry.EveryReachableTableIsSound | src/registry.ts:114-261 | In every run each row belongs to the latest issue of its token with what is left of it, and every token that can still be claimed has its row. |
| Registry.TableAnswersAsLedger | src/registry.ts:175-226 | A token is only ever found as a ledger of all issues, claims and withdrawals has it, and, at a time no earlier than every search before, exactly then. |
| Registry.ClockMayGoBackExactlyTo | src/registry.ts:175-261 | Every lookup at a time, after any run whose searches were no later than another, is answered as by the ledger if and only if the first time is no earlier than the second. |
| Registry.SweptTooEarly | src/registry.ts:255-261 | A sweep at the expiry and then a lookup before it are an input where it is not. |
| Registry.ListingIsExact | src/registry.ts:228-234 | A listing at such a time shows exactly the tokens that are still usable, one per hook. |
| Registry.TokenIsConserved | src/registry.ts:189-226 | A token issued with a limit is never claimed more often in any run, and a living row holds exactly the limit minus the claims granted so far. |
| Registry.NeverClaimedWhenExpired | src/registry.ts:202-206 | No claim is granted at or after the expiry the token was issued with, whatever the clock did before. |
| Registry.IssuesLast | src/registry.ts:131-172 | What was issued never changes, and a withdrawn token never comes back. |
| Registry.ReissueKillsOldTokens | src/registry.ts:131-161 | Issuing an id again ends every earlier token of that id for good and leaves the id with its task. |
| Registry.IssuesExactly | src/registry.ts:114-173 | Issuing succeeds if and only if the request is well formed, spelled out for every field, and no other task has its id; then the row is as asked for, and otherwise nothing changes. |
| Registry.RemovalsAreCounted | src/registry.ts:236-261 | A removal takes exactly the rows it was asked for, leaves every other as it was, and says how many it took. |
| WebhookTable.WebhookRegistry.Issue | src/registry.ts:114-173 | Issuing validates in order, never takes an id from another task, and otherwise replaces the row. |
| WebhookTable.WebhookRegistry.InspectToken | src/registry.ts:175-187 | Inspecting spends nothing and removes only an expired row. |
| WebhookTable.WebhookRegistry.ClaimToken | src/registry.ts:189-226 | A claim returns the row as it was and leaves one delivery fewer, or no row after the last. |
| WebhookTable.WebhookRegistry.SweepExpired | src/registry.ts:255-261 | A sweep removes exactly the rows expired by then and counts them. |
| WebhookTable.WebhookRegistry.RevokeHook | src/registry.ts:236-241 | Revoking removes one hook and says whether there was one. |
| WebhookTable.WebhookRegistry.RevokeHooksOf | src/registry.ts:243-249 | Revoking a task removes exactly its hooks and counts them. |
| Journal.RotationKeepsTheNewest | src/diagnostics/journal.ts:279-298 | A rotation keeps the longest run of newest valid records, written again, that fits three quarters of both limits; any longer one would not fit. |
| Journal.FitsThreeQuarters | src/diagnostics/journal.ts:279-284 | What a rotation aims at is exactly three quarters of each limit. |
| Journal.AppendStaysWithinBounds | src/diagnostics/journal.ts:247-299 | After an append that did not fail the file is within both limits and the cached counters are its exact usage; after one that failed they are unknown. |
| Journal.JournalStaysBounded | src/diagnostics/journal.ts:247-308 | So in every run, whatever file it was opened on and whatever failed before. |
| Journal.JournalIsTheNewestHistory | src/diagnostics/journal.ts:247-337 | If a written record reads back as it was, the file always reads as the newest part of everything that reached it: no gap, no reordering, nothing twice. |
| Journal.NewestSurvivesUnlessTooLong | src/diagnostics/journal.ts:274-299 | The record just appended is the last one, unless it forces a rotation its own line is too long for: then the journal is empty. |
| Journal.LongRecordEmptiesJournal | src/diagnostics/journal.ts:282-298 | Two lines of 800 bytes under a limit of 1,024 are an input that empties it. |
| Journal.Target | src/diagnostics/journal.ts:280-281 | A rotation leaves room below the limit and never aims at nothing. |
| DiagnosticJournals.DiagnosticJournal.ReadAll | src/diagnostics/journal.ts:310-337 | The reading loop gives the valid records in file order, passing over blank and invalid lines. |
| DiagnosticJournals.DiagnosticJournal.KeepNewest | src/diagnostics/journal.ts:282-290 | The backward walk with its early break computes the reference that drops the oldest line until the rest fits. |
| DiagnosticJournals.DiagnosticJournal.EnforceBounds | src/diagnostics/journal.ts:274-299 | Within the limits nothing changes; otherwise file and counters are those of the rotation. |
| DiagnosticJournals.DiagnosticJournal.Append | src/diagnostics/journal.ts:247-265 | An append, failing at any point or not, is the specified one. |

## Left out

- Sockets, processes, the file system, SQLite, HTTP serving and the effect runtime: only the atomic steps they give are modelled; fiber interruption and shutdown are not.
- Adapter bodies (Desktop mutation, app-server client, session reconnects): they answer as the environment chooses, within the contract that a non-submission wrote nothing and a confirmation names the turn it wrote.
- The retry loop of a queued delivery, the body of an attachment command and the chain of promises appear only as steps of transition systems, since other deliveries, changes and commands interleave inside them.
- The order in which waiting runs are given a task gate: the semaphore grants a permit when there is one.
- Lane queues and owner waiters are named by numbers: sharing one queue object between a lane and its worker is sharing its name.
- Clocks are integers and timers are events that may happen at any time; there is no bound on the total time of a delivery, because waiting for the gate has no timeout.
- JSON text, UTF-8, envelope field checks, SHA-256 and random identifiers: an opaque reader, an object whose keys appear once, an injective hash and fresh identities.
- Diagnostics, log lines, the stage and elapsed time of an audit attempt, and sanitizing: an attempt is its route, phase and outcome.
- Writing to the socket is taken not to call back into the connection before it returns; broadcasts and discovery responses are not modelled.
- The attachment's `followed` set and `awaitTurn`: the first decides only which history request is sent, the second only reads.
- A steer without a delivery identity is refused by the original; every command here has one.
- Reading a turn's status and error from JSON, and a patch's delta: the replica starts from decoded changes.
- Owner registration after close: a snapshot may still pin an owner then, as in the code; only waits are affected by closing.
- The order of a registry listing: a listing is a table here, not a sorted sequence.
- The journal's snapshot of the newest records and its permission bits: the file is one sequence of newline-terminated lines with one writer, appended whole or not at all.
- Pagination, port choice, duration parsing, compatibility checks, service lifecycle and command-line parsing: correct but easy.
- Framing.Scan: the loop keeps the rest of the buffer instead of an offset into it.
