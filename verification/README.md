# Verification model of unleasherator

Unleasherator is a Kubernetes operator that runs Unleash feature-flag servers. This project is a Dafny model of its
hardest behaviour and machine-checked proofs about it.

## What is modelled

**The ReleaseChannel rollout.** Two controllers share one store. The ReleaseChannel controller is a phase machine (Idle,
Validating, Canary, Rolling, Completed, Failed, RollingBack) that writes which image each instance is assigned. The
Unleash controller pulls its image from that map on its own schedule, withdraws its readiness, moves its Deployment and
reports ready and connected for a generation.

- `ChannelModel`, `ChannelSteps`: the status and, phase by phase, the decision a reconcile takes and its effect on the
  stored status.
- `ChannelReconciler`, `FleetScans`: the controller in its own form, with an object in hand, a copy on the server, loops and
  in-place updates, proved to leave on the server what `ChannelSteps` says.
- `UnleashSteps`, `UnleashReconciler`: the Unleash reconcile cut where the other controller may run in between, as
  functions and as methods that update the instance.
- `Rollout`: both controllers, the cluster and the operators interleaved, and what a run is.
- `PhaseSafety`, `RolloutGuards`: what every single reconcile guarantees. `PhaseOutcomes`, `FailureOutcomes`: exactly when
  each phase ends where. `Parallelism`, `Readiness`, `ReportRuns`, `RunSafety`, `StrandedMember`,
  `CanaryRuns`, `Progress`, `RetryTermination`, `BatchBudget`, `TimeBudget`: what every run guarantees.

**Versions and fleets.** `ImageVersions` and `FleetImages` read a version off an image tag, order versions, and read a
baseline and a most common image off a fleet. `DowngradeGuard` says what is refused, in the numbers a tag holds.

**Federation.** `ClusterList`, `FederationModel`, `FederationBuild` (what a subscriber builds from a message),
`FederationReceive` and `FederationReceiver` (what a message does to a cluster, as functions and as the handler with its
loops), `FederationRuns` (any sequence of deliveries), `FederationSecrets` (what a message leaves of credentials),
`FederationOutcomes` (exactly what one message adds, changes and deletes).

**Credentials.** `SecretMigration` and `Migrator` move a legacy admin secret one API call at a time, `MigrationSafety` among
crashes, deliveries and other writes; `MigrationOutcomes` says exactly which secrets are moved. `TokenRotation` and `TokenReconciler` rotate an API token; `StringLists` holds the
list comparison that rotation relies on.

## Conventions

A ReleaseChannel reconcile and a federation delivery are one step each (one worker, `internal/controller/releasechannel_controller.go:2322`; one ordering key,
`internal/federation/publisher.go:70`). What such a step reads is current. An Unleash reconcile is five
steps. Instants are whole seconds. The order instances are listed in, the faults of API calls and HTTP checks, and every
Deployment status the cluster reports are arbitrary inputs. Classes carry the fields a controller updates in place; each
method is proved against a function, and the theorems are about those functions. Theorems named `...Iff` or `...Exactly` spell their
conditions out in the fields of the inputs instead of using the predicates the functions are made of.

The failure reason is a tag. The texts behind the tags do not overlap: the text of an upgrade timeout contains none of the
transient patterns of `internal/controller/releasechannel_controller.go:846-863`.

## What the proofs turned up

- `docs/releasechannel.md:36` says an instance that is not in the map falls back to `spec.image`. The code holds it on the
  baseline or on its own last image, or makes it wait (`internal/resources/unleash.go:546-592`); the model follows the code.
- Validating chooses its next phase after its last write, so a channel in that phase never starts a rollout
  (`RolloutGuards.ValidatingIsADeadEnd`). No phase leads there (`RolloutGuards.PhaseGraph`).
- A rollout that starts without a baseline while some instances already run the target and all others report nothing
  records its own target as the baseline (`RolloutGuards.TargetBecomesBaselineIff`); instances without an entry then pull
  the target ahead of their batch (`RolloutGuards.UnassignedInstancePullsTargetIff`). Progress is not lost by it, but
  instances come to the target that no batch accounts for, so the theorems that count batches ask that the target is not
  its own baseline.
- A member of the open batch that is deleted, counted out and created again under its name has lost its entry. It pulls
  the baseline while the channel waits for the target (`StrandedMember.RejoinedMemberIsStranded`), until the rollout is
  given up (`StrandedMember.StrandedUntilGivenUp`). Created again before the count, it keeps its entry
  (`RunSafety.JoinKeepsBatchAssignedIff` gives the exact condition).
- A provisioning message for two tenants can delete a secret it has just written, when the stored resource of one
  references the secret of the other (`FederationSecrets.BorrowedSecretIsLost`; exact condition in
  `FederationSecrets.ProvisionedResourceWorks`).
- If federation delivers under the very name a migration started from, between the creation of the replacement and the
  repoint, it deletes the replacement as superseded, and the migration repoints the resource to a secret that is gone
  (`MigrationSafety.DeliveryInPlaceStrandsCredential`). If the migration carries an older token, such a delivery makes its
  premise stand again (`MigrationSafety.StaleCopyStrandsCredential`). `MigrationSafety.RepointAfterFederationInPlace` gives
  the exact condition, and `MigrationSafety.ExcludedDeliveryCanBreak` shows that no harmless delivery is excluded.
- With token updates disabled the newest token is written even when only an older one fits
  (`TokenRotation.DisabledUpdatesTakeTheNewest`).
- `StringSliceEquals` accepts different lists when the first repeats an entry (`StringLists.DuplicatesAreConfused`).

## Model

| member | source | states |
|---|---|---|
| Parallelism.AtMostOneBatchInFlight | internal/controller/releasechannel_controller.go:1154-1309 | over any run of a rollout without canaries and break glass, failures, retries and rollbacks to another image included, at most maxParallel instances have been handed the target without having settled on it since |
| Parallelism.StepMovesOneBatch | internal/controller/releasechannel_controller.go:1276-1309 | any step of such a rollout hands the target to nobody new, or to at most maxParallel instances and then only when everybody already assigned it is ready and connected on it |
| Parallelism.RollbackToTargetMovesEverybody | internal/controller/releasechannel_controller.go:1361-1373 | a rollback whose image is the target hands it to everybody at once, so the exception for such rollbacks cannot be dropped |
| Parallelism.RunNeverRollsBack | internal/controller/releasechannel_controller.go:2137-2144 | with automatic rollback off, no run ever enters RollingBack |
| Readiness.ReadyMeansVerified | internal/controller/unleash_controller.go:843-859 | in every reachable state, an instance that is Reconciled at its current generation had its Deployment seen fully available on the very image it has resolved, at a moment since which that image has not changed |
| Readiness.StepKeepsWorkersAgree | internal/controller/unleash_controller.go:1011-1046 | every step keeps a reconcile in progress consistent with the published assignment for as long as the generation it speaks for is current |
| Readiness.StepGivesReadinessACause | internal/controller/unleash_controller.go:1095-1129 | readiness appears only by looking at an available Deployment carrying the resolved image, and survives a step only while that image stays |
| Readiness.LookReports | internal/utils/k8s.go:37-64 | exactly when a look at the Deployment makes an instance ready, and when terminally failed, field by field |
| Readiness.ShortfallsKeepFromReady | internal/utils/k8s.go:37-54 | a Deployment the cluster has not caught up with, or with any replica short or left over, makes nobody ready |
| ReportRuns.WritesExactlyWhatDiffers | internal/controller/unleash_controller.go:887-912 | a reconcile writes the Deployment exactly when something differs, under a new generation, and looks at it only otherwise |
| ReportRuns.ReadyAfterChangeWasReported | internal/utils/k8s.go:37-40 | over any run, once a reconcile has changed the Deployment no look makes the instance ready before the cluster has reported on the new generation |
| ReportRuns.ConnectedMeansAnswered | internal/controller/unleash_controller.go:1095-1129 | over any run, a connected instance has answered since it was given its image and its spec was last edited |
| ReportRuns.FailedMeansGivenUp | internal/utils/k8s.go:57-75 | over any run, a terminally failed instance was seen given up by the cluster on the image it has kept, so no rollout fails for an earlier image or spec |
| ReportRuns.OutrunReconcileGainsNothing | internal/controller/unleash_controller.go:1011-1129 | a reconcile whose instance has been edited since it began assigns nothing and makes nobody ready, connected or failed |
| ReportRuns.EditTakesReportsBack | internal/controller/unleash_controller.go:1095-1129 | editing an instance takes back everything reported about it |
| ReportRuns.PublishingTakesReportsBack | internal/controller/unleash_controller.go:834-866 | a reconcile that finds its assignment published takes no report back, and one that publishes another takes all back |
| ReportRuns.FailingCallsReportNoVerdict | internal/controller/unleash_controller.go:1095-1129 | a failing call leaves an instance neither ready nor terminally failed |
| RunSafety.CompletedMeansVerified | internal/controller/releasechannel_controller.go:1237-1275 | a rollout completes only after every instance was seen available on the target, which each has kept since |
| RunSafety.ClearedBatchWasVerified | internal/controller/releasechannel_controller.go:1173-1235 | Rolling lets go of a batch only after every member still present was seen available on the batch target |
| RunSafety.PromotedCanariesWereVerified | internal/controller/releasechannel_controller.go:1050-1096 | Canary hands over to Rolling only after every canary was seen available on the target |
| RunSafety.RestoredMeansVerified | internal/controller/releasechannel_controller.go:1375-1404 | a rollback ends only after every instance was seen available on the image rolled back to |
| RunSafety.ReachableBatchesCanSettle | internal/controller/releasechannel_controller.go:1842-1898 | in every state reachable by such joins, the image each present batch member pulls in Rolling is the image the channel waits for |
| RunSafety.BatchStaysAssigned | internal/controller/releasechannel_controller.go:1707-1785 | along any run every present member of the open batch is assigned the batch target, as long as whoever joins under a member's name finds that member's entry |
| RunSafety.JoinKeepsBatchAssignedIff | internal/controller/releasechannel_controller.go:2085-2093 | a join leaves the open batch assigned exactly when it is not under a member's name or finds the entry for the batch target |
| RunSafety.BatchesStayAssignedIff | internal/controller/releasechannel_controller.go:1707-1785 | along a run the open batch stays assigned throughout exactly when every join is of that kind |
| StrandedMember.RejoinedMemberIsStranded | internal/controller/releasechannel_controller.go:2085-2093 | a run of three steps in which a batch member leaves, is counted out and comes back to pull the baseline while the channel waits for the target |
| StrandedMember.StrandedUntilGivenUp | internal/controller/releasechannel_controller.go:1173-1235 | over any run, such a member stays stranded, short of a change of target, break glass or leaving again, until the rollout is given up |
| RunSafety.BaselineIsSound | internal/controller/releasechannel_controller.go:1493-1556 | in every reachable state a recorded previousImage was the image of every reporting instance at the reconcile that wrote it, and has stood since |
| CanaryRuns.CanaryHoldsOutsidersBack | internal/controller/releasechannel_controller.go:1034-1048 | while the phase stays Canary, an instance outside the canaries that is off the target and not assigned it, or that a Canary reconcile assigns now, neither runs nor pulls the target, whoever else joins, leaves or is relabelled, and even if it leaves itself and comes back off the target |
| CanaryRuns.RollingIsReachedThroughCanary | internal/controller/releasechannel_controller.go:586-592 | over any run with canaries enabled, whoever reaches Rolling has passed from Canary to Rolling on the way, and stayed in Rolling since |
| CanaryRuns.CanariesComeFirst | internal/controller/releasechannel_controller.go:1050-1096 | so whenever Rolling is on, every canary of the moment of hand-over had been seen available on the target |
| Progress.ProgressIsNeverLost | internal/controller/releasechannel_controller.go:2085-2093 | without canaries and as long as no rollback is under way, an instance that is assigned the target and runs it keeps doing so for as long as it references the channel, through failures, retries, joins and rollouts started again with whatever baseline |
| Progress.ProgressCountNeverFalls | internal/controller/releasechannel_controller.go:2046-2061 | with fixed membership the number of instances assigned and running the target then never falls |
| Progress.EverybodyOnTargetIsUp | internal/controller/releasechannel_controller.go:2055-2061 | as long as the target is not its own baseline, everybody running the target stays assigned it |
| Progress.OnTargetNeverShrinks | internal/resources/unleash.go:546-590 | with fixed membership not even an instance without an entry leaves the target, while there is no baseline or the target is its own |
| Progress.BaselineStaysApart | internal/controller/releasechannel_controller.go:566-568 | the target does not become the baseline of a rollout that starts from another one, nor of a first deployment before Idle is passed again |
| Progress.StepKeepsProgress | internal/resources/unleash.go:546-590 | outside RollingBack no step of either controller, the cluster or the operators takes an up-to-date instance that stays off the target or its assignment |
| RetryTermination.RetryLowersRank | internal/controller/releasechannel_controller.go:689-784 | every automatic retry of an unchanged image strictly lowers (memory ahead of the fleet, members not remembered, transient attempts left) lexicographically |
| RetryTermination.RetriesAreBounded | internal/controller/releasechannel_controller.go:620-840 | a channel whose spec and membership stay the same and whose up-to-date count never falls retries at most 3 * members + 16 times, however long it runs and completions included; the raised-budget branch never fires |
| RetryTermination.SteadyRetriesAreBounded | internal/controller/releasechannel_controller.go:689-784 | the same bound with the monotone count derived rather than assumed, first deployments and rollouts that recorded their own target included |
| RetryTermination.ReconcileSpends | internal/controller/releasechannel_controller.go:450-470 | every reconcile in every phase keeps the retry potential from growing, and every retry lowers it |
| BatchBudget.BatchesAccountForAssignments | internal/controller/releasechannel_controller.go:1276-1290 | at every moment, failures and retries included, the number of batches assigned accounts exactly for the instances assigned, while no rollback is under way and the target is not its own baseline |
| BatchBudget.CompletedRolloutTookCeilingOfBatches | internal/controller/releasechannel_controller.go:1276-1309 | a completed rollout of k instances that neither ran the target nor were assigned it took exactly ceil(k / maxParallel) batches |
| BatchBudget.StepTakesOneBatch | internal/controller/releasechannel_controller.go:1280-1290 | a step assigns nobody, or a batch as full as maxParallel and the unassigned instances allow |
| TimeBudget.BudgetSuffices | internal/controller/releasechannel_controller.go:2183-2255 | from the Idle reconcile that opens a rollout on, if every batch takes at most its allowance plus 30s and the final look at most 30s, the elapsed time never exceeds the derived budget as long as that is under its cap |
| TimeBudget.NoTimeout | internal/controller/releasechannel_controller.go:1118-1131 | so no reconcile that may come next, at any moment on the way, takes the timeout branch |
| TimeBudget.OpeningIsAssigning | internal/controller/releasechannel_controller.go:1721-1733 | when nobody falls back, a batch record is opened exactly by the steps that assign the target to somebody |
| PhaseSafety.RollingAssignsOneBatch | internal/controller/releasechannel_controller.go:1154-1309 | a Rolling reconcile without break glass newly assigns the target only when no batch is open and everybody assigned it has settled, and then to exactly the next batch, which the batch record names |
| PhaseSafety.BatchClearsOnlyWhenReady | internal/controller/releasechannel_controller.go:1173-1235 | an open batch is dropped with the phase kept only when every listed member has settled on the batch target and, with health checks on, its settle delay is over and its HTTP checks pass |
| PhaseSafety.CompletesOnlyWhenAllSettled | internal/controller/releasechannel_controller.go:1237-1275 | Completed is entered only with every instance settled on the target and healthy |
| PhaseSafety.CanaryMovesOnOnlyWhenSettled | internal/controller/releasechannel_controller.go:1025-1096 | Canary moves to Rolling only with no canaries, or with all of them settled and healthy |
| PhaseSafety.CanaryIsolation | internal/controller/releasechannel_controller.go:1842-1887 | after a deploying Canary reconcile the canaries are assigned and pull the target, everybody else the baseline |
| PhaseSafety.RollbackEndsOnlyWhenRestored | internal/controller/releasechannel_controller.go:1354-1405 | RollingBack reaches Idle only when every instance is assigned the rollback target, has resolved it and is ready |
| PhaseSafety.BaselineIsUnanimousWhenWritten | internal/controller/releasechannel_controller.go:521-568 | every reconcile keeps the baseline, writes the unanimous image of the fleet, or clears it at the end of a rollback |
| PhaseOutcomes.IdleStartsIff | internal/controller/releasechannel_controller.go:473-601 | an Idle reconcile ends in Canary, in Rolling or in Failed exactly when listing works, somebody runs another image, the target is not refused, and canaries are enabled or not; starting changes no assignment |
| PhaseOutcomes.IdleAdoptsEverybody | internal/controller/releasechannel_controller.go:1411-1437 | when everybody runs the target everybody ends with an entry, and no entry that was there changes |
| PhaseOutcomes.IdleCounts | internal/controller/releasechannel_controller.go:2027-2106 | an Idle reconcile that can list leaves the counts of the fleet it found and no entry of a departed instance |
| PhaseOutcomes.TimeoutIff | internal/controller/releasechannel_controller.go:1118-1131 | Canary and Rolling end for want of time exactly when more than the budget has passed since the start, and then go back exactly when that is asked for and possible |
| PhaseOutcomes.GatePassesIff | internal/controller/releasechannel_controller.go:1787-1838 | a group of instances lets the rollout go on exactly when everybody runs the image, ready and connected, and with health checks on the delay is over and everybody answers |
| PhaseOutcomes.GateFailsFor | internal/controller/releasechannel_controller.go:1820-1838 | it rejects exactly for a terminal failure in the group |
| PhaseOutcomes.BatchClearsIff | internal/controller/releasechannel_controller.go:1173-1235 | an open batch is cleared with the rollout going on exactly when everybody of it still present passes; a terminal failure ends the rollout |
| PhaseOutcomes.CompletesIff | internal/controller/releasechannel_controller.go:1237-1275 | a rollout completes exactly when no batch is open and the whole fleet passes |
| PhaseOutcomes.AssignsIff | internal/controller/releasechannel_controller.go:1276-1309 | the next batch is assigned exactly when none is open, nobody assigned lags, somebody is off the target and the write succeeds; when somebody lags, exactly the laggards are made a batch again |
| PhaseOutcomes.NextBatchTakesFirst | internal/controller/releasechannel_controller.go:1276-1290 | the next batch takes those off the target in the order they are listed, at most maxParallel of them, or one when that is not positive |
| PhaseOutcomes.CanaryMovesIff | internal/controller/releasechannel_controller.go:1025-1096 | Canary hands over to Rolling exactly when nobody is a canary, or the assignments are written and every canary passes |
| PhaseOutcomes.RollbackEndsIff | internal/controller/releasechannel_controller.go:1311-1405 | RollingBack ends in Idle exactly when there is an image to restore, listing works and everybody runs it and is ready; until then everybody stays assigned it |
| PhaseOutcomes.UnanimousFleetIsRecorded | internal/controller/releasechannel_controller.go:1493-1556 | whenever the whole fleet reports one image other than the target, the reconcile records it as the image to go back to |
| PhaseOutcomes.CanaryCountsUnlessChecking | internal/controller/releasechannel_controller.go:1050-1096 | counts are fresh after a Canary reconcile, except while settled canaries wait for their checks |
| PhaseOutcomes.RollingCounts | internal/controller/releasechannel_controller.go:1173-1309 | counts are fresh after every Rolling reconcile that looked at instances, except one that only opens a batch of laggards |
| FailureOutcomes.RetriesIff | internal/controller/releasechannel_controller.go:620-841 | exactly when a failed rollout starts over, goes on, retries, goes back or stays |
| FailureOutcomes.FailedImageIsRemembered | internal/controller/releasechannel_controller.go:640-700 | which image a failure remembers, and until when |
| FailureOutcomes.ListingErrorIsRecorded | internal/controller/releasechannel_controller.go:881-897 | a listing error in any phase that lists ends in Failed with its reason and the time of the first failure, and changes no assignment |
| FailureOutcomes.AssignmentErrorIsRecorded | internal/controller/releasechannel_controller.go:1707-1785 | so does an assignment that cannot be written |
| FailureOutcomes.TerminalFailureEndsRollout | internal/controller/releasechannel_controller.go:2137-2144 | a terminal failure among those waited for sends the rollout back exactly when that is asked for and there is an image to go back to |
| FailureOutcomes.AttemptsAreCounted | internal/controller/releasechannel_controller.go:745-800 | a transient error is retried up to five times, each time exactly once its wait since the failure is over |
| FailureOutcomes.ProgressAfterTimeout | internal/controller/releasechannel_controller.go:689-744 | what a rollout that ran out of time remembers when it goes on |
| FailureOutcomes.CompletionWipesTheSlate | internal/controller/releasechannel_controller.go:603-618 | however many attempts a rollout needed, the first transient failure after it completed is retried after half a minute and not before |
| FailureOutcomes.BreakGlassReachesEverybody | internal/controller/releasechannel_controller.go:1133-1152 | break glass hands the image to everybody in one step, whatever batches, canaries and budget say |
| FailureOutcomes.BudgetForBatches | internal/controller/releasechannel_controller.go:2152-2230 | the budget of a rollout that needs so many batches, with its floor, its cap and the pinned limit |
| RolloutGuards.DowngradeIsRefused | internal/controller/releasechannel_controller.go:1450-1488 | with downgrades not allowed and the target older than the fleet image, no Idle, Validating, Canary or Rolling reconcile changes any assignment, break glass included, and the channel ends Idle without a batch |
| RolloutGuards.StepKeepsBatchAssigned | internal/controller/releasechannel_controller.go:1707-1785 | every reconcile keeps the members of the open batch assigned its target, and opens batches in Rolling only |
| RolloutGuards.BatchMembersPullWhatIsAwaited | internal/controller/releasechannel_controller.go:1798-1804 | the image a batch member pulls is the image the channel waits for |
| RolloutGuards.CanaryInstancesPullWhatIsAwaited | internal/resources/unleash.go:557-574 | the same for every instance after any Canary reconcile that stays in Canary, break glass included |
| RolloutGuards.RolledBackInstancesPullWhatIsAwaited | internal/controller/releasechannel_controller.go:1364-1386 | the same for every instance after a RollingBack reconcile that stays there |
| RolloutGuards.PhaseGraph | internal/controller/releasechannel_controller.go:450-470 | the phases one stored reconcile may lead to from each phase; none leads to Validating |
| RolloutGuards.ValidatingIsADeadEnd | internal/controller/releasechannel_controller.go:917-968 | Validating is left exactly on a listing error or a refused downgrade and never starts a rollout |
| RolloutGuards.TargetBecomesBaselineIff | internal/controller/releasechannel_controller.go:566-568 | the exact condition under which a rollout with no baseline records its own target as the baseline |
| RolloutGuards.UnassignedPullsWhatIsExpected | internal/resources/unleash.go:546-590 | in the phases that hold instances back, an instance without an entry pulls the very image the channel expects of it |
| RolloutGuards.ResolvedImagesCover | internal/controller/releasechannel_version.go:89-107 | the list of images the guards read holds exactly the images of the fleet |
| ChannelReconciler.Reconciler.Reconcile | internal/controller/releasechannel_controller.go:189-287 | one reconcile, errors recorded included, leaves on the API server exactly the specified next status |
| ChannelReconciler.Reconciler.ExecuteIdlePhase | internal/controller/releasechannel_controller.go:473-601 | the Idle executor leaves the specified status on the server, or in hand when it returns an error |
| ChannelReconciler.Reconciler.ExecuteCompletedPhase | internal/controller/releasechannel_controller.go:603-618 | the Completed executor clears the rollout state and keeps the baseline |
| ChannelReconciler.Reconciler.ExecuteFailedPhase | internal/controller/releasechannel_controller.go:620-841 | the Failed executor takes the specified branch: fresh attempt, resume, transient retry, rollback or stay |
| ChannelReconciler.Reconciler.ExecuteValidatingPhase | internal/controller/releasechannel_controller.go:917-968 | the Validating executor stores counts or a refusal; the phase it picks stays in memory |
| ChannelReconciler.Reconciler.ExecuteCanaryPhase | internal/controller/releasechannel_controller.go:971-1096 | the Canary executor leaves the specified status |
| ChannelReconciler.Reconciler.ExecuteRollingPhase | internal/controller/releasechannel_controller.go:1099-1309 | the Rolling executor leaves the specified status |
| ChannelReconciler.Reconciler.ExecuteRollingBackPhase | internal/controller/releasechannel_controller.go:1311-1405 | the RollingBack executor leaves the specified status |
| ChannelReconciler.Reconciler.DeployToInstances | internal/controller/releasechannel_controller.go:1707-1785 | assigns every named instance the image its phase expects on a fresh copy, opens a batch in Rolling, stamps the deploy time when anything changed, and changes nothing when the write fails |
| ChannelReconciler.Reconciler.UpdateInstanceCounts | internal/controller/releasechannel_controller.go:2027-2106 | counts instances and up-to-date instances and drops entries of departed ones |
| ChannelReconciler.Reconciler.AdoptUpToDateInstances | internal/controller/releasechannel_controller.go:1411-1437 | gives an entry to exactly the instances on the target that have none |
| ChannelReconciler.Reconciler.RefuseDowngrade | internal/controller/releasechannel_controller.go:1450-1488 | ends the rollout in Idle without a batch exactly when the downgrade guard refuses |
| ChannelReconciler.Reconciler.EnsurePreviousImageTracked | internal/controller/releasechannel_controller.go:1493-1556 | writes the unanimous image as baseline on a fresh copy when it is neither the target nor already tracked, and else changes nothing |
| ChannelReconciler.Reconciler.RecordErrorAndStore | internal/controller/releasechannel_controller.go:881-897 | a recorded error means Failed with its reason, keeping the first failure time |
| ChannelReconciler.ApplyDesired | internal/controller/releasechannel_controller.go:1738-1747 | applies exactly the differing entries and reports whether there were any |
| FleetScans.RecoverActiveBatch | internal/controller/releasechannel_controller.go:1677-1704 | the recovered batch names exactly the instances assigned the target that have not settled on it |
| FleetScans.BreakGlassAssignmentsNeeded | internal/controller/releasechannel_controller.go:1657-1673 | break glass is needed exactly when it is enabled and somebody is not assigned the target |
| FleetScans.AreInstancesReady | internal/controller/releasechannel_controller.go:1787-1818 | true exactly when everybody listed has resolved the expected image and is ready, and connected if asked |
| FleetScans.TerminalInstanceFailure | internal/controller/releasechannel_controller.go:1820-1838 | true exactly when somebody listed has failed terminally at its current generation |
| FleetScans.PerformHealthChecks | internal/controller/releasechannel_controller.go:1937-1996 | waits out the settle delay, then reports the first instance that fails or is not there yet |
| FleetScans.GetInstancesToUpdate | internal/controller/releasechannel_controller.go:1628-1640 | the listed instances that do not run the target, in order |
| FleetScans.GetCanaryInstances | internal/controller/releasechannel_controller.go:1611-1626 | the listed instances matching the canary selector, none when canaries are off |
| FleetScans.ActiveBatchInstances | internal/controller/releasechannel_controller.go:1642-1655 | the listed instances the batch names, in order |
| FleetScans.DowngradeFrom | internal/controller/releasechannel_version.go:168-182 | the guard refuses exactly when downgrades are not allowed and the target is strictly older than the fleet image, and then names that image and how many instances run it |
| FleetScans.RollbackBaselineOf | internal/controller/releasechannel_version.go:117-123 | the baseline is the single deployed image, or none |
| ChannelModel.BackoffSchedule | internal/controller/releasechannel_controller.go:867-879 | 30s, 1m, 2m, 4m, then 8m for every later attempt |
| ChannelModel.CalculateTransientBackoff | internal/controller/releasechannel_controller.go:869-879 | the doubling loop computes that schedule |
| UnleashReconciler.ResolveReleaseChannelImage | internal/resources/unleash.go:534-592 | the pull order: own entry, baseline or rollback image in a rollout, own last image, nothing |
| UnleashReconciler.Reconciler.MarkReleaseChannelAssignmentPending | internal/controller/unleash_controller.go:1011-1046 | publishes a new assignment and withdraws both readiness conditions in one write, refused once the generation has moved |
| UnleashReconciler.Reconciler.UpdateStatus | internal/controller/unleash_controller.go:1095-1129 | writes one condition for the generation reconciled; a true one only while that generation is current |
| UnleashReconciler.Reconciler.Pull | internal/controller/unleash_controller.go:834-866 | resolves, marks when the assignment is new, and gives up when nothing is assigned or the generation moved |
| UnleashReconciler.Reconciler.ReconcileDeployment | internal/controller/unleash_controller.go:887-912 | creates or updates the Deployment and comes back later, or goes on when it is as wanted |
| UnleashReconciler.Reconciler.ReportDeployment | internal/controller/unleash_controller.go:345-385 | reports failure, progress or success of the Deployment; success only when it is fully available |
| UnleashReconciler.Reconciler.Reconcile | internal/controller/unleash_controller.go:118-420 | one undisturbed reconcile is the composition of its steps |
| UnleashReconciler.SettlesExactlyWhenAvailable | internal/utils/k8s.go:38-73 | one undisturbed reconcile settles an unready instance on an image exactly when it pulls that image, its Deployment carries it and is fully available without failure, and Unleash answers |
| UnleashReconciler.TwoReconcilesSettle | internal/controller/unleash_controller.go:834-912 | two undisturbed reconciles with a cluster in between that brings the Deployment up settle an instance on the image it is assigned, whatever state it was in |
| ImageVersions.VersionIsRecovered | internal/controller/releasechannel_version.go:16-58 | for any repository, dot-free prefix not ending in a digit and suffix not starting with one, the scanner reads back the core version of the image, or none when a number exceeds 64 bits |
| ImageVersions.FindSkipsPrefix | internal/controller/releasechannel_version.go:34-47 | the leftmost match lies where the framed core begins |
| ImageVersions.TagIsRecovered | internal/controller/releasechannel_version.go:16-31 | the tag of an image reference is what follows the last colon of its last path segment |
| ImageVersions.DecimalRoundTrip | internal/controller/releasechannel_version.go:44-58 | a number read back from its decimal digits is the number |
| ImageVersions.CompareIsTotalOrder | internal/controller/releasechannel_version.go:66-84 | core comparison is antisymmetric, transitive and zero only on equal cores, as section 11 of Semantic Versioning 2.0.0 orders cores |
| ImageVersions.CoreIsFoundIff | internal/controller/releasechannel_version.go:10-14 | a tag has a core exactly when it holds two dots with only digits between and digits around them |
| ImageVersions.UntaggedHasNoVersion | internal/controller/releasechannel_version.go:16-31 | a digest or a missing tag leaves an image without a version, a registry port notwithstanding |
| DowngradeGuard.ComparedByNumbers | internal/controller/releasechannel_version.go:66-84 | images whose tags hold framed cores compare by major, then minor, then patch number |
| DowngradeGuard.RefusesExactlyOlderVersions | internal/controller/releasechannel_version.go:168-182 | a fleet mostly on one version refuses exactly the targets that hold an older one, unless downgrades are allowed |
| DowngradeGuard.UnrankedIsNotRefused | internal/controller/releasechannel_version.go:60-84 | where either image has no version nothing is refused |
| DowngradeGuard.IdleLeavesUnlessOlder | internal/controller/releasechannel_controller.go:545-592 | an idle channel leaves for a new target exactly unless it is older by those numbers |
| FleetImages.FleetImageIsModalAndNewest | internal/controller/releasechannel_version.go:131-155 | the fleet image is run by a largest number of instances, and no equally common image is newer |
| FleetImages.FleetReadingsIgnoreListOrder | internal/controller/releasechannel_version.go:89-182 | deployed images, baseline, fleet image and refusal are the same for every order of the list |
| FleetImages.BaselineIsUnanimous | internal/controller/releasechannel_version.go:109-123 | the baseline is an image exactly when somebody reports it and nobody reports another |
| FleetImages.UnanimousFleetIsNotDowngraded | internal/controller/releasechannel_version.go:168-182 | a fleet wholly on the target is never older than it |
| FleetImages.ComputeFleetImage | internal/controller/releasechannel_version.go:131-155 | the scan over sorted images with a running best computes the specified fleet image |
| FleetImages.CollectDeployedImages | internal/controller/releasechannel_version.go:89-107 | the distinct reported images in ascending order |
| ClusterList.MatchClusterList | internal/controller/remoteunleash_controller.go:118-143 | the scan equals the priority reading: exact entry, entry in another case, other entries, nothing |
| ClusterList.OnlyTheEntriesMatter | internal/controller/remoteunleash_controller.go:96-117 | lists with the same entries, in any order and number, say the same |
| ClusterList.ExcludedExactlyWhenOthersAreNamed | internal/controller/remoteunleash_controller.go:118-143 | a list excludes a cluster exactly when it names somebody and nobody who resembles the cluster even ignoring case |
| ClusterList.TrimTakesBlanksOnly | internal/controller/remoteunleash_controller.go:118-143 | trimming takes all white space around an entry and nothing else |
| ClusterList.EqualFoldComparesFolded | internal/controller/remoteunleash_controller.go:118-143 | two names resemble each other exactly when they fold to the same text |
| FederationModel.BoundSecretServesItsNamespaceOnly | internal/controller/remoteunleash_validation.go:21-96 | a stamped secret in the operator namespace authorizes exactly the resources of its one namespace pointing at its one server |
| FederationModel.LegacyFlagOnlyWidens | internal/controller/remoteunleash_validation.go:29-75 | whatever is authorized without the legacy flag is authorized the same with it |
| FederationModel.UnstampedSecretServesIff | internal/controller/remoteunleash_validation.go:28-75 | an unstamped secret outside the namespace of the resource serves it exactly when it lies in the operator namespace, the legacy flag is on, it is named for the resource, it records no other URL and holds a token |
| FederationModel.OwnSecretServesIff | internal/controller/remoteunleash_validation.go:36-93 | exactly when a secret of its own namespace serves a resource |
| FederationModel.NothingElseIsHandedOut | internal/controller/remoteunleash_validation.go:28-96 | nothing but the token under the key named is ever handed out, and nothing from a third namespace |
| FederationBuild.HandleMessage | internal/federation/subscriber.go:159-246 | a message is ignored, refused for want of a name, or built into one secret and one resource per tenant namespace |
| FederationBuild.TenantNamespaces | internal/federation/subscriber.go:270-300 | the loop keeps exactly the trimmed entries that can be tenants, in order |
| FederationBuild.ServedExactlyTenants | internal/federation/subscriber.go:248-300 | a namespace is served exactly when some entry trims to it and it is neither the operator's, reserved nor invalid |
| FederationBuild.EachRemoteReferencesItsSecret | internal/federation/subscriber.go:204-241 | in both layouts the i-th resource references the i-th secret, lives outside the operator namespace, and the secret is stamped for it |
| FederationBuild.SecretNamesAreDistinct | internal/federation/subscriber.go:204-241 | within a message two secrets share a key only when they are the same secret |
| FederationBuild.ProducerAndValidatorAgree | internal/controller/remoteunleash_validation.go:21-96 | once written over any cluster, each built resource is authorized with the message's token, under either legacy flag, exactly when the message has a URL and a token |
| FederationOutcomes.DeliveryCarriesMessage | internal/federation/subscriber.go:183-246 | a delivery says what the message says, and its secrets are ones the operator recognizes as its own |
| FederationOutcomes.NoncesSeparateSecrets | internal/federation/subscriber.go:183-241 | another nonce makes another secret for the same tenant |
| FederationReceive.DestructionIsStatedAndAuthenticated | internal/controller/remoteunleash_controller.go:600-745 | a delivery deletes a resource exactly when it is Removed, or Provisioned for other clusters only, agrees with the stored server and credential, is newer than what was applied, and no call fails |
| FederationReceive.DeliveryKeepsStamps | internal/controller/remoteunleash_controller.go:1026-1052 | no delivery lowers the recorded publish time of a resource that survives it |
| FederationOutcomes.WhatIsAskedFor | internal/controller/remoteunleash_controller.go:600-640 | a provisioning message provisions exactly the clusters it names and removes from those it leaves out, a removal removes everywhere, anything else does nothing |
| FederationOutcomes.RemovalDeletesExactly | internal/controller/remoteunleash_controller.go:641-770 | exactly which resources and which secrets a removal deletes, with any call failing; nothing else changes |
| FederationOutcomes.ProvisioningWritesExactly | internal/controller/remoteunleash_controller.go:780-950 | exactly which resources a provisioning message writes, with what content and stamp; all others stay what they were |
| FederationOutcomes.ProvisioningSecretsExactly | internal/controller/remoteunleash_controller.go:850-960 | exactly which secrets it writes, and that superseded ones go only after all other writes went through |
| FederationRuns.StampsNeverFall | internal/controller/remoteunleash_controller.go:875-886 | over any history a resource's recorded publish time never decreases while it exists |
| FederationRuns.NoStaleDeletion | internal/controller/remoteunleash_controller.go:647-690 | once a message published at t provisioned a resource, no message published at or before t deletes it, in whatever order and however often messages are delivered |
| FederationSecrets.ProvisionedResourceWorks | internal/controller/remoteunleash_controller.go:790-950 | a provisioning message carried out leaves each resource it may write authorized with its token exactly when no other resource of the message, in the cluster as found, alone references its secret or takes it for an older secret of its own |
| FederationSecrets.OwnSecretsAreNotReplaced | internal/controller/remoteunleash_controller.go:1090-1151 | none does when the cluster holds the message's secrets stamped for their own namespaces and the resources reference their own |
| FederationSecrets.BorrowedSecretIsLost | internal/controller/remoteunleash_controller.go:821-840 | a cluster in which a message for two tenants deletes the secret it has just written for the second |
| FederationSecrets.OnlySameCredentialIsReplaced | internal/controller/remoteunleash_controller.go:1081-1151 | provisioning deletes a secret only when it holds the credential an incoming secret brings |
| FederationReceiver.Receiver.Handle | internal/controller/remoteunleash_controller.go:560-960 | the handler, with any of its calls failing, leaves exactly the specified cluster |
| FederationReceiver.Receiver.SupersededAdminSecrets | internal/controller/remoteunleash_controller.go:1090-1151 | finds exactly the older secrets of the instance, in its own and the operator namespace, that hold the same credential and belong to nobody else |
| FederationReceiver.Receiver.ReferencedByOther | internal/controller/remoteunleash_controller.go:1166-1185 | true exactly when another resource references the secret |
| MigrationSafety.CredentialIsNeverLost | internal/controller/remoteunleash_migration.go:39-249 | at every boundary between API calls, through crashes, retries, federation deliveries and other writes, the secret the resource references exists and holds the same token; the deliveries left out are those under the legacy name that can do harm |
| MigrationSafety.ExcludedDeliveryCanBreak | internal/controller/remoteunleash_migration.go:204-227 | each delivery left out can be followed by events that lose the credential, so exactly the harmless ones are admitted |
| MigrationSafety.EveryEventIsSafe | internal/controller/remoteunleash_migration.go:48-249 | each single call, crash, new attempt, federation delivery or other write keeps the migration's invariant |
| MigrationSafety.OnlyASupersededSecretIsDeleted | internal/controller/remoteunleash_migration.go:229-241 | a migration deletes only the secret it started from, unchanged since read, and only once the resource leads to the token elsewhere |
| SecretMigration.MigratesExactlyWhenEligible | internal/controller/remoteunleash_migration.go:48-249 | an undisturbed attempt repoints and removes the legacy secret exactly when it is unbound, operator-managed, unshared, agrees on the server and no conflicting replacement exists |
| SecretMigration.RetryConverges | internal/controller/remoteunleash_migration.go:160-227 | an attempt cut short anywhere before the repoint leaves a store from which the next attempt comes to the same reference |
| SecretMigration.RetriesConverge | internal/controller/remoteunleash_migration.go:160-227 | the same for any number of attempts cut short |
| MigrationOutcomes.ReplacesExactly | internal/controller/remoteunleash_migration.go:48-249 | an undisturbed attempt replaces exactly the operator's own legacy secrets that are not shared and agree on the server, unless something else has the name of the replacement, and otherwise leaves everything |
| MigrationOutcomes.ServerIsRecorded | internal/controller/remoteunleash_migration.go:111-145 | where only the replacement's name is taken, the legacy secret keeps all it held and has the server on record |
| MigrationOutcomes.NothingElseMoves | internal/controller/remoteunleash_migration.go:160-249 | no other secret or resource is touched, and nothing of the resource but its reference |
| MigrationOutcomes.MigratedResourceWorks | internal/controller/remoteunleash_validation.go:21-96 | a migrated resource is authorized under either legacy flag and gets the token it had |
| MigrationSafety.RepointAfterFederationInPlace | internal/controller/remoteunleash_migration.go:204-227 | after a delivery under the legacy name right before it, whether or not the migration's premise stood, the repoint keeps the credential exactly when the replacement has the legacy key, or the stored replacement holds the token and survives the delivery |
| MigrationSafety.CreatedReplacementNeedsLegacyKey | internal/controller/remoteunleash_migration.go:160-227 | for a replacement the migration created and a delivery carried out in full, exactly when the legacy key is the replacement's key |
| MigrationSafety.OnlyRepointingCanBreak | internal/controller/remoteunleash_migration.go:204-227 | while the premise holds and the migration carries the current token, no other moment is endangered by a delivery under the legacy name |
| MigrationSafety.DeliveryInPlaceStrandsCredential | internal/controller/remoteunleash_migration.go:180-227 | a store, four calls and one delivery after which the fifth call leaves the resource referencing a secret that is gone |
| MigrationSafety.StaleCopyStrandsCredential | internal/controller/remoteunleash_migration.go:204-227 | a store in which the migration carries an older token, and a delivery under the legacy name after which the next call repoints the resource to that token |
| MigrationSafety.FederatedIsDelivery | internal/controller/remoteunleash_controller.go:780-950 | the delivery among the events is the delivery of the receive path, with what it supersedes and whichever deletions fail |
| Migrator.Reconciler.Migrate | internal/controller/remoteunleash_migration.go:48-249 | the method, cut after any number of calls, leaves the store the specification gives for that many calls |
| TokenRotation.CredentialIsNeverStranded | internal/controller/apitoken_controller.go:366-500 | over any history of attempts cut anywhere, with spec and switch changing, the token in the Kubernetes secret is live after every call |
| TokenRotation.RoundKeepsCredentialUsable | internal/controller/apitoken_controller.go:377-497 | after any number of calls of one round the token in the Kubernetes secret is live |
| TokenRotation.OneSuccessLeavesOneFittingToken | internal/controller/apitoken_controller.go:377-500 | with updates enabled one round that goes through leaves exactly one live token, a fitting one, in the secret |
| TokenRotation.NextRoundIsQuiet | internal/controller/apitoken_controller.go:377-497 | the round after that creates and deletes nothing |
| TokenRotation.FailuresDoNotPileUp | internal/controller/apitoken_controller.go:377-497 | failing attempts leave at most one more token than there was |
| TokenRotation.DisabledUpdatesTakeTheNewest | internal/controller/apitoken_controller.go:377-404 | with updates disabled the newest token is written, fitting or not, and nothing is created or deleted |
| TokenRotation.NewestFittingIsKept | internal/controller/apitoken_controller.go:366-404 | with updates enabled no fitting token is newer than the one kept |
| TokenRotation.CreatesExactlyWithoutCandidate | internal/controller/apitoken_controller.go:377-420 | a token is created exactly when none fits or, with updates disabled, when there is none at all |
| TokenRotation.EqualMeansUpToOrder | api/v1/apitoken_types.go:164-168 | without repeated projects IsEqual is agreement up to case of the type and order of the projects |
| TokenReconciler.Reconciler.Reconcile | internal/controller/apitoken_controller.go:366-500 | one reconcile, whatever order the server lists in and after whatever call it stops, leaves the specified state |
| TokenReconciler.SelectTokens | internal/controller/apitoken_controller.go:372-404 | the selection loop computes the specified choice |
| StringLists.StringSliceEquals | internal/utils/strings.go:3-15 | the loop decides equal length and one-sided membership |
| StringLists.ComparisonDecidesPermutationIffNoDuplicates | internal/utils/strings.go:3-15 | that comparison decides equality up to order against every list exactly when the first list repeats nothing |
| StringLists.DuplicatesAreConfused | internal/utils/strings.go:3-15 | a concrete pair of lists with a repeated entry that is accepted though not a permutation |

## Left out

- Kubernetes client, caches, watches, conflict retries and their backoff, finalizers and deletion of channels and instances: reads and writes are atomic on the model's store.
- A ReleaseChannel status write that fails for another reason than the deployment write: only failing lists and failing deployment writes are modelled.
- Status fields no decision reads (version, progress percentage, canary counts, generation of the map, last target images, time of the last image change, conditions and their texts), and with them the comparison that skips unchanged writes: on the fields modelled it compares everything, so skipping an equal write changes nothing.
- The empty and unknown phase of a new object, which the code treats as Idle or resets to it.
- Instances with a custom image: they are outside the fleet. Label selectors are one boolean per instance.
- ReleaseChannel objects that cannot be read: `getExpectedImageForInstance` then falls back to the target.
- Requeue delays, jitter, metrics, events, tracing and logging.
- HTTP health checks and connection tests: arbitrary outcomes. The two terminal Deployment conditions are two booleans.
- Builders for Deployments, Services, Ingresses, NetworkPolicies and ServiceMonitors: record construction only.
- The version library behind the core version: parsing three digit groups fails only beyond 64 bits; pre-release and build parts are dropped by the scanner before it is called.
- The transport of federation messages, URL parsing (an arbitrary predicate on URLs), Unicode case folding (an arbitrary folding of letters), and SHA-256 (an arbitrary digest).
- Concurrent writes within one federation delivery: objects are written in the order of the message. Objects built from one message under one key are equal, so the order does not show.
- A RemoteUnleash that was deleted and is created again by an older provisioning message: nothing remembers the deletion, so only the absence of stale deletions is claimed.
- Termination of the rollback cycle: after a rollback reaches Idle, an unchanged target starts the same rollout again.
- What the downgrade guard lets through over a whole run: the fleet image may change during a rollout, so the guard is a property of each reconcile.
- FederationRuns.NoStaleDeletion: speaks of a resource that is not deleted and created again in between.
- MigrationSafety.CredentialIsNeverLost: leaves out the deliveries under the legacy name that MigrationSafety.ExcludedDeliveryCanBreak shows to be harmful; other writers keep the credential the resource references and put only the replacement under the replacement's name.
- Readiness.ReadyMeansVerified: nobody outside the two controllers edits the image of a Deployment or deletes a Deployment; the cluster only reports on them.
- TokenRotation.CredentialIsNeverStranded: tokens have distinct secrets and nobody deletes tokens behind the operator's back.
- TimeBudget.BudgetSuffices: speaks of derived budgets under their two-hour cap; above it the budget is shorter than the batches may take.
