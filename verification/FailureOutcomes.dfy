/** What a failed rollout does next, and when, and how much time a rollout is given. */
module FailureOutcomes {
  import opened Wrappers
  import opened ImageVersions
  import opened ChannelModel
  import opened ChannelSteps
  import PhaseSafety
  import opened PhaseOutcomes

  // ------------------------------------------------------------------ budget

  function Between(low: int, x: int, high: int): int { if x < low then low else if x > high then high else x }

  /** A rollout that needs so many batches gets, for each of them, the settle, verification and interval allowances and a
      reconcile, and one reconcile more; never less than ten minutes nor more than two hours. A limit other than the
      legacy default of ten minutes overrides that. */
  lemma BudgetForBatches(spec: Spec, instances: nat, batches: nat)
    requires var limit := if spec.maxParallel <= 0 then 1 else spec.maxParallel;
             instances <= batches * limit && (batches > 0 ==> (batches - 1) * limit < instances)
    ensures var each := Or(spec.initialDelay, 30) + Or(spec.healthTimeout, 300) + Or(spec.batchInterval, 30);
            UpgradeBudget(spec, instances) ==
              if spec.maxUpgradeTime.Some? && spec.maxUpgradeTime.value != 600 then spec.maxUpgradeTime.value
              else Between(600, batches * (each + 30) + 30, 7200)
  {
    var needed := CeilDiv(instances, BatchLimit(spec));
    CeilingIsLeast(needed, batches, BatchLimit(spec), instances);
    CeilingIsLeast(batches, needed, BatchLimit(spec), instances);
    var each := Or(spec.initialDelay, 30) + Or(spec.healthTimeout, 300) + Or(spec.batchInterval, 30);
    assert needed * each + (needed + 1) * 30 == needed * (each + 30) + 30;
  }

  lemma CeilingIsLeast(a: nat, b: nat, m: int, k: nat)
    requires m >= 1 && k <= a * m && (b > 0 ==> (b - 1) * m < k)
    ensures b <= a
  {
    if b > a { ProductsGrow(a, b - 1, m); }
  }

  lemma {:induction false} ProductsGrow(a: nat, b: int, m: int)
    requires m >= 1 && a <= b
    ensures a * m <= b * m
  {
    assert (b - a) * m >= 0;
    assert b * m == a * m + (b - a) * m;
  }

  // ------------------------------------------------------------------ Failed

  /** The wait before each transient retry. */
  function Wait(attempts: int): int {
    if attempts <= 0 then 30 else if attempts == 1 then 60 else if attempts == 2 then 120
    else if attempts == 3 then 240 else 480
  }

  /** Fewer than five transient retries so far. */
  predicate MayRetry(st: Status) { st.reason == Transient && st.retryCount < 5 }

  predicate WaitIsOver(o: Observation, st: Status) { st.lastFailure.Some? && o.now >= st.lastFailure.value + Wait(st.retryCount) }

  predicate TargetChanged(o: Observation, st: Status) { st.failedImage != "" && o.spec.image != st.failedImage }

  /** Break glass or a new target starts over whatever has failed. */
  predicate Overrides(o: Observation, st: Status) { BreakGlassAsked(o, st) || TargetChanged(o, st) }

  /** A rollout that ran out of time goes on when the budget has grown since, or when it has moved instances. */
  predicate TimeCanGoOn(o: Observation, st: Status) {
    && st.reason == UpgradeTimeout
    && ((st.startTime.Some? && o.now <= st.startTime.value + UpgradeBudget(o.spec, st.instances)) || st.upToDate != st.resumeProgress)
  }

  /** The break glass check cannot look at the fleet. */
  predicate CannotLook(o: Observation) {
    o.spec.breakGlassImage != "" && o.spec.breakGlassImage == o.spec.image && o.faults.list
  }

  lemma FailedDecision(o: Observation, st: Status)
    requires Valid(o) && st.phase == Failed && st.activeBatch.None? && !CannotLook(o)
    ensures var move := FailedMoveOf(o, st);
            && (move in {RetriesBreakGlass, RetriesNewImage} <==> Overrides(o, st))
            && (move in {RetriesLargerBudget, ResetsProgress, Resumes} <==> !Overrides(o, st) && TimeCanGoOn(o, st))
            && (move == RetriesTransient <==> !Overrides(o, st) && MayRetry(st) && WaitIsOver(o, st))
            && (move == MarksFailureTime <==> !Overrides(o, st) && MayRetry(st) && st.lastFailure.None?)
            && (move == RollsBackNow <==>
                  !Overrides(o, st) && !TimeCanGoOn(o, st) && !MayRetry(st) && LeadsBack(o, st))
            && move !in {DropsBatch, FailedListingFails}
  {
    TrackingKeepsEntries(o, st);
    BackoffSchedule(st.retryCount);
  }

  lemma FailedEffect(o: Observation, st: Status, move: FailedMove)
    requires st.phase == Failed
    ensures var after := FailedBy(o, st, move);
            && (after.phase == Idle <==>
                  move in {RetriesBreakGlass, RetriesNewImage, RetriesLargerBudget, ResetsProgress, Resumes, RetriesTransient})
            && (after.phase == RollingBack <==> move == RollsBackNow)
            && (after.phase in {Idle, Failed, RollingBack})
            && (after.phase == Idle ==> after.reason == NoReason)
            && (move in {RetriesBreakGlass, RetriesNewImage} ==> after.retryCount == 0 && after.lastFailure.None?)
            && (move in {RetriesLargerBudget, ResetsProgress, Resumes} ==> after.startTime.None?)
            && (move == RetriesTransient ==> after.retryCount == st.retryCount + 1 && after.lastFailure.None?)
            && (move == MarksFailureTime ==> after.lastFailure == Some(o.now) && after.retryCount == st.retryCount)
            && (move in {WaitsBackoff, Stays, RollsBackNow} ==>
                  after.lastFailure == st.lastFailure && after.retryCount == st.retryCount && after.reason == st.reason)
  {}

  /** Exactly what a failed rollout without a batch does: it starts over on break glass or a new target, goes on after a
      timeout when there is time or progress, retries a transient error up to five times and each time once its wait is
      over, and otherwise goes back if it may or stays. */
  lemma RetriesIff(o: Observation, st: Status)
    requires Valid(o) && st.phase == Failed && st.activeBatch.None? && !CannotLook(o)
    ensures var after := FailedStep(o, st);
            && (after.phase == Idle <==>
                  Overrides(o, st) || TimeCanGoOn(o, st) || (MayRetry(st) && WaitIsOver(o, st)))
            && (after.phase == RollingBack <==>
                  !Overrides(o, st) && !TimeCanGoOn(o, st) && !MayRetry(st) && LeadsBack(o, st))
            && (after.phase in {Idle, Failed, RollingBack})
  {
    FailedDecision(o, st);
    FailedEffect(o, st, FailedMoveOf(o, st));
  }

  /** Attempts are counted exactly by transient retries and forgotten by a new target; the time of the first failure stands
      until then. */
  lemma AttemptsAreCounted(o: Observation, st: Status)
    requires Valid(o) && st.phase == Failed && st.activeBatch.None? && !CannotLook(o) && !Overrides(o, st) && MayRetry(st)
    ensures var after := FailedStep(o, st);
            && (WaitIsOver(o, st) ==> after.phase == Idle && after.retryCount == st.retryCount + 1 && after.lastFailure.None?)
            && (!WaitIsOver(o, st) ==>
                  && after.phase == Failed && after.retryCount == st.retryCount && after.reason == Transient
                  && after.lastFailure == Some(if st.lastFailure.Some? then st.lastFailure.value else o.now))
  {
    FailedDecision(o, st);
    FailedEffect(o, st, FailedMoveOf(o, st));
    WaitingKeepsReason(o, st, FailedMoveOf(o, st));
  }

  lemma WaitingKeepsReason(o: Observation, st: Status, move: FailedMove)
    requires st.phase == Failed
    ensures move in {MarksFailureTime, WaitsBackoff} ==> FailedBy(o, st, move).reason == st.reason
  {}

  lemma ProgressAfterTimeout(o: Observation, st: Status)
    requires Valid(o) && st.phase == Failed && st.activeBatch.None? && !CannotLook(o) && !Overrides(o, st) && TimeCanGoOn(o, st)
    ensures var after := FailedStep(o, st);
            var roomier := st.startTime.Some? && o.now <= st.startTime.value + UpgradeBudget(o.spec, st.instances);
            && after.phase == Idle && after.startTime.None?
            && after.resumeProgress == (if roomier then st.resumeProgress else if st.upToDate > st.resumeProgress then st.upToDate else 0)
            && after.retryCount == (if !roomier && st.upToDate > st.resumeProgress then st.retryCount else 0)
  {
    TrackingKeepsEntries(o, st);
  }

  /** A failure remembers the image it happened with from the first look at it that does not just wait, through transient
      retries and rollbacks, until a new target, break glass or another attempt after a timeout makes it obsolete. */
  lemma FailedImageIsRemembered(o: Observation, st: Status)
    requires Valid(o) && st.phase == Failed && st.activeBatch.None? && !CannotLook(o)
    ensures var after := FailedStep(o, st);
            var waits := MayRetry(st) && st.lastFailure.Some? && !WaitIsOver(o, st);
            after.failedImage ==
              if Overrides(o, st) || TimeCanGoOn(o, st) then ""
              else if st.failedImage != "" || waits then st.failedImage else o.spec.image
  {
    FailedDecision(o, st);
    MemoryAfter(o, st, FailedMoveOf(o, st));
    BackoffSchedule(st.retryCount);
  }

  lemma MemoryAfter(o: Observation, st: Status, move: FailedMove)
    requires move !in {DropsBatch, FailedListingFails}
    ensures FailedBy(o, st, move).failedImage ==
              if move in {RetriesBreakGlass, RetriesNewImage, RetriesLargerBudget, ResetsProgress, Resumes} then ""
              else if st.failedImage != "" || move == WaitsBackoff then st.failedImage else o.spec.image
  {}

  /** An open batch keeps a failed rollout from doing anything else in that reconcile. */
  lemma BatchIsDroppedFirst(o: Observation, st: Status)
    requires st.phase == Failed && st.activeBatch.Some?
    ensures FailedStep(o, st) == st.(activeBatch := None)
  {}

  // ---------------------------------------------------------- how it comes to fail

  predicate FailedWithError(o: Observation, st: Status, after: Status) {
    && after.phase == Failed && after.reason == (if o.faults.transient then Transient else Other)
    && after.lastFailure == Some(if st.lastFailure.Some? then st.lastFailure.value else o.now)
  }

  lemma ListingErrorIsRecorded(o: Observation, st: Status)
    requires Valid(o) && o.faults.list && st.phase in {Idle, Validating, Canary, Rolling, RollingBack}
    requires (st.phase == Validating ==> o.spec.image != "") && (st.phase == RollingBack ==> ImageToRestore(o.spec, st) != "")
    ensures FailedWithError(o, st, ChannelStep(o, st)) && ChannelStep(o, st).instanceImages == st.instanceImages
  {}

  /** This reconcile gets as far as assigning somebody an image. */
  predicate GoesOnToAssign(o: Observation, st: Status)
    requires Valid(o)
  {
    || BreakGlassAsked(o, st)
    || (!BudgetExceeded(o.spec, st, o.now) && st.phase == Canary && CanarySet(o) != {})
    || (!BudgetExceeded(o.spec, st, o.now) && st.phase == Rolling && st.activeBatch.None? && NobodyLags(o, st) && SomebodyOff(o))
  }

  lemma WriteFails(o: Observation, st: Status)
    requires Valid(o) && st.phase in {Canary, Rolling} && !o.faults.list && !o.refused && o.faults.deploy && GoesOnToAssign(o, st)
    ensures st.phase == Canary ==> CanaryMoveOf(o, st) == CanaryAssignmentFails
    ensures st.phase == Rolling ==> RollingMoveOf(o, st) in {RollingAssignmentFails, NextBatchFails}
  {
    TrackingKeepsEntries(o, st);
    if !BreakGlassAsked(o, st) {
      if st.phase == Canary { CanariesAreThose(o); } else { RollingWithoutBatch(o, st); }
    }
  }

  /** An assignment that cannot be written changes nobody's image and is recorded as an error. */
  lemma AssignmentErrorIsRecorded(o: Observation, st: Status)
    requires Valid(o) && st.phase in {Canary, Rolling} && !o.faults.list && !o.refused && o.faults.deploy && GoesOnToAssign(o, st)
    ensures var after := ChannelStep(o, st);
            FailedWithError(o, st, after) && forall n :: n in o.fleet ==> ImageOf(after, n) == ImageOf(st, n)
  {
    WriteFails(o, st);
    if st.phase == Canary { CanaryWriteError(o, st); } else { RollingWriteError(o, st, RollingMoveOf(o, st)); }
  }

  lemma CanaryWriteError(o: Observation, st: Status)
    requires Valid(o) && st.phase == Canary
    ensures var after := CanaryBy(o, st, CanaryAssignmentFails);
            FailedWithError(o, st, after) && after.instanceImages == st.instanceImages
  {}

  lemma RollingWriteError(o: Observation, st: Status, move: RollingMove)
    requires Valid(o) && st.phase == Rolling && move in {RollingAssignmentFails, NextBatchFails}
    ensures var after := RollingBy(o, st, move);
            FailedWithError(o, st, after) && forall n :: n in o.fleet ==> ImageOf(after, n) == ImageOf(st, n)
  {
    PhaseSafety.CountingAssignsNothing(o, Track(o, st));
  }

  lemma CanaryRejects(o: Observation, st: Status)
    requires Valid(o) && st.phase == Canary
    ensures var after := CanaryBy(o, st, CanaryAwaits(Rejects));
            after.phase == (if LeadsBack(o, after) then RollingBack else Failed) && after.reason == ErrorReason(o)
  {
    RejectedCanary(o, Deploy(o, Track(o, st), o.order));
  }

  lemma RejectedCanary(o: Observation, st: Status)
    requires st.phase == Canary
    ensures var after := AfterCanaryGate(o, st, Rejects);
            after.phase == (if LeadsBack(o, after) then RollingBack else Failed) && after.reason == ErrorReason(o)
  {}

  lemma RollingRejects(o: Observation, st: Status, gate: Gate)
    requires Valid(o) && st.phase == Rolling && gate in {Rejects, ChecksBroken}
    ensures forall move :: move in {BatchAwaits(gate), CompletionAwaits(gate)} ==>
              var after := RollingBy(o, st, move);
              && after.phase == (if LeadsBack(o, after) then RollingBack else Failed) && after.reason == ErrorReason(o)
              && after.activeBatch.None?
  {}

  /** A terminal failure among those the rollout waits for, the canaries, the open batch or at the end everybody, sends it
      back exactly when that is asked for and there is an image to go back to. */
  lemma TerminalFailureEndsRollout(o: Observation, st: Status, n: Name)
    requires Valid(o) && st.phase in {Canary, Rolling} && Unhindered(o, st) && !o.faults.deploy
    requires n in o.fleet && TerminallyFailed(o.fleet[n])
    requires if st.phase == Canary then n in CanarySet(o)
             else if st.activeBatch.Some? then n in st.activeBatch.value.names else NobodyLags(o, st) && !SomebodyOff(o)
    ensures var after := ChannelStep(o, st);
            && after.phase == (if LeadsBack(o, after) then RollingBack else Failed)
            && after.reason == (if o.faults.transient then Transient else Other)
  {
    if st.phase == Canary {
      CanaryDecision(o, st);
      CanariesAreThose(o);
      CanaryRejects(o, st);
    } else {
      RollingRejects(o, st, Rejects);
      if st.activeBatch.Some? { RollingWithBatch(o, st); MembersArePresent(o, st.activeBatch.value); } else { RollingWithoutBatch(o, st); }
    }
  }

  // ---------------------------------------------------------- across attempts

  /** A completed rollout leaves no clock running and no attempt, failure or progress to remember, and keeps who runs what and
      the image to go back to. However many attempts it needed, the first transient failure after it is retried after half a
      minute and not before, unless break glass is used. */
  lemma CompletionWipesTheSlate(o: Observation, again: Observation, st: Status)
    requires Valid(again) && st.phase == Completed && o.faults.transient && !CannotLook(again)
    requires !BreakGlassAsked(again, RecordError(o, CompletedStep(st)))
    ensures FailedStep(again, RecordError(o, CompletedStep(st))).phase == (if again.now >= o.now + 30 then Idle else Failed)
    ensures var done := CompletedStep(st);
            && (forall now :: !BudgetExceeded(o.spec, done, now)) && done.resumeProgress == 0 && done.retryCount == 0
            && done.instanceImages == st.instanceImages && done.previousImage == st.previousImage
            && done.lastDeploy == st.lastDeploy && done.activeBatch.None?
  {
    var failed := RecordError(o, CompletedStep(st));
    assert failed.failedImage == "" && failed.retryCount == 0 && failed.lastFailure == Some(o.now);
    RetriesIff(again, failed);
  }

  // --------------------------------------------------------------- break glass

  /** While break glass is on and somebody is not assigned its image, a rollout in progress hands the image to everybody in
      one step, whatever its budget, batches and canaries say. */
  lemma BreakGlassReachesEverybody(o: Observation, st: Status, n: Name)
    requires Valid(o) && st.phase in {Canary, Rolling} && !o.faults.list && !o.faults.deploy && !o.refused
    requires o.spec.breakGlassImage == o.spec.image != "" && n in o.fleet && ImageOf(st, n) != o.spec.image
    ensures var after := ChannelStep(o, st);
            && after.phase == st.phase && after.lastDeploy == Some(o.now)
            && (forall m :: m in o.fleet ==> ImageOf(after, m) == o.spec.image)
            && (st.phase == Rolling ==> after.activeBatch == Some(Batch(o.order, o.spec.image, o.now)))
  {
    assert n in o.order;
    TrackingKeepsEntries(o, st);
    EverybodyIsAssigned(o, Track(o, st), n);
    if st.phase == Canary { assert CanaryMoveOf(o, st) == CanaryAssignsAll; } else { assert RollingMoveOf(o, st) == RollingAssignsAll; }
  }

  lemma EverybodyIsAssigned(o: Observation, st: Status, n: Name)
    requires Valid(o) && st.phase in {Canary, Rolling} && n in o.fleet && ImageOf(st, n) != o.spec.image
    requires BreakGlass(o.spec)
    ensures var after := Deploy(o, st, o.order);
            && after.phase == st.phase && after.lastDeploy == Some(o.now)
            && (forall m :: m in o.fleet ==> ImageOf(after, m) == o.spec.image)
            && (st.phase == Rolling ==> after.activeBatch == Some(Batch(o.order, o.spec.image, o.now)))
  {
    assert forall m :: m in o.fleet ==> Expected(o.spec, st, o.fleet[m], o.spec.image) == o.spec.image;
    var after := Deploy(o, st, o.order);
    assert n in o.order && Reassigned(o, st, n) && n in after.instanceImages;
    PhaseSafety.DeployStampsTime(o, st, o.order, n);
  }
}
