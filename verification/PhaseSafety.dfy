/** What every single reconcile of a ReleaseChannel guarantees, phase by phase. */
module PhaseSafety {
  import opened Wrappers
  import opened StringLists
  import opened ImageVersions
  import opened ChannelModel
  import opened ChannelSteps

  /** Instances the step newly maps to the target. */
  function NewlyAssigned(o: Observation, before: Status, after: Status): set<Name> {
    set n | n in after.instanceImages && after.instanceImages[n] == o.spec.image && ImageOf(before, n) != o.spec.image
  }

  lemma {:induction false} ListedSize(names: seq<Name>)
    requires NoDuplicates(names)
    ensures |set n | n in names| == |names|
  {
    if names != [] {
      var rest := names[1..];
      ListedSize(rest);
      assert (set n | n in names) == {names[0]} + (set n | n in rest);
    }
  }

  // ---------------------------------------------------- bounded parallelism

  lemma CountingAssignsNothing(o: Observation, st: Status)
    ensures UpdateCounts(o, st).instanceImages.Keys <= st.instanceImages.Keys * o.fleet.Keys
    ensures forall n :: n in UpdateCounts(o, st).instanceImages ==>
              UpdateCounts(o, st).instanceImages[n] == st.instanceImages[n]
    ensures forall n :: n in o.fleet ==> ImageOf(UpdateCounts(o, st), n) == ImageOf(st, n)
    ensures NewlyAssigned(o, st, UpdateCounts(o, st)) == {}
  {}

  /** The only Rolling branch that assigns the target to anybody without break glass. */
  lemma OnlyNextBatchAssigns(o: Observation, st: Status, move: RollingMove)
    requires Valid(o) && !move.AssignsNextBatch? && !move.RollingAssignsAll?
    ensures NewlyAssigned(o, st, RollingBy(o, st, move)) == {}
  {
    CountingAssignsNothing(o, st);
  }

  lemma NextBatchIsChosenWhenSettled(o: Observation, st: Status)
    requires Valid(o) && RollingMoveOf(o, st) == AssignsNextBatch
    ensures st.activeBatch.None? && Unsettled(o, st.instanceImages) == []
  {}

  lemma BreakGlassIsNeededToAssignAll(o: Observation, st: Status)
    requires Valid(o) && !BreakGlass(o.spec)
    ensures !RollingMoveOf(o, st).RollingAssignsAll? && !CanaryMoveOf(o, st).CanaryAssignsAll?
  {}

  /** Deploying in Rolling maps exactly the named instances to the target and opens a batch for them. */
  lemma RollingDeploy(o: Observation, st: Status, names: seq<Name>)
    requires st.phase == Rolling && st.activeBatch.None? && o.spec.image != ""
    requires forall n :: n in names ==> n in o.fleet
    ensures var after := Deploy(o, st, names);
            && after.activeBatch == Some(Batch(names, o.spec.image, o.now)) && after.phase == Rolling
            && after.instanceImages == st.instanceImages + map n | n in names :: o.spec.image
  {
    var after := Deploy(o, st, names);
    assert forall n :: n in names ==> Expected(o.spec, st, o.fleet[n], o.spec.image) == o.spec.image;
    assert after.instanceImages == st.instanceImages + map n | n in names :: o.spec.image;
  }

  /** A deployment that changes an entry records when. */
  lemma DeployStampsTime(o: Observation, st: Status, names: seq<Name>, n: Name)
    requires forall m :: m in names ==> m in o.fleet
    ensures ImageOf(Deploy(o, st, names), n) != ImageOf(st, n) ==> Deploy(o, st, names).lastDeploy == Some(o.now)
    ensures (forall m :: m in names ==> ImageOf(Deploy(o, st, names), m) == ImageOf(st, m)) ==>
              Deploy(o, st, names).lastDeploy == st.lastDeploy
  {
    var images := map m | m in names && Reassigned(o, st, m) :: Expected(o.spec, st, o.fleet[m], o.spec.image);
    if images != map[] {
      var m :| m in images;
      assert ImageOf(Deploy(o, st, names), m) != ImageOf(st, m);
    }
  }

  lemma AllSettled(o: Observation, st: Status)
    requires Valid(o) && Unsettled(o, st.instanceImages) == []
    ensures forall n :: n in o.fleet && ImageOf(st, n) == o.spec.image ==> Settled(o.fleet[n], o.spec.image)
  {
    forall n | n in o.fleet && ImageOf(st, n) == o.spec.image ensures Settled(o.fleet[n], o.spec.image) {
      assert n !in Unsettled(o, st.instanceImages);
    }
  }

  /** Entries added for names that had another image are exactly the newly assigned ones. */
  lemma AddedEntries(o: Observation, before: Status, counted: Status, after: Status, names: seq<Name>)
    requires forall n :: n in counted.instanceImages ==> ImageOf(before, n) == counted.instanceImages[n]
    requires forall n :: n in names ==> ImageOf(before, n) != o.spec.image
    requires after.instanceImages == counted.instanceImages + map n | n in names :: o.spec.image
    ensures NewlyAssigned(o, before, after) == (set n | n in names)
  {}

  lemma OutdatedWereNotAssigned(o: Observation, st: Status)
    requires Valid(o) && Unsettled(o, st.instanceImages) == []
    ensures forall n :: n in NextBatch(o) ==> n in o.fleet && ImageOf(st, n) != o.spec.image
  {
    AllSettled(o, st);
    NextBatchIsOutdated(o);
  }

  predicate OneBatchAssigned(o: Observation, st: Status, after: Status)
    requires Valid(o)
  {
    && NewlyAssigned(o, st, after) == (set n | n in NextBatch(o))
    && |NewlyAssigned(o, st, after)| == |NextBatch(o)| <= BatchLimit(o.spec)
    && after.phase == Rolling
    && after.activeBatch == Some(Batch(NextBatch(o), o.spec.image, o.now))
    && (NextBatch(o) != [] ==> after.lastDeploy == Some(o.now))
    && after.instanceImages.Keys <= o.fleet.Keys
  }

  lemma AssigningIsBounded(o: Observation, st: Status)
    requires Valid(o) && st.phase == Rolling && o.spec.image != ""
    requires st.activeBatch.None? && Unsettled(o, st.instanceImages) == []
    ensures OneBatchAssigned(o, st, RollingBy(o, st, AssignsNextBatch))
  {
    OutdatedWereNotAssigned(o, st);
    CountingAssignsNothing(o, Track(o, st));
    AssigningFrom(o, st, UpdateCounts(o, Track(o, st)));
  }

  lemma AssigningFrom(o: Observation, st: Status, counted: Status)
    requires Valid(o) && counted.phase == Rolling && o.spec.image != "" && counted.activeBatch.None?
    requires counted.instanceImages.Keys <= o.fleet.Keys
    requires forall n :: n in counted.instanceImages ==> ImageOf(st, n) == counted.instanceImages[n]
    requires forall n :: n in NextBatch(o) ==> n in o.fleet && ImageOf(st, n) != o.spec.image
    ensures OneBatchAssigned(o, st, Deploy(o, counted, NextBatch(o)))
  {
    NextBatchIsOutdated(o);
    ListedSize(NextBatch(o));
    RollingDeploy(o, counted, NextBatch(o));
    AddedEntries(o, st, counted, Deploy(o, counted, NextBatch(o)), NextBatch(o));
    if NextBatch(o) != [] {
      assert NextBatch(o)[0] in NextBatch(o);
      DeployStampsTime(o, counted, NextBatch(o), NextBatch(o)[0]);
    }
  }

  /** Without break glass, a Rolling reconcile assigns the target to somebody only when everybody already assigned
      it has settled on it, and then exactly to the next batch: as many outdated instances as the limit allows,
      none of which was assigned the target before, and all of which the batch record names. */
  lemma RollingAssignsOneBatch(o: Observation, st: Status)
    requires Valid(o) && st.phase == Rolling && !BreakGlass(o.spec) && o.spec.image != ""
    ensures NewlyAssigned(o, st, RollingStep(o, st)) != {} ==>
              && st.activeBatch.None? && OneBatchAssigned(o, st, RollingStep(o, st))
              && forall n :: n in o.fleet && ImageOf(st, n) == o.spec.image ==> Settled(o.fleet[n], o.spec.image)
  {
    var move := RollingMoveOf(o, st);
    BreakGlassIsNeededToAssignAll(o, st);
    if move.AssignsNextBatch? {
      NextBatchIsChosenWhenSettled(o, st);
      AssigningIsBounded(o, st);
      AllSettled(o, st);
    } else {
      OnlyNextBatchAssigns(o, st, move);
    }
  }

  lemma NextBatchIsOutdated(o: Observation)
    requires Valid(o)
    ensures NoDuplicates(NextBatch(o))
    ensures forall n :: n in NextBatch(o) ==> n in o.fleet && o.fleet[n].resolved != o.spec.image
  {
    forall n | n in NextBatch(o) ensures n in Outdated(o) {}
  }

  // ----------------------------------------------- when a step may move on

  /** The settle delay is over and every HTTP check that is configured passes. */
  predicate ChecksPassed(o: Observation, names: seq<Name>, since: Option<Time>) {
    && (since.Some? ==> o.now - since.value >= SettleDelay(o.spec))
    && (o.spec.healthEndpoint != "" ==> forall n :: n in names ==> n !in o.faults.httpDown && n !in o.faults.httpBroken)
  }

  lemma PassedGateMeansSettled(o: Observation, st: Status, names: seq<Name>, target: Image, since: Option<Time>)
    requires forall n :: n in names ==> n in o.fleet && Expected(o.spec, st, o.fleet[n], target) == target
    requires GateOf(o, st, names, target, since) == Passed
    ensures forall n :: n in names ==> Settled(o.fleet[n], target)
    ensures o.spec.healthChecks ==> ChecksPassed(o, names, since)
  {}

  lemma BatchClearedBy(o: Observation, st: Status, move: RollingMove)
    requires Valid(o) && st.phase == Rolling && st.activeBatch.Some?
    requires RollingBy(o, st, move).phase == Rolling && RollingBy(o, st, move).activeBatch.None?
    ensures move == BatchIsGone || move == BatchAwaits(Passed) || move == CompletionAwaits(Passed)
  {}

  lemma MoveWithBatch(o: Observation, st: Status)
    requires Valid(o) && st.activeBatch.Some?
    ensures var batch, move := st.activeBatch.value, RollingMoveOf(o, st);
            && !move.CompletionAwaits? && (move == BatchIsGone ==> Members(o, batch) == [])
            && (move.BatchAwaits? ==>
                  move.gate == GateOf(o, Track(o, st), Members(o, batch), BatchTarget(o, batch), Some(batch.start)))
  {}

  /** A stored batch is dropped while Rolling goes on only when every member still listed runs the batch target,
      ready and connected for its current generation and, with health checks on, past its settle delay. */
  lemma BatchClearsOnlyWhenReady(o: Observation, st: Status)
    requires Valid(o) && st.phase == Rolling && st.activeBatch.Some?
    requires RollingStep(o, st).phase == Rolling && RollingStep(o, st).activeBatch.None?
    ensures var batch := st.activeBatch.value;
            && (forall n :: n in Members(o, batch) ==> Settled(o.fleet[n], BatchTarget(o, batch)))
            && (o.spec.healthChecks && Members(o, batch) != [] ==>
                  ChecksPassed(o, Members(o, batch), Some(batch.start)))
  {
    var batch, move := st.activeBatch.value, RollingMoveOf(o, st);
    BatchClearedBy(o, st, move);
    MoveWithBatch(o, st);
    if move == BatchAwaits(Passed) {
      PassedGateMeansSettled(o, Track(o, st), Members(o, batch), BatchTarget(o, batch), Some(batch.start));
    }
  }

  lemma CompletedBy(o: Observation, st: Status, move: RollingMove)
    requires Valid(o) && st.phase == Rolling && RollingBy(o, st, move).phase == Completed
    ensures move == CompletionAwaits(Passed)
  {}

  lemma CompletionGate(o: Observation, st: Status)
    requires Valid(o) && RollingMoveOf(o, st).CompletionAwaits?
    ensures RollingMoveOf(o, st).gate == GateOf(o, Track(o, st), o.order, o.spec.image, SettleReference(st))
  {}

  /** A rollout completes only when every instance has settled on the target. */
  lemma CompletesOnlyWhenAllSettled(o: Observation, st: Status)
    requires Valid(o) && st.phase == Rolling && RollingStep(o, st).phase == Completed
    ensures forall n :: n in o.fleet ==> Settled(o.fleet[n], o.spec.image)
    ensures o.spec.healthChecks ==> ChecksPassed(o, o.order, SettleReference(st))
  {
    CompletedBy(o, st, RollingMoveOf(o, st));
    CompletionGate(o, st);
    PassedGateMeansSettled(o, Track(o, st), o.order, o.spec.image, SettleReference(st));
  }

  lemma HandedOverBy(o: Observation, st: Status, move: CanaryMove)
    requires Valid(o) && st.phase == Canary && CanaryBy(o, st, move).phase == Rolling
    ensures move == NoCanaries || move == CanaryAwaits(Passed)
  {
    if move.CanaryAwaits? { GateHandsOver(o, Deploy(o, Track(o, st), o.order), move.gate); }
  }

  lemma GateHandsOver(o: Observation, st: Status, gate: Gate)
    requires st.phase == Canary
    ensures AfterCanaryGate(o, st, gate).phase == Rolling <==> gate == Passed
  {}

  lemma CanaryGate(o: Observation, st: Status)
    requires Valid(o)
    ensures var deployed := Deploy(o, Track(o, st), o.order);
            && (CanaryMoveOf(o, st).CanaryAwaits? ==>
                  CanaryMoveOf(o, st).gate ==
                  GateOf(o, deployed, Canaries(o), o.spec.image, SettleReference(deployed)))
            && (CanaryMoveOf(o, st) == NoCanaries ==> Canaries(o) == [])
  {}

  /** Canary hands over to Rolling only without canaries, or when all of them settled and passed their checks. */
  lemma CanaryMovesOnOnlyWhenSettled(o: Observation, st: Status)
    requires Valid(o) && st.phase == Canary && CanaryStep(o, st).phase == Rolling
    ensures Canaries(o) == [] || forall n :: n in Canaries(o) ==> Settled(o.fleet[n], o.spec.image)
    ensures Canaries(o) == [] || !o.spec.healthChecks
            || ChecksPassed(o, Canaries(o), SettleReference(Deploy(o, Track(o, st), o.order)))
  {
    var deployed := Deploy(o, Track(o, st), o.order);
    HandedOverBy(o, st, CanaryMoveOf(o, st));
    CanaryGate(o, st);
    if CanaryMoveOf(o, st).CanaryAwaits? {
      PassedGateMeansSettled(o, deployed, Canaries(o), o.spec.image, SettleReference(deployed));
    }
  }

  lemma RestoredMeansReady(o: Observation, st: Status)
    requires Valid(o) && st.phase == RollingBack && BackMoveOf(o, st) == Restored
    ensures var target := RollbackTarget(o.spec, st);
            target != "" && forall n :: n in o.fleet ==> o.fleet[n].resolved == target && Ready(o.fleet[n])
  {}

  /** RollingBack reaches Idle only when every instance is assigned the rollback target, has resolved it and is ready. */
  lemma RollbackEndsOnlyWhenRestored(o: Observation, st: Status)
    requires Valid(o) && st.phase == RollingBack && RollingBackStep(o, st).phase == Idle
    ensures var target := RollbackTarget(o.spec, st);
            && target != ""
            && forall n :: n in o.fleet ==>
                 ImageOf(RollingBackStep(o, st), n) == target && o.fleet[n].resolved == target && Ready(o.fleet[n])
  {
    RestoredMeansReady(o, st);
  }

  // ------------------------------------------------------- canary isolation

  lemma GateKeepsAssignments(o: Observation, st: Status, gate: Gate)
    ensures var after := AfterCanaryGate(o, st, gate);
            && after.previousImage == st.previousImage && after.activeBatch == st.activeBatch
            && (after.instanceImages == st.instanceImages || after.instanceImages == UpdateCounts(o, st).instanceImages)
            && (st.phase == Canary ==> after.phase in {Canary, Rolling, Failed, RollingBack})
  {}

  lemma CanaryDeployAssignsExpected(o: Observation, st: Status, after: Status)
    requires Valid(o) && after == Deploy(o, st, o.order)
    ensures forall n :: n in o.fleet ==> ImageOf(after, n) == Expected(o.spec, st, o.fleet[n], o.spec.image)
    ensures after.previousImage == st.previousImage && after.phase == st.phase
  {
    forall n | n in o.fleet ensures ImageOf(after, n) == Expected(o.spec, st, o.fleet[n], o.spec.image) {
      if !Reassigned(o, st, n) { assert n !in after.instanceImages || after.instanceImages[n] == ImageOf(st, n); }
    }
  }

  lemma CanaryAssignments(o: Observation, st: Status, gate: Gate)
    requires Valid(o) && st.phase == Canary
    ensures var after := CanaryBy(o, st, CanaryAwaits(gate));
            && after.previousImage == Track(o, st).previousImage
            && forall n :: n in o.fleet ==>
                 ImageOf(after, n) == Expected(o.spec, Track(o, st), o.fleet[n], o.spec.image)
  {
    var tracked := Track(o, st);
    var deployed := Deploy(o, tracked, o.order);
    CanaryDeployAssignsExpected(o, tracked, deployed);
    GateKeepsAssignments(o, deployed, gate);
    CountingAssignsNothing(o, deployed);
  }

  /** With a baseline and no break glass, a deploying Canary reconcile assigns the target to exactly the instances
      matching the canary selector and the baseline to every other, and that is what each of them then pulls. */
  lemma CanaryIsolation(o: Observation, st: Status)
    requires Valid(o) && st.phase == Canary && !BreakGlass(o.spec) && o.spec.image != ""
    requires Track(o, st).previousImage != "" && CanaryMoveOf(o, st).CanaryAwaits?
    ensures var after := CanaryStep(o, st);
            && after.previousImage == Track(o, st).previousImage
            && forall n :: n in o.fleet ==>
                 var image := if IsCanary(o.spec, o.fleet[n]) then o.spec.image else after.previousImage;
                 && ImageOf(after, n) == image
                 && Resolve(o.spec, after, n, o.fleet[n]) == Some(image)
  {
    CanaryAssignments(o, st, CanaryMoveOf(o, st).gate);
  }

  // ------------------------------------------------------ rollback baseline

  /** What a step may do to the baseline. */
  predicate BaselineEffect(o: Observation, st: Status, after: Status) {
    after.previousImage == st.previousImage || (o.baseline != "" && after.previousImage == o.baseline)
  }

  /** A reconcile keeps the baseline, writes the unanimous image of the fleet, or, in RollingBack only, clears it. */
  lemma BaselineIsUnanimousWhenWritten(o: Observation, st: Status)
    requires Valid(o)
    ensures BaselineEffect(o, st, ChannelStep(o, st))
            || (st.phase == RollingBack && ChannelStep(o, st).phase == Idle && ChannelStep(o, st).previousImage == "")
  {
    match st.phase
    case Idle => IdleBaseline(o, st, IdleMoveOf(o, st));
    case Canary => CanaryBaseline(o, st, CanaryMoveOf(o, st));
    case Rolling => RollingBaseline(o, st, RollingMoveOf(o, st));
    case _ =>
  }

  lemma IdleBaseline(o: Observation, st: Status, move: IdleMove)
    ensures BaselineEffect(o, st, IdleBy(o, st, move))
  {}

  lemma CanaryBaseline(o: Observation, st: Status, move: CanaryMove)
    requires Valid(o)
    ensures BaselineEffect(o, st, CanaryBy(o, st, move))
  {
    if move.CanaryAwaits? {
      GateKeepsAssignments(o, Deploy(o, Track(o, st), o.order), move.gate);
    }
  }

  lemma RollingBaseline(o: Observation, st: Status, move: RollingMove)
    requires Valid(o)
    ensures BaselineEffect(o, st, RollingBy(o, st, move))
  {}
}
