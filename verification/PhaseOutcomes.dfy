/** Exactly when each phase ends where: the outcome of one reconcile in terms of what it found, both ways. */
module PhaseOutcomes {
  import opened Wrappers
  import opened StringLists
  import opened ImageVersions
  import opened ChannelModel
  import opened ChannelSteps
  import opened PhaseSafety

  // ------------------------------------------------------------------- Idle

  /** Somebody reports another image than the target. */
  predicate SomebodyOff(o: Observation) { exists n :: n in o.fleet && o.fleet[n].resolved != o.spec.image }

  lemma IdleDecision(o: Observation, st: Status)
    requires Valid(o) && st.phase == Idle
    ensures var move := IdleMoveOf(o, st);
            && (move == ListingFails <==> o.faults.list)
            && (move == Starts <==> !o.faults.list && SomebodyOff(o) && !o.refused)
            && (move == EverybodyUpToDate <==> !o.faults.list && o.fleet != map[] && !SomebodyOff(o))
            && (move == RefusesDowngrade <==> !o.faults.list && SomebodyOff(o) && o.refused)
  {
    assert forall n :: n in o.fleet ==> Expected(o.spec, Track(o, st), o.fleet[n], o.spec.image) == o.spec.image;
    if o.fleet != map[] { var n :| n in o.fleet; assert n in o.order; }
    if o.order != [] { assert o.order[0] in o.order; }
  }

  /** A rollout starts exactly when listing works, somebody runs another image and the target is not refused; it starts in
      Canary exactly when canaries are enabled. */
  lemma IdleStartsIff(o: Observation, st: Status)
    requires Valid(o) && st.phase == Idle
    ensures var after, starts := IdleStep(o, st), !o.faults.list && SomebodyOff(o) && !o.refused;
            && (after.phase == Canary <==> starts && o.spec.canaryEnabled)
            && (after.phase == Rolling <==> starts && !o.spec.canaryEnabled)
            && (after.phase == Failed <==> o.faults.list)
            && (starts ==> after.startTime == Some(o.now) && after.instances == |o.fleet| && after.upToDate == |UpToDate(o)|)
            && forall n :: n in o.fleet && starts ==> ImageOf(after, n) == ImageOf(st, n)
  {
    IdleDecision(o, st);
    IdleEnds(o, st, IdleMoveOf(o, st));
  }

  lemma IdleEnds(o: Observation, st: Status, move: IdleMove)
    requires st.phase == Idle
    ensures var after := IdleBy(o, st, move);
            && (move == Starts ==>
                  && after.phase == (if o.spec.canaryEnabled then Canary else Rolling) && after.startTime == Some(o.now)
                  && after.instances == |o.fleet| && after.upToDate == |UpToDate(o)|
                  && forall n :: n in o.fleet ==> ImageOf(after, n) == ImageOf(st, n))
            && (move == ListingFails ==> after.phase == Failed)
            && (move != Starts && move != ListingFails ==> after.phase == Idle)
  {}

  /** When everybody runs the target, everybody ends up with an entry, and nobody's entry changes. */
  lemma IdleAdoptsEverybody(o: Observation, st: Status)
    requires Valid(o) && st.phase == Idle && !o.faults.list && !SomebodyOff(o)
    ensures forall n :: n in o.fleet ==>
              && n in IdleStep(o, st).instanceImages
              && IdleStep(o, st).instanceImages[n] == if n in st.instanceImages then st.instanceImages[n] else o.spec.image
  {
    IdleDecision(o, st);
    if o.fleet != map[] { AdoptedEntries(o, st); }
  }

  lemma AdoptedEntries(o: Observation, st: Status)
    requires !SomebodyOff(o)
    ensures forall n :: n in o.fleet ==>
              && n in IdleBy(o, st, EverybodyUpToDate).instanceImages
              && IdleBy(o, st, EverybodyUpToDate).instanceImages[n] ==
                   if n in st.instanceImages then st.instanceImages[n] else o.spec.image
  {}

  /** An Idle reconcile that can list leaves the counts of the fleet it found, and drops the entries of departed instances as
      soon as there is anybody to count. */
  lemma IdleCounts(o: Observation, st: Status)
    requires Valid(o) && st.phase == Idle && !o.faults.list
    ensures var after := IdleStep(o, st);
            && after.instances == |o.fleet| && after.upToDate == |set n | n in o.fleet && o.fleet[n].resolved == o.spec.image|
            && (o.fleet != map[] ==> after.instanceImages.Keys <= o.fleet.Keys)
  {
    IdleDecision(o, st);
    if o.order == [] { assert o.fleet == map[] && UpToDate(o) == {}; }
    if o.fleet != map[] { var n :| n in o.fleet; assert n in o.order; }
    IdleCountsBy(o, st, IdleMoveOf(o, st));
  }

  lemma IdleCountsBy(o: Observation, st: Status, move: IdleMove)
    requires !move.ListingFails?
    ensures var after := IdleBy(o, st, move);
            if move.NobodyListed? then after.instances == 0 && after.upToDate == 0
            else after.instances == |o.fleet| && after.upToDate == |UpToDate(o)| && after.instanceImages.Keys <= o.fleet.Keys
  {}

  // ---------------------------------------------------------------- failures

  /** Where a failure leads: back, when that is asked for and there is an image to go back to. */
  predicate LeadsBack(o: Observation, st: Status) {
    o.spec.rollbackEnabled && o.spec.rollbackOnFailure && (o.spec.rollbackImage != "" || st.previousImage != "")
  }

  /** The target is the break glass image, and somebody is not assigned it yet. */
  predicate BreakGlassAsked(o: Observation, st: Status) {
    && o.spec.breakGlassImage != "" && o.spec.breakGlassImage == o.spec.image
    && exists n :: n in o.fleet && ImageOf(st, n) != o.spec.image
  }

  /** Nothing ends this reconcile before it looks at instances. */
  predicate Unhindered(o: Observation, st: Status) {
    !o.faults.list && !o.refused && !BudgetExceeded(o.spec, st, o.now) && !BreakGlassAsked(o, st)
  }

  lemma TrackingKeepsEntries(o: Observation, st: Status)
    requires Valid(o)
    ensures Track(o, st).instanceImages == st.instanceImages
    ensures BreakGlassNeeded(o, Track(o, st)) <==> BreakGlassNeeded(o, st)
    ensures BreakGlassNeeded(o, st) <==> BreakGlassAsked(o, st)
  {
    if BreakGlassAsked(o, st) {
      var n :| n in o.fleet && ImageOf(st, n) != o.spec.image;
      assert n in o.order;
    }
  }

  /** The rollout's time has run out: more than the budget has passed since it started. */
  lemma TimeoutIff(o: Observation, st: Status)
    requires Valid(o) && st.phase in {Canary, Rolling} && !o.faults.list && !o.refused && !BreakGlassAsked(o, st)
    ensures var after := ChannelStep(o, st);
            && (after.phase in {Failed, RollingBack} && after.reason == UpgradeTimeout <==>
                  st.startTime.Some? && o.now > st.startTime.value + UpgradeBudget(o.spec, st.instances))
            && (BudgetExceeded(o.spec, st, o.now) ==>
                  after.phase == (if LeadsBack(o, st) then RollingBack else Failed)
                  && (st.phase == Rolling ==> after.activeBatch.None?))
  {
    TrackingKeepsEntries(o, st);
    if st.phase == Canary {
      CanaryTimesOutIff(o, st);
      CanaryReasons(o, st, CanaryMoveOf(o, st));
    } else {
      RollingTimesOutIff(o, st);
      RollingReasons(o, st, RollingMoveOf(o, st));
    }
  }

  lemma CanaryTimesOutIff(o: Observation, st: Status)
    requires Valid(o) && !o.faults.list && !o.refused && !BreakGlassNeeded(o, st)
    ensures CanaryMoveOf(o, st) == CanaryTimesOut <==> BudgetExceeded(o.spec, st, o.now)
  {}

  lemma RollingTimesOutIff(o: Observation, st: Status)
    requires Valid(o) && !o.faults.list && !o.refused && !BreakGlassNeeded(o, st)
    ensures RollingMoveOf(o, st) == RollingTimesOut <==> BudgetExceeded(o.spec, st, o.now)
  {}

  lemma CanaryReasons(o: Observation, st: Status, move: CanaryMove)
    requires Valid(o) && st.phase == Canary
    ensures var after := CanaryBy(o, st, move);
            && (move == CanaryTimesOut ==>
                  after.phase == (if LeadsBack(o, st) then RollingBack else Failed) && after.reason == UpgradeTimeout)
            && (move != CanaryTimesOut && after.phase in {Failed, RollingBack} ==> after.reason != UpgradeTimeout)
  {
    if move.CanaryAwaits? { CanaryGateReasons(o, Deploy(o, Track(o, st), o.order), move.gate); }
  }

  lemma CanaryGateReasons(o: Observation, st: Status, gate: Gate)
    requires st.phase == Canary
    ensures var after := AfterCanaryGate(o, st, gate);
            after.phase in {Failed, RollingBack} ==> after.reason == ErrorReason(o) && gate in {Rejects, ChecksBroken}
  {}

  lemma RollingReasons(o: Observation, st: Status, move: RollingMove)
    requires Valid(o) && st.phase == Rolling
    ensures var after := RollingBy(o, st, move);
            && (move == RollingTimesOut ==>
                  && after.phase == (if LeadsBack(o, st) then RollingBack else Failed) && after.reason == UpgradeTimeout
                  && after.activeBatch.None?)
            && (move != RollingTimesOut && after.phase in {Failed, RollingBack} ==> after.reason != UpgradeTimeout)
  {}

  // ------------------------------------------------------------------- gates

  lemma {:induction false} ProbeOutcome(o: Observation, names: seq<Name>)
    requires forall n :: n in names ==> n in o.fleet
    ensures Probe(o, names) == Healthy <==>
              forall n :: n in names ==> Connected(o.fleet[n]) && !TerminallyFailed(o.fleet[n]) && AnswersHttp(o, n)
    ensures Probe(o, names) == Broken ==>
              exists n :: n in names && (TerminallyFailed(o.fleet[n]) || (o.spec.healthEndpoint != "" && n in o.faults.httpBroken))
  {
    if names != [] { ProbeOutcome(o, names[1..]); }
  }

  /** The HTTP check, if one is configured, can be made and passes. */
  predicate AnswersHttp(o: Observation, n: Name) {
    o.spec.healthEndpoint != "" ==> n !in o.faults.httpDown && n !in o.faults.httpBroken
  }

  predicate DelayOver(o: Observation, since: Option<Time>) {
    since.Some? ==> o.now - since.value >= (if o.spec.initialDelay.Some? then o.spec.initialDelay.value else 30)
  }

  /** Everybody in the group runs the image, ready and connected; with health checks on, the settle delay is over and
      everybody answers. */
  predicate GroupPasses(o: Observation, names: set<Name>, image: Image, since: Option<Time>)
    requires names <= o.fleet.Keys
  {
    && (forall n :: n in names ==> o.fleet[n].resolved == image && Ready(o.fleet[n]) && Connected(o.fleet[n]))
    && (o.spec.healthChecks ==> DelayOver(o, since) && forall n :: n in names ==> AnswersHttp(o, n))
  }

  lemma GatePassesIff(o: Observation, st: Status, names: seq<Name>, image: Image, since: Option<Time>)
    requires forall n :: n in names ==> n in o.fleet && Expected(o.spec, st, o.fleet[n], image) == image
    ensures GateOf(o, st, names, image, since) == Passed <==> GroupPasses(o, (set n | n in names), image, since)
  {
    ProbeOutcome(o, names);
  }

  /** A group fails the rollout only for a terminal failure of one of them or a check that cannot be made, and a terminal
      failure always does. */
  lemma GateFailsFor(o: Observation, st: Status, names: seq<Name>, image: Image, since: Option<Time>)
    requires forall n :: n in names ==> n in o.fleet
    ensures GateOf(o, st, names, image, since) == Rejects <==> exists n :: n in names && TerminallyFailed(o.fleet[n])
    ensures GateOf(o, st, names, image, since) == ChecksBroken ==>
              o.spec.healthChecks && o.spec.healthEndpoint != "" && exists n :: n in names && n in o.faults.httpBroken
  {
    ProbeOutcome(o, names);
  }

  // ----------------------------------------------------------------- Rolling

  /** The members of the open batch that are still there. */
  function PresentMembers(o: Observation, batch: Batch): set<Name> { set n | n in batch.names && n in o.fleet }

  function TargetOf(o: Observation, batch: Batch): Image { if batch.target == "" then o.spec.image else batch.target }

  lemma MembersArePresent(o: Observation, batch: Batch)
    requires Valid(o)
    ensures forall n :: n in Members(o, batch) <==> n in PresentMembers(o, batch)
    ensures Members(o, batch) == [] <==> PresentMembers(o, batch) == {}
  {
    assert forall n :: n in Members(o, batch) <==> n in PresentMembers(o, batch);
    if Members(o, batch) != [] { assert Members(o, batch)[0] in Members(o, batch); }
  }

  lemma RollingWithBatch(o: Observation, st: Status)
    requires Valid(o) && st.phase == Rolling && st.activeBatch.Some? && Unhindered(o, st)
    ensures var batch := st.activeBatch.value;
            RollingMoveOf(o, st) ==
              if PresentMembers(o, batch) == {} then BatchIsGone
              else BatchAwaits(GateOf(o, Track(o, st), Members(o, batch), TargetOf(o, batch), Some(batch.start)))
  {
    TrackingKeepsEntries(o, st);
    MembersArePresent(o, st.activeBatch.value);
  }

  lemma AfterAwaiting(o: Observation, st: Status, gate: Gate)
    requires Valid(o) && st.phase == Rolling && st.activeBatch.Some?
    ensures var after := RollingBy(o, st, BatchAwaits(gate));
            && (after.phase == Rolling && after.activeBatch.None? <==> gate == Passed)
            && (after.phase in {Failed, RollingBack} <==> gate in {Rejects, ChecksBroken})
            && (gate in {NotReady, ChecksWaiting} ==> after.phase == Rolling && after.activeBatch == st.activeBatch)
    ensures RollingBy(o, st, BatchIsGone).phase == Rolling && RollingBy(o, st, BatchIsGone).activeBatch.None?
  {}

  /** An open batch is cleared with the rollout going on exactly when everybody of it still present passes, and the rollout
      is given up when one of them has failed terminally. */
  lemma BatchClearsIff(o: Observation, st: Status)
    requires Valid(o) && st.phase == Rolling && st.activeBatch.Some? && Unhindered(o, st)
    ensures var after, batch := RollingStep(o, st), st.activeBatch.value;
            var present := PresentMembers(o, batch);
            && (after.phase == Rolling && after.activeBatch.None? <==>
                  present == {} || GroupPasses(o, present, TargetOf(o, batch), Some(batch.start)))
            && ((exists n :: n in present && TerminallyFailed(o.fleet[n])) ==> after.phase in {Failed, RollingBack})
            && (after.phase in {Rolling, Failed, RollingBack})
  {
    var batch := st.activeBatch.value;
    var members := Members(o, batch);
    RollingWithBatch(o, st);
    MembersArePresent(o, batch);
    GatePassesIff(o, Track(o, st), members, TargetOf(o, batch), Some(batch.start));
    GateFailsFor(o, Track(o, st), members, TargetOf(o, batch), Some(batch.start));
    assert PresentMembers(o, batch) == set n | n in members;
    AfterAwaiting(o, st, GateOf(o, Track(o, st), members, TargetOf(o, batch), Some(batch.start)));
  }

  /** Everybody assigned the target has settled on it. */
  predicate NobodyLags(o: Observation, st: Status) {
    forall n :: n in o.fleet && ImageOf(st, n) == o.spec.image ==> Settled(o.fleet[n], o.spec.image)
  }

  lemma NobodyLagsIff(o: Observation, st: Status)
    requires Valid(o)
    ensures Unsettled(o, st.instanceImages) == [] <==> NobodyLags(o, st)
    ensures Outdated(o) == [] <==> !SomebodyOff(o)
    ensures forall n :: n in Unsettled(o, st.instanceImages) <==>
              n in o.fleet && ImageOf(st, n) == o.spec.image && !Settled(o.fleet[n], o.spec.image)
  {
    if !SomebodyOff(o) { assert forall n :: n !in Outdated(o); }
    if Outdated(o) != [] { assert Outdated(o)[0] in Outdated(o); }
    if Unsettled(o, st.instanceImages) != [] { assert Unsettled(o, st.instanceImages)[0] in Unsettled(o, st.instanceImages); }
  }

  lemma RollingWithoutBatch(o: Observation, st: Status)
    requires Valid(o) && st.phase == Rolling && st.activeBatch.None? && Unhindered(o, st)
    ensures RollingMoveOf(o, st) ==
              if !NobodyLags(o, st) then Recovers
              else if SomebodyOff(o) then if o.faults.deploy then NextBatchFails else AssignsNextBatch
              else CompletionAwaits(GateOf(o, Track(o, st), o.order, o.spec.image, SettleReference(st)))
  {
    TrackingKeepsEntries(o, st);
    NobodyLagsIff(o, st);
  }

  /** The moment the settle delay of the whole fleet counts from: the last assignment, or the start of the rollout. */
  function LastAssignment(st: Status): Option<Time> { if st.lastDeploy.Some? then st.lastDeploy else st.startTime }

  lemma AfterCompletionGate(o: Observation, st: Status, gate: Gate)
    requires Valid(o) && st.phase == Rolling && st.activeBatch.None?
    ensures RollingBy(o, st, CompletionAwaits(gate)).phase == Completed <==> gate == Passed
    ensures RollingBy(o, st, Recovers).phase == Rolling
    ensures RollingBy(o, st, NextBatchFails).phase == Failed
  {}

  lemma AssigningStaysRolling(o: Observation, st: Status)
    requires Valid(o) && st.phase == Rolling
    ensures RollingBy(o, st, AssignsNextBatch).phase == Rolling
  {
    NextBatchIsOutdated(o);
  }

  /** A rollout completes exactly when no batch is open and the whole fleet passes. */
  lemma CompletesIff(o: Observation, st: Status)
    requires Valid(o) && st.phase == Rolling && Unhindered(o, st)
    ensures RollingStep(o, st).phase == Completed <==>
              st.activeBatch.None? && GroupPasses(o, o.fleet.Keys, o.spec.image, LastAssignment(st))
  {
    if st.activeBatch.Some? {
      BatchClearsIff(o, st);
    } else {
      RollingWithoutBatch(o, st);
      AssigningStaysRolling(o, st);
      GatePassesIff(o, Track(o, st), o.order, o.spec.image, SettleReference(st));
      assert o.fleet.Keys == set n | n in o.order;
      AfterCompletionGate(o, st, GateOf(o, Track(o, st), o.order, o.spec.image, SettleReference(st)));
    }
  }

  /** The next batch is assigned exactly when none is open, nobody assigned lags, somebody is off the target and the
      assignment can be written; when somebody lags, a batch of exactly those is opened again instead. */
  lemma AssignsIff(o: Observation, st: Status)
    requires Valid(o) && st.phase == Rolling && Unhindered(o, st) && o.spec.image != ""
    ensures var after := RollingStep(o, st);
            && (NewlyAssigned(o, st, after) != {} <==>
                  st.activeBatch.None? && NobodyLags(o, st) && SomebodyOff(o) && !o.faults.deploy)
            && (NewlyAssigned(o, st, after) != {} ==> OneBatchAssigned(o, st, after) && after.lastDeploy == Some(o.now))
            && (st.activeBatch.None? && !NobodyLags(o, st) ==>
                  && after.activeBatch.Some? && after.activeBatch.value.target == o.spec.image
                  && after.activeBatch.value.start == (if st.startTime.Some? then st.startTime.value else o.now)
                  && forall n :: n in after.activeBatch.value.names <==>
                       n in o.fleet && ImageOf(st, n) == o.spec.image && !Settled(o.fleet[n], o.spec.image))
  {
    NobodyLagsIff(o, st);
    if st.activeBatch.Some? {
      RollingWithBatch(o, st);
      OnlyNextBatchAssigns(o, st, RollingMoveOf(o, st));
    } else {
      RollingWithoutBatch(o, st);
      var move := RollingMoveOf(o, st);
      if move.AssignsNextBatch? {
        AssigningIsBounded(o, st);
        NextBatchIsSomebody(o);
      } else {
        OnlyNextBatchAssigns(o, st, move);
        RecoveredBatch(o, st);
      }
    }
  }

  lemma {:induction false} SelectOfConcatenation(a: seq<Name>, b: seq<Name>, keep: Name --> bool)
    requires (forall n :: n in a ==> keep.requires(n)) && (forall n :: n in b ==> keep.requires(n))
    ensures Select(a + b, keep) == Select(a, keep) + Select(b, keep)
  {
    if a == [] {
      assert a + b == b;
    } else {
      assert (a + b)[1..] == a[1..] + b;
      SelectOfConcatenation(a[1..], b, keep);
    }
  }

  lemma PrefixOfConcatenation(a: seq<Name>, b: seq<Name>, k: nat)
    requires k <= |a + b|
    ensures (forall n :: n in (a + b)[..k] ==> n in a) || (forall n :: n in a ==> n in (a + b)[..k])
  {
    if k <= |a| { assert (a + b)[..k] == a[..k]; } else { assert (a + b)[..k] == a + b[..k - |a|]; }
  }

  lemma SelectKeepsOrder(names: seq<Name>, keep: Name --> bool, i: nat, j: nat, k: nat)
    requires (forall n :: n in names ==> keep.requires(n)) && NoDuplicates(names)
    requires i < j < |names| && keep(names[i]) && k <= |Select(names, keep)| && names[j] in Select(names, keep)[..k]
    ensures names[i] in Select(names, keep)[..k]
  {
    var a, b := names[..j], names[j..];
    assert names == a + b && names[i] == a[i] && names[j] !in a;
    SelectOfConcatenation(a, b, keep);
    PrefixOfConcatenation(Select(a, keep), Select(b, keep), k);
  }

  /** The next batch takes those off the target in the order they are listed, as many as there are and the limit allows. */
  lemma NextBatchTakesFirst(o: Observation, i: nat, j: nat)
    requires Valid(o) && i < j < |o.order| && o.order[j] in NextBatch(o)
    requires o.order[i] in o.fleet && o.fleet[o.order[i]].resolved != o.spec.image
    ensures o.order[i] in NextBatch(o)
    ensures |NextBatch(o)| <= (if o.spec.maxParallel <= 0 then 1 else o.spec.maxParallel)
  {
    NextBatchIsOutdated(o);
    SelectKeepsOrder(o.order, n requires n in o.fleet => o.fleet[n].resolved != o.spec.image, i, j, |NextBatch(o)|);
  }

  lemma NextBatchIsSomebody(o: Observation)
    requires Valid(o) && SomebodyOff(o)
    ensures NextBatch(o) != [] && NextBatch(o)[0] in NextBatch(o)
  {
    var n :| n in o.fleet && o.fleet[n].resolved != o.spec.image;
    assert n in Outdated(o);
  }

  lemma RecoveredBatch(o: Observation, st: Status)
    requires Valid(o)
    ensures RollingBy(o, st, Recovers).activeBatch ==
              Some(Batch(Unsettled(o, st.instanceImages), o.spec.image, if st.startTime.Some? then st.startTime.value else o.now))
  {}

  // ------------------------------------------------------------------ Canary

  function CanarySet(o: Observation): set<Name> { set n | n in o.fleet && o.spec.canaryEnabled && o.fleet[n].matchesCanary }

  lemma CanariesAreThose(o: Observation)
    requires Valid(o)
    ensures forall n :: n in Canaries(o) <==> n in CanarySet(o)
    ensures Canaries(o) == [] <==> CanarySet(o) == {}
  {
    assert forall n :: n in Canaries(o) <==> n in CanarySet(o);
    if Canaries(o) != [] { assert Canaries(o)[0] in Canaries(o); }
  }

  /** The moment the settle delay of the canaries counts from: this reconcile, if it changes an entry, or else what it was. */
  function CanaryDelayFrom(o: Observation, st: Status): Option<Time>
    requires Valid(o)
  {
    var deployed := Deploy(o, Track(o, st), o.order);
    if forall n :: n in o.fleet ==> ImageOf(deployed, n) == ImageOf(st, n) then LastAssignment(st) else Some(o.now)
  }

  lemma CanaryDelay(o: Observation, st: Status)
    requires Valid(o)
    ensures SettleReference(Deploy(o, Track(o, st), o.order)) == CanaryDelayFrom(o, st)
  {
    var deployed := Deploy(o, Track(o, st), o.order);
    if forall n :: n in o.fleet ==> ImageOf(deployed, n) == ImageOf(st, n) {
      forall n | n in o.order ensures ImageOf(deployed, n) == ImageOf(Track(o, st), n) {}
      DeployStampsTime(o, Track(o, st), o.order, "");
    } else {
      var n :| n in o.fleet && ImageOf(deployed, n) != ImageOf(st, n);
      DeployStampsTime(o, Track(o, st), o.order, n);
    }
  }

  lemma CanaryDecision(o: Observation, st: Status)
    requires Valid(o) && st.phase == Canary && Unhindered(o, st)
    ensures CanaryMoveOf(o, st) ==
              if CanarySet(o) == {} then NoCanaries
              else if o.faults.deploy then CanaryAssignmentFails
              else CanaryAwaits(GateOf(o, Deploy(o, Track(o, st), o.order), Canaries(o), o.spec.image, CanaryDelayFrom(o, st)))
  {
    TrackingKeepsEntries(o, st);
    CanariesAreThose(o);
    CanaryDelay(o, st);
  }

  lemma CanaryEnds(o: Observation, st: Status)
    requires Valid(o) && st.phase == Canary
    ensures CanaryBy(o, st, NoCanaries).phase == Rolling
    ensures CanaryBy(o, st, CanaryAssignmentFails).phase == Failed
    ensures forall gate :: CanaryBy(o, st, CanaryAwaits(gate)).phase == Rolling <==> gate == Passed
    ensures forall gate :: CanaryBy(o, st, CanaryAwaits(gate)).phase == Canary <==> gate in {NotReady, ChecksWaiting}
  {
    forall gate
      ensures CanaryBy(o, st, CanaryAwaits(gate)).phase == Rolling <==> gate == Passed
      ensures CanaryBy(o, st, CanaryAwaits(gate)).phase == Canary <==> gate in {NotReady, ChecksWaiting}
    {
      GateEnds(o, Deploy(o, Track(o, st), o.order), gate);
    }
  }

  lemma GateEnds(o: Observation, st: Status, gate: Gate)
    requires st.phase == Canary
    ensures AfterCanaryGate(o, st, gate).phase == Rolling <==> gate == Passed
    ensures AfterCanaryGate(o, st, gate).phase == Canary <==> gate in {NotReady, ChecksWaiting}
  {}

  lemma CanariesAwaitTheTarget(o: Observation, st: Status)
    requires Valid(o) && st.phase == Canary
    ensures forall n :: n in Canaries(o) ==> n in o.fleet && Expected(o.spec, st, o.fleet[n], o.spec.image) == o.spec.image
  {}

  /** Canary hands over to Rolling exactly when nobody is a canary, or the assignments are written and every canary passes;
      it is given up when one of them has failed terminally. */
  lemma CanaryMovesIff(o: Observation, st: Status)
    requires Valid(o) && st.phase == Canary && Unhindered(o, st)
    ensures var after, canaries := CanaryStep(o, st), CanarySet(o);
            && (after.phase == Rolling <==>
                  canaries == {} || (!o.faults.deploy && GroupPasses(o, canaries, o.spec.image, CanaryDelayFrom(o, st))))
            && ((exists n :: n in canaries && TerminallyFailed(o.fleet[n])) ==> after.phase in {Failed, RollingBack})
            && after.phase in {Canary, Rolling, Failed, RollingBack}
  {
    var deployed, since := Deploy(o, Track(o, st), o.order), CanaryDelayFrom(o, st);
    CanaryDecision(o, st);
    CanaryEnds(o, st);
    CanariesAreThose(o);
    CanariesAwaitTheTarget(o, deployed);
    GatePassesIff(o, deployed, Canaries(o), o.spec.image, since);
    GateFailsFor(o, deployed, Canaries(o), o.spec.image, since);
    assert CanarySet(o) == set n | n in Canaries(o);
    if CanaryMoveOf(o, st).CanaryAwaits? { CanaryStays(o, st, CanaryMoveOf(o, st).gate); }
  }

  lemma CanaryStays(o: Observation, st: Status, gate: Gate)
    requires Valid(o) && st.phase == Canary
    ensures CanaryBy(o, st, CanaryAwaits(gate)).phase in {Canary, Rolling, Failed, RollingBack}
  {
    GateKeepsAssignments(o, Deploy(o, Track(o, st), o.order), gate);
  }

  // ------------------------------------------------------------------ counts

  predicate Counted(o: Observation, after: Status) {
    && after.instances == |o.fleet| && after.upToDate == |set n | n in o.fleet && o.fleet[n].resolved == o.spec.image|
    && after.instanceImages.Keys <= o.fleet.Keys
  }

  lemma CanaryGateCounts(o: Observation, st: Status, gate: Gate)
    ensures gate != ChecksWaiting ==> Counted(o, AfterCanaryGate(o, st, gate))
  {}

  lemma CanaryCounts(o: Observation, st: Status, gate: Gate)
    requires Valid(o) && gate != ChecksWaiting
    ensures Counted(o, CanaryBy(o, st, CanaryAwaits(gate)))
  {
    CanaryGateCounts(o, Deploy(o, Track(o, st), o.order), gate);
  }

  lemma WaitingForChecksIsSettled(o: Observation, st: Status, names: seq<Name>, image: Image, since: Option<Time>)
    requires forall n :: n in names ==> n in o.fleet && Expected(o.spec, st, o.fleet[n], image) == image
    ensures GateOf(o, st, names, image, since) == ChecksWaiting ==> forall n :: n in names ==> Settled(o.fleet[n], image)
  {}

  /** Counts are fresh after a Canary reconcile that assigned, except while settled canaries wait for their checks. */
  lemma CanaryCountsUnlessChecking(o: Observation, st: Status)
    requires Valid(o) && st.phase == Canary && Unhindered(o, st) && !o.faults.deploy && CanarySet(o) != {}
    requires CanaryStep(o, st).phase != Canary || exists n :: n in CanarySet(o) && !Settled(o.fleet[n], o.spec.image)
    ensures Counted(o, CanaryStep(o, st))
  {
    var deployed := Deploy(o, Track(o, st), o.order);
    CanaryDecision(o, st);
    CanariesAreThose(o);
    CanariesAwaitTheTarget(o, deployed);
    CanaryEnds(o, st);
    WaitingForChecksIsSettled(o, deployed, Canaries(o), o.spec.image, CanaryDelayFrom(o, st));
    CanaryCounts(o, st, if CanaryMoveOf(o, st).gate == ChecksWaiting then NotReady else CanaryMoveOf(o, st).gate);
  }

  lemma RollingCountsBy(o: Observation, st: Status, move: RollingMove)
    requires Valid(o) && st.phase == Rolling
    requires move.BatchIsGone? || move.BatchAwaits? || move.AssignsNextBatch? || move.NextBatchFails? || move.CompletionAwaits?
    ensures RollingBy(o, st, move).instances == |o.fleet| && RollingBy(o, st, move).upToDate == |UpToDate(o)|
  {}

  /** And after every Rolling reconcile that looked at instances, except one that only opens a batch of laggards again. */
  lemma RollingCounts(o: Observation, st: Status)
    requires Valid(o) && st.phase == Rolling && Unhindered(o, st) && (st.activeBatch.Some? || NobodyLags(o, st))
    ensures var after := RollingStep(o, st);
            after.instances == |o.fleet| && after.upToDate == |set n | n in o.fleet && o.fleet[n].resolved == o.spec.image|
  {
    if st.activeBatch.Some? { RollingWithBatch(o, st); } else { RollingWithoutBatch(o, st); }
    RollingCountsBy(o, st, RollingMoveOf(o, st));
  }

  // ------------------------------------------------------------- RollingBack

  /** The image a rollback restores: the configured one, or else the recorded baseline. */
  function ImageToRestore(spec: Spec, st: Status): Image { if spec.rollbackImage != "" then spec.rollbackImage else st.previousImage }

  predicate Restorable(o: Observation, image: Image) {
    forall n :: n in o.fleet ==> o.fleet[n].resolved == image && Ready(o.fleet[n])
  }

  lemma BackDecision(o: Observation, st: Status)
    requires Valid(o) && st.phase == RollingBack
    ensures BackMoveOf(o, st) ==
              if ImageToRestore(o.spec, st) == "" then NoTarget
              else if o.faults.list then BackListingFails
              else if exists n :: n in o.fleet && TerminallyFailed(o.fleet[n]) then BackRejects
              else if Restorable(o, ImageToRestore(o.spec, st)) then Restored else BackWaits
  {
    var target := ImageToRestore(o.spec, st);
    if AnyTerminal(o, o.order) {
      var n :| n in o.order && TerminallyFailed(o.fleet[n]);
    }
    BackExpects(o, st, AssignRollback(o, st), target);
  }

  lemma BackExpects(o: Observation, st: Status, back: Status, target: Image)
    requires back.phase == RollingBack && back.previousImage == st.previousImage && target == ImageToRestore(o.spec, st)
    ensures forall n :: n in o.fleet ==> Expected(o.spec, back, o.fleet[n], target) == target
  {}

  lemma BackEnds(o: Observation, st: Status, move: BackMove)
    requires Valid(o) && st.phase == RollingBack
    ensures var after := BackBy(o, st, move);
            && (after.phase == Idle <==> move == Restored)
            && (after.phase == RollingBack <==> move == BackWaits)
            && (move in {Restored, BackWaits, BackRejects} ==>
                  && after.activeBatch.None?
                  && forall n :: n in o.fleet ==> n in after.instanceImages && after.instanceImages[n] == ImageToRestore(o.spec, st))
            && (move == Restored ==> after.previousImage == "" && after.retryCount == 0 && after.lastFailure.None?)
  {}

  /** A rollback ends in Idle exactly when there is an image to restore, listing works, nobody has failed terminally and
      everybody runs that image and is ready; until then everybody stays assigned it. */
  lemma RollbackEndsIff(o: Observation, st: Status)
    requires Valid(o) && st.phase == RollingBack
    ensures var after, target := RollingBackStep(o, st), ImageToRestore(o.spec, st);
            var failed := exists n :: n in o.fleet && TerminallyFailed(o.fleet[n]);
            && (after.phase == Idle <==> target != "" && !o.faults.list && Restorable(o, target))
            && (after.phase == Failed <==> target == "" || o.faults.list || failed)
            && (target != "" && !o.faults.list ==>
                  forall n :: n in o.fleet ==> n in after.instanceImages && after.instanceImages[n] == target)
            && (after.phase == Idle ==> after.previousImage == "")
  {
    BackDecision(o, st);
    BackEnds(o, st, BackMoveOf(o, st));
    BackPhases(o, st, BackMoveOf(o, st));
  }

  lemma BackPhases(o: Observation, st: Status, move: BackMove)
    requires Valid(o) && st.phase == RollingBack
    ensures BackBy(o, st, move).phase == Failed <==> move in {NoTarget, BackListingFails, BackRejects}
  {}

  // ---------------------------------------------------------------- baseline

  lemma UnhinderedRolling(o: Observation, st: Status, move: RollingMove)
    requires Valid(o) && st.phase == Rolling
    requires !move.RollingListingFails? && !move.RollingRefuses? && !move.RollingTimesOut?
    ensures RollingBy(o, st, move).previousImage == Track(o, st).previousImage
  {}

  lemma UnhinderedCanary(o: Observation, st: Status, move: CanaryMove)
    requires Valid(o) && st.phase == Canary
    requires !move.CanaryListingFails? && !move.CanaryRefuses? && !move.CanaryTimesOut?
    ensures CanaryBy(o, st, move).previousImage == Track(o, st).previousImage
  {
    if move.CanaryAwaits? { GateKeepsAssignments(o, Deploy(o, Track(o, st), o.order), move.gate); }
  }

  /** Whenever the whole fleet reports one image other than the target, the reconcile that goes on to look at instances
      records it as the image to go back to. */
  lemma UnanimousFleetIsRecorded(o: Observation, st: Status)
    requires Valid(o) && o.fleet != map[] && o.baseline != "" && o.baseline != o.spec.image
    requires !o.faults.list && (st.phase == Idle || (st.phase in {Canary, Rolling} && Unhindered(o, st)))
    ensures ChannelStep(o, st).previousImage == o.baseline
  {
    var n :| n in o.fleet;
    assert n in o.order;
    match st.phase
    case Idle => IdleRecords(o, st, IdleMoveOf(o, st));
    case Canary => CanaryDecision(o, st); UnhinderedCanary(o, st, CanaryMoveOf(o, st));
    case Rolling =>
      if st.activeBatch.Some? { RollingWithBatch(o, st); } else { RollingWithoutBatch(o, st); }
      UnhinderedRolling(o, st, RollingMoveOf(o, st));
  }

  lemma IdleRecords(o: Observation, st: Status, move: IdleMove)
    requires st.phase == Idle && o.order != [] && o.baseline != "" && o.baseline != o.spec.image
    requires !move.ListingFails? && !move.NobodyListed?
    ensures IdleBy(o, st, move).previousImage == o.baseline
  {}
}
