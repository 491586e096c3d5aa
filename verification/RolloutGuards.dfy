/** Guards that hold in every phase: no fleet is rolled backwards by accident, every image the controller waits
    for is the one the instance will pull, and two corners where the code does less than its phases suggest. */
module RolloutGuards {
  import opened Wrappers
  import opened ImageVersions
  import opened ChannelModel
  import opened ChannelSteps
  import opened PhaseSafety
  import FleetImages

  // -------------------------------------------------------- downgrade guard

  lemma ResolvedImagesCover(fleet: Fleet, order: seq<Name>)
    requires Lists(fleet, order)
    ensures forall n :: n in fleet ==> fleet[n].resolved in ResolvedImages(fleet, order)
    ensures forall x :: x in ResolvedImages(fleet, order) ==> exists n :: n in fleet && fleet[n].resolved == x
    ensures |ResolvedImages(fleet, order)| == |order|
  {
    var images := ResolvedImages(fleet, order);
    forall n | n in fleet ensures fleet[n].resolved in images {
      assert n in order;
      var i :| 0 <= i < |order| && order[i] == n;
      assert images[i] == fleet[n].resolved;
    }
    forall x | x in images ensures exists n :: n in fleet && fleet[n].resolved == x {
      var i :| 0 <= i < |images| && images[i] == x;
      assert order[i] in order;
    }
  }

  lemma OlderTargetHasAFleet(target: Image, images: seq<Image>)
    requires FleetImages.OlderThanFleet(target, images)
    ensures images != [] && exists x :: x in images && x != target
  {
    FleetImages.FleetImageIsModalAndNewest(images);
    if forall x :: x in images ==> x == target {
      FleetImages.UnanimousFleetIsNotDowngraded(target, images);
    }
  }

  lemma EmptyTargetIsNotOlder(images: seq<Image>)
    ensures !FleetImages.OlderThanFleet("", images)
  {}

  lemma RefusalKeepsAssignments(o: Observation, st: Status)
    ensures var after := Refuse(o, st);
            && after.phase == Idle && after.activeBatch.None?
            && forall n :: n in o.fleet ==> ImageOf(after, n) == ImageOf(st, n)
  {}

  /** In no phase that moves instances forward, break glass or not, does an older target change what any instance is
      assigned: the channel ends Idle without a batch. */
  lemma DowngradeIsRefused(spec: Spec, fleet: Fleet, order: seq<Name>, now: Time, faults: Faults, st: Status)
    requires Lists(fleet, order) && !faults.list
    requires st.phase in {Idle, Validating, Canary, Rolling}
    requires !spec.allowDowngrade && FleetImages.OlderThanFleet(spec.image, ResolvedImages(fleet, order))
    ensures var after := ChannelStep(Observe(spec, fleet, order, now, faults), st);
            && after.phase == Idle && after.activeBatch.None?
            && forall n :: n in fleet ==> ImageOf(after, n) == ImageOf(st, n)
  {
    OlderTargetHasAFleet(spec.image, ResolvedImages(fleet, order));
    EmptyTargetIsNotOlder(ResolvedImages(fleet, order));
    ResolvedImagesCover(fleet, order);
    RefusedStep(Observe(spec, fleet, order, now, faults), st);
  }

  lemma RefusedStep(o: Observation, st: Status)
    requires Valid(o) && !o.faults.list && o.refused && o.order != [] && o.spec.image != ""
    requires st.phase in {Idle, Validating, Canary, Rolling}
    requires exists n :: n in o.fleet && o.fleet[n].resolved != o.spec.image
    ensures var after := ChannelStep(o, st);
            && after.phase == Idle && after.activeBatch.None?
            && forall n :: n in o.fleet ==> ImageOf(after, n) == ImageOf(st, n)
  {
    RefusalKeepsAssignments(o, st);
    if st.phase == Idle {
      var tracked := if Captures(o, st) then Track(o, st) else st.(activeBatch := None);
      assert NeedsUpdate(o, st);
      RefusalKeepsAssignments(o, tracked);
    }
  }

  // --------------------------------------------- both controllers agree on images

  /** Every member of the open batch is assigned its target, and only Rolling (or a failure on the way out of it)
      has an open batch. */
  predicate BatchIsAssigned(fleet: Fleet, st: Status) {
    && (st.activeBatch.Some? ==> st.phase in {Rolling, Failed})
    && (st.phase == Rolling && st.activeBatch.Some? ==>
          var batch := st.activeBatch.value;
          batch.target != "" && forall n :: n in batch.names && n in fleet ==> ImageOf(st, n) == batch.target)
  }

  lemma OpenedBatchIsAssigned(o: Observation, st: Status, names: seq<Name>)
    requires st.phase == Rolling && o.spec.image != "" && st.activeBatch.None?
    requires forall n :: n in names ==> n in o.fleet
    ensures BatchIsAssigned(o.fleet, Deploy(o, st, names))
  {
    RollingDeploy(o, st, names);
  }

  lemma AssigningAllAssigns(o: Observation, st: Status)
    requires Valid(o) && st.phase == Rolling && o.spec.image != "" && BreakGlass(o.spec)
    ensures BatchIsAssigned(o.fleet, RollingBy(o, st, RollingAssignsAll))
  {
    CanaryDeployAssignsExpected(o, Track(o, st), Deploy(o, Track(o, st), o.order));
  }

  lemma WaitingKeepsBatchAssigned(o: Observation, st: Status, move: RollingMove)
    requires Valid(o) && st.phase == Rolling && o.spec.image != "" && BatchIsAssigned(o.fleet, st)
    requires !move.AssignsNextBatch? && !move.RollingAssignsAll?
    requires move.Recovers? || move.CompletionAwaits? ==> st.activeBatch.None?
    ensures BatchIsAssigned(o.fleet, RollingBy(o, st, move))
  {
    CountingAssignsNothing(o, Track(o, st));
  }

  lemma RollingKeepsBatchAssigned(o: Observation, st: Status, move: RollingMove)
    requires Valid(o) && st.phase == Rolling && o.spec.image != "" && BatchIsAssigned(o.fleet, st)
    requires move.AssignsNextBatch? || move.Recovers? || move.CompletionAwaits? ==> st.activeBatch.None?
    requires move.RollingAssignsAll? ==> BreakGlass(o.spec)
    ensures BatchIsAssigned(o.fleet, RollingBy(o, st, move))
  {
    match move
    case AssignsNextBatch =>
      NextBatchIsOutdated(o);
      OpenedBatchIsAssigned(o, UpdateCounts(o, Track(o, st)), NextBatch(o));
    case RollingAssignsAll => AssigningAllAssigns(o, st);
    case _ => WaitingKeepsBatchAssigned(o, st, move);
  }

  lemma RollingMovePremises(o: Observation, st: Status)
    requires Valid(o)
    ensures var move := RollingMoveOf(o, st);
            && (move.AssignsNextBatch? || move.Recovers? || move.CompletionAwaits? ==> st.activeBatch.None?)
            && (move.RollingAssignsAll? ==> BreakGlass(o.spec))
  {}

  lemma IdleOpensNoBatch(o: Observation, st: Status, move: IdleMove)
    requires st.activeBatch.None?
    ensures IdleBy(o, st, move).activeBatch.None?
  {}

  lemma CanaryOpensNoBatch(o: Observation, st: Status, move: CanaryMove)
    requires Valid(o) && st.activeBatch.None? && st.phase == Canary
    ensures CanaryBy(o, st, move).activeBatch.None?
  {
    if move.CanaryAwaits? { GateKeepsAssignments(o, Deploy(o, Track(o, st), o.order), move.gate); }
  }

  lemma RollingBackOpensNoBatch(o: Observation, st: Status, move: BackMove)
    requires st.activeBatch.None?
    ensures BackBy(o, st, move).activeBatch.None?
  {}

  lemma StepKeepsBatchAssigned(o: Observation, st: Status)
    requires Valid(o) && o.spec.image != "" && BatchIsAssigned(o.fleet, st)
    ensures BatchIsAssigned(o.fleet, ChannelStep(o, st))
  {
    match st.phase
    case Rolling =>
      RollingMovePremises(o, st);
      RollingKeepsBatchAssigned(o, st, RollingMoveOf(o, st));
    case Idle => IdleOpensNoBatch(o, st, IdleMoveOf(o, st));
    case Canary => CanaryOpensNoBatch(o, st, CanaryMoveOf(o, st));
    case RollingBack => RollingBackOpensNoBatch(o, st, BackMoveOf(o, st));
    case _ =>
  }

  /** While a batch is open, the image each member pulls is the image the controller waits for. */
  lemma BatchMembersPullWhatIsAwaited(o: Observation, st: Status, n: Name)
    requires Valid(o) && BatchIsAssigned(o.fleet, st) && st.phase == Rolling && st.activeBatch.Some?
    requires n in Members(o, st.activeBatch.value)
    ensures var awaited := Expected(o.spec, st, o.fleet[n], BatchTarget(o, st.activeBatch.value));
            Resolve(o.spec, st, n, o.fleet[n]) == Some(awaited)
  {}

  lemma StaysInCanaryBy(o: Observation, st: Status, move: CanaryMove)
    requires Valid(o) && CanaryBy(o, st, move).phase == Canary
    ensures move.CanaryAwaits? || move.CanaryAssignsAll?
  {}

  lemma AwaitedAfterAssigningAll(o: Observation, st: Status, n: Name)
    requires Valid(o) && st.phase == Canary && o.spec.image != "" && n in o.fleet && BreakGlass(o.spec)
    ensures var after := CanaryBy(o, st, CanaryAssignsAll);
            Resolve(o.spec, after, n, o.fleet[n]) == Some(Expected(o.spec, after, o.fleet[n], o.spec.image))
  {
    CanaryDeployAssignsExpected(o, Track(o, st), Deploy(o, Track(o, st), o.order));
  }

  lemma AwaitedAfterGate(o: Observation, st: Status, gate: Gate, n: Name)
    requires Valid(o) && st.phase == Canary && o.spec.image != "" && n in o.fleet
    requires CanaryBy(o, st, CanaryAwaits(gate)).phase == Canary
    ensures var after := CanaryBy(o, st, CanaryAwaits(gate));
            Resolve(o.spec, after, n, o.fleet[n]) == Some(Expected(o.spec, after, o.fleet[n], o.spec.image))
  {
    CanaryAssignments(o, st, gate);
  }

  lemma AssignsAllNeedsBreakGlass(o: Observation, st: Status)
    requires Valid(o) && CanaryMoveOf(o, st).CanaryAssignsAll?
    ensures BreakGlass(o.spec)
  {}

  /** After any Canary reconcile that stays in Canary, break glass or not, the same holds for every instance. */
  lemma CanaryInstancesPullWhatIsAwaited(o: Observation, st: Status, n: Name)
    requires Valid(o) && st.phase == Canary && o.spec.image != "" && n in o.fleet && CanaryStep(o, st).phase == Canary
    ensures var after := CanaryStep(o, st);
            Resolve(o.spec, after, n, o.fleet[n]) == Some(Expected(o.spec, after, o.fleet[n], o.spec.image))
  {
    var move := CanaryMoveOf(o, st);
    StaysInCanaryBy(o, st, move);
    if move.CanaryAwaits? {
      AwaitedAfterGate(o, st, move.gate, n);
    } else {
      AssignsAllNeedsBreakGlass(o, st);
      AwaitedAfterAssigningAll(o, st, n);
    }
  }

  /** And in RollingBack, after every reconcile that stays there. */
  lemma RolledBackInstancesPullWhatIsAwaited(o: Observation, st: Status, n: Name)
    requires Valid(o) && st.phase == RollingBack && n in o.fleet
    requires RollingBackStep(o, st).phase == RollingBack
    ensures var after := RollingBackStep(o, st);
            var target := RollbackTarget(o.spec, st);
            && Resolve(o.spec, after, n, o.fleet[n]) == Some(target)
            && Expected(o.spec, after, o.fleet[n], target) == target
  {}

  // --------------------------------------------------------------- corners

  /** Validating chooses its next phase in memory only: it never starts a rollout, and is left only by a listing
      error or a refused downgrade. */
  lemma ValidatingIsADeadEnd(o: Observation, st: Status)
    requires Valid(o) && st.phase == Validating
    ensures var after := ChannelStep(o, st);
            && after.phase in {Validating, Failed, Idle}
            && (after.phase != Validating <==> o.spec.image != "" && (o.faults.list || (o.order != [] && o.refused)))
            && forall n :: n in o.fleet ==> ImageOf(after, n) == ImageOf(st, n)
  {}

  /** The phases one stored reconcile may lead to; Validating has no way in. */
  function Successors(phase: Phase): set<Phase> {
    match phase
    case Idle => {Idle, Canary, Rolling, Failed}
    case Validating => {Validating, Idle, Failed}
    case Canary => {Canary, Rolling, Idle, Failed, RollingBack}
    case Rolling => {Rolling, Completed, Idle, Failed, RollingBack}
    case Completed => {Idle}
    case Failed => {Failed, Idle, RollingBack}
    case RollingBack => {RollingBack, Idle, Failed}
  }

  lemma IdleSuccessors(o: Observation, st: Status, move: IdleMove)
    requires st.phase == Idle
    ensures IdleBy(o, st, move).phase in Successors(Idle)
  {}

  lemma CanarySuccessors(o: Observation, st: Status, move: CanaryMove)
    requires Valid(o) && st.phase == Canary
    ensures CanaryBy(o, st, move).phase in Successors(Canary)
  {
    if move.CanaryAwaits? {
      GateKeepsAssignments(o, Deploy(o, Track(o, st), o.order), move.gate);
    }
  }

  lemma RollingSuccessors(o: Observation, st: Status, move: RollingMove)
    requires Valid(o) && st.phase == Rolling
    ensures RollingBy(o, st, move).phase in Successors(Rolling)
  {}

  lemma PhaseGraph(o: Observation, st: Status)
    requires Valid(o)
    ensures ChannelStep(o, st).phase in Successors(st.phase)
  {
    match st.phase
    case Idle => IdleSuccessors(o, st, IdleMoveOf(o, st));
    case Canary => CanarySuccessors(o, st, CanaryMoveOf(o, st));
    case Rolling => RollingSuccessors(o, st, RollingMoveOf(o, st));
    case _ =>
  }

  /** Every instance that reports an image reports this one, and somebody does. */
  predicate Unanimous(fleet: Fleet, image: Image) {
    && (exists n :: n in fleet && fleet[n].resolved == image)
    && (forall n :: n in fleet ==> fleet[n].resolved in {"", image})
  }

  lemma ObservedBaselineIsUnanimous(fleet: Fleet, order: seq<Name>, image: Image)
    requires Lists(fleet, order) && image != ""
    ensures FleetImages.RollbackBaseline(ResolvedImages(fleet, order)) == image <==> Unanimous(fleet, image)
  {
    ResolvedImagesCover(fleet, order);
    FleetImages.BaselineIsUnanimous(ResolvedImages(fleet, order), image);
  }

  /** Everybody who reports an image reports the target, and somebody reports none. */
  predicate ReportsOnlyTarget(fleet: Fleet, target: Image) {
    Unanimous(fleet, target) && exists n :: n in fleet && fleet[n].resolved == ""
  }

  /** The baseline a rollout starts with can be its own target: from an empty baseline this happens exactly when every
      instance that reports an image reports the target while some instance reports none. */
  lemma TargetBecomesBaselineIff(spec: Spec, fleet: Fleet, order: seq<Name>, now: Time, faults: Faults, st: Status)
    requires Lists(fleet, order) && spec.image != "" && st.phase == Idle && st.previousImage == ""
    ensures IdleStep(Observe(spec, fleet, order, now, faults), st).previousImage == spec.image <==>
              !faults.list && ReportsOnlyTarget(fleet, spec.image)
  {
    var o := Observe(spec, fleet, order, now, faults);
    var images := ResolvedImages(fleet, order);
    ObservedBaselineIsUnanimous(fleet, order, spec.image);
    if Unanimous(fleet, spec.image) {
      ResolvedImagesCover(fleet, order);
      MostlyTargetIsNotRefused(spec, images);
      assert o.order != [];
    }
    IdleRecordsTargetIff(o, st);
  }

  lemma MostlyTargetIsNotRefused(spec: Spec, images: seq<Image>)
    requires forall x :: x in images ==> x == "" || x == spec.image
    ensures !FleetImages.OlderThanFleet(spec.image, images)
  {
    FleetImages.FleetImageIsModalAndNewest(images);
  }

  lemma IdleRecordsTargetIff(o: Observation, st: Status)
    requires Valid(o) && o.spec.image != "" && st.phase == Idle && st.previousImage == ""
    ensures IdleStep(o, st).previousImage == o.spec.image <==>
              && !o.faults.list && o.order != [] && o.baseline == o.spec.image && !o.refused
              && exists n :: n in o.fleet && o.fleet[n].resolved != o.spec.image
  {}

  /** What that costs: in Rolling, an instance that has no entry pulls the target ahead of its batch exactly when the
      target is the recorded baseline, or there is none and it runs the target already. */
  lemma UnassignedInstancePullsTargetIff(spec: Spec, st: Status, n: Name, i: Instance)
    requires st.phase == Rolling && ImageOf(st, n) == "" && spec.image != ""
    ensures Resolve(spec, st, n, i) == Some(spec.image) <==>
              st.previousImage == spec.image || (st.previousImage == "" && i.resolved == spec.image)
  {}

  /** Both controllers read the phases that hold instances back alike: an instance without an entry pulls the very image the
      channel expects of it, a non-canary in Canary and everybody in RollingBack. */
  lemma UnassignedPullsWhatIsExpected(spec: Spec, st: Status, n: Name, i: Instance, target: Image)
    requires ImageOf(st, n) == "" && st.previousImage != "" && !BreakGlass(spec)
    requires (st.phase == Canary && !IsCanary(spec, i)) || st.phase == RollingBack
    ensures Resolve(spec, st, n, i) == Some(Expected(spec, st, i, target))
    ensures Resolve(spec, st, n, i) ==
              Some(if st.phase == RollingBack && spec.rollbackImage != "" then spec.rollbackImage else st.previousImage)
  {}

  /** Outside a rollout an instance without an entry keeps the image it has, and one that has none waits. */
  lemma UnassignedKeepsItsImage(spec: Spec, st: Status, n: Name, i: Instance)
    requires ImageOf(st, n) == ""
    requires st.phase in {Idle, Validating, Completed, Failed} || (st.previousImage == "" && spec.rollbackImage == "")
    ensures Resolve(spec, st, n, i) == if i.resolved == "" then None else Some(i.resolved)
  {}
}
