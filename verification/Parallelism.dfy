/** Bounded parallelism over whole runs: however the two controllers, the cluster and the operators interleave,
    a plain rollout never has more than maxParallel instances moving at once. */
module Parallelism {
  import opened ImageVersions
  import opened ChannelModel
  import opened ChannelSteps
  import opened Rollout
  import opened PhaseSafety

  /** A rollout of one image in batches of limit: no canaries and no break glass. */
  predicate Plain(spec: Spec, target: Image, limit: int) {
    && spec.image == target && target != "" && BatchLimit(spec) == limit
    && !spec.canaryEnabled && !BreakGlass(spec)
  }

  /** A rollback under way leads away from the target. */
  predicate RollsBackElsewhere(w: World, target: Image) {
    w.status.phase == RollingBack ==> RollbackTarget(w.spec, w.status) != target
  }

  predicate OnTarget(w: World, n: Name, target: Image) { n in w.fleet && w.fleet[n].resolved == target }

  predicate SettledIn(w: World, n: Name, target: Image) { n in w.fleet && Settled(w.fleet[n], target) }

  /** Instances a step hands the target to that do not already run it. */
  function Moved(w: World, after: World, target: Image): set<Name> {
    set n | n in after.status.instanceImages && after.status.instanceImages[n] == target
            && ImageOf(w.status, n) != target && !OnTarget(w, n, target)
  }

  function Awaiting(w: World, target: Image): set<Name> {
    set n | n in w.fleet && ImageOf(w.status, n) == target && !SettledIn(w, n, target)
  }

  /** Instances handed the target that have not settled on it at any moment since. */
  function InFlight(worlds: seq<World>, target: Image, k: nat): set<Name>
    requires k < |worlds|
  {
    if k == 0 then Awaiting(worlds[0], target)
    else
      set n | n in InFlight(worlds, target, k - 1) + Moved(worlds[k - 1], worlds[k], target)
              && ImageOf(worlds[k].status, n) == target && !SettledIn(worlds[k], n, target)
  }

  /** What one step may do to the set of moving instances. */
  predicate MovesOneBatch(w: World, after: World, target: Image, limit: int) {
    Moved(w, after, target) == {} ||
    (&& |Moved(w, after, target)| <= limit
     && (forall n :: n in w.fleet && ImageOf(w.status, n) == target ==> SettledIn(w, n, target))
     && after.status.instanceImages.Keys <= w.fleet.Keys)
  }

  // --------------------------------------------------------------- one step

  lemma IdleMovesNobody(o: Observation, st: Status, move: IdleMove, n: Name)
    requires st.phase == Idle
    requires ImageOf(st, n) != o.spec.image && ImageOf(IdleBy(o, st, move), n) == o.spec.image && o.spec.image != ""
    ensures n in o.fleet && o.fleet[n].resolved == o.spec.image
  {}

  lemma CanaryWithoutCanariesMovesNobody(o: Observation, st: Status)
    requires Valid(o) && !BreakGlass(o.spec) && !o.spec.canaryEnabled
    ensures !CanaryMoveOf(o, st).CanaryAwaits? && !CanaryMoveOf(o, st).CanaryAssignsAll?
  {
    BreakGlassIsNeededToAssignAll(o, st);
  }

  lemma OtherCanaryMovesAssignNothing(o: Observation, st: Status, move: CanaryMove, n: Name)
    requires Valid(o) && !move.CanaryAwaits? && !move.CanaryAssignsAll?
    ensures ImageOf(CanaryBy(o, st, move), n) in {"", ImageOf(st, n)}
  {}

  lemma IdleStepMovesNobody(o: Observation, w: World, after: World, target: Image)
    requires Valid(o) && o.spec == w.spec && o.fleet == w.fleet && w.spec.image == target != ""
    requires w.status.phase == Idle && after.status == IdleStep(o, w.status)
    ensures Moved(w, after, target) == {}
  {
    var move := IdleMoveOf(o, w.status);
    forall n ensures n !in Moved(w, after, target) {
      if ImageOf(w.status, n) != target && ImageOf(IdleBy(o, w.status, move), n) == target {
        IdleMovesNobody(o, w.status, move, n);
      }
    }
  }

  lemma CanaryStepMovesNobody(o: Observation, w: World, after: World, target: Image)
    requires Valid(o) && o.spec == w.spec && o.fleet == w.fleet && w.spec.image == target != ""
    requires !BreakGlass(o.spec) && !o.spec.canaryEnabled && after.status == CanaryStep(o, w.status)
    ensures Moved(w, after, target) == {}
  {
    var move := CanaryMoveOf(o, w.status);
    CanaryWithoutCanariesMovesNobody(o, w.status);
    forall n ensures n !in Moved(w, after, target) {
      OtherCanaryMovesAssignNothing(o, w.status, move, n);
    }
  }

  lemma ReconcileMovesOneBatch(o: Observation, w: World, after: World, target: Image, limit: int)
    requires Valid(o) && o.spec == w.spec && o.fleet == w.fleet && Plain(w.spec, target, limit)
    requires RollsBackElsewhere(w, target) && after.status == ChannelStep(o, w.status)
    ensures MovesOneBatch(w, after, target, limit)
  {
    match w.status.phase
    case RollingBack => RollbackMovesNobody(o, w, after, target);
    case Idle => IdleStepMovesNobody(o, w, after, target);
    case Canary => CanaryStepMovesNobody(o, w, after, target);
    case Rolling => RollingMovesOneBatch(o, w, after, target, limit);
    case Validating => RestMovesNobody(o, w, after, target);
    case Completed => RestMovesNobody(o, w, after, target);
    case Failed => RestMovesNobody(o, w, after, target);
  }

  lemma RollbackAssigns(o: Observation, st: Status, move: BackMove, n: Name)
    ensures ImageOf(BackBy(o, st, move), n) in {"", ImageOf(st, n), RollbackTarget(o.spec, st)}
  {}

  lemma RollbackMovesNobody(o: Observation, w: World, after: World, target: Image)
    requires Valid(o) && o.spec == w.spec && o.fleet == w.fleet && target != ""
    requires RollbackTarget(w.spec, w.status) != target && after.status == RollingBackStep(o, w.status)
    ensures Moved(w, after, target) == {}
  {
    forall n ensures n !in Moved(w, after, target) {
      RollbackAssigns(o, w.status, BackMoveOf(o, w.status), n);
    }
  }

  /** A rollback whose image is the target hands it to everybody at once: the condition cannot be dropped. */
  lemma RollbackToTargetMovesEverybody(o: Observation, w: World, after: World, target: Image)
    requires Valid(o) && !o.faults.list && o.spec == w.spec && o.fleet == w.fleet == after.fleet && target != ""
    requires w.status.phase == RollingBack && RollbackTarget(w.spec, w.status) == target
    requires after.status == RollingBackStep(o, w.status)
    ensures Moved(w, after, target) ==
              set n | n in w.fleet && ImageOf(w.status, n) != target && !OnTarget(w, n, target)
  {
    RollbackAssignsAll(o, w.status, BackMoveOf(o, w.status));
  }

  lemma RollbackAssignsAll(o: Observation, st: Status, move: BackMove)
    requires !move.NoTarget? && !move.BackListingFails?
    ensures var after := BackBy(o, st, move);
            && (forall n :: n in o.fleet ==> n in after.instanceImages && after.instanceImages[n] == RollbackTarget(o.spec, st))
            && (forall n :: n in after.instanceImages && n !in o.fleet ==> ImageOf(st, n) == after.instanceImages[n])
  {}

  lemma RestMovesNobody(o: Observation, w: World, after: World, target: Image)
    requires Valid(o) && w.status.phase in {Validating, Completed, Failed}
    requires after.status == ChannelStep(o, w.status) && target != ""
    ensures Moved(w, after, target) == {}
  {
    FailedKeepsAssignments(o, w.status, FailedMoveOf(o, w.status));
  }

  lemma FailedKeepsAssignments(o: Observation, st: Status, move: FailedMove)
    ensures FailedBy(o, st, move).instanceImages == st.instanceImages
    ensures FailedBy(o, st, move).previousImage == st.previousImage
  {}

  lemma RollingMovesOneBatch(o: Observation, w: World, after: World, target: Image, limit: int)
    requires Valid(o) && o.spec == w.spec && o.fleet == w.fleet && Plain(w.spec, target, limit)
    requires w.status.phase == Rolling && after.status == RollingStep(o, w.status)
    ensures MovesOneBatch(w, after, target, limit)
  {
    RollingAssignsOneBatch(o, w.status);
    var moved := Moved(w, after, target);
    assert moved <= NewlyAssigned(o, w.status, after.status);
    if moved != {} {
      SubsetIsNoLarger(moved, NewlyAssigned(o, w.status, after.status));
    }
  }

  lemma SubsetIsNoLarger<T>(a: set<T>, b: set<T>)
    requires a <= b
    ensures |a| <= |b|
  {
    assert b == a + (b - a);
  }

  lemma StepMovesOneBatch(w: World, a: Action, target: Image, limit: int)
    requires Enabled(w, a) && Plain(w.spec, target, limit) && RollsBackElsewhere(w, target)
    ensures MovesOneBatch(w, Step(w, a), target, limit)
  {
    if a.Reconcile? { ReconcileMovesOneBatch(Observed(w, a), w, Step(w, a), target, limit); }
  }

  // ----------------------------------------------------------- rollback off

  lemma IdleStaysForward(o: Observation, st: Status, move: IdleMove)
    requires st.phase != RollingBack
    ensures IdleBy(o, st, move).phase != RollingBack
  {}

  lemma FailedStaysForward(o: Observation, st: Status)
    requires st.phase == Failed && !RollsBack(o.spec)
    ensures FailedStep(o, st).phase != RollingBack
  {
    assert FailedMoveOf(o, st) != RollsBackNow;
  }

  lemma GateStaysForward(o: Observation, st: Status, gate: Gate)
    requires st.phase == Canary && !RollsBack(o.spec)
    ensures AfterCanaryGate(o, st, gate).phase != RollingBack
  {}

  lemma CanaryStaysForward(o: Observation, st: Status, move: CanaryMove)
    requires Valid(o) && st.phase == Canary && !RollsBack(o.spec)
    ensures CanaryBy(o, st, move).phase != RollingBack
  {
    if move.CanaryAwaits? { GateStaysForward(o, Deploy(o, Track(o, st), o.order), move.gate); }
  }

  lemma RollingStaysForward(o: Observation, st: Status, move: RollingMove)
    requires Valid(o) && st.phase == Rolling && !RollsBack(o.spec)
    ensures RollingBy(o, st, move).phase != RollingBack
  {}

  lemma NeverRollsBack(w: World, a: Action)
    requires Enabled(w, a) && !RollsBack(w.spec) && w.status.phase != RollingBack
    ensures Step(w, a).status.phase != RollingBack
  {
    if a.Reconcile? {
      var o := Observed(w, a);
      match w.status.phase
      case Idle => IdleStaysForward(o, w.status, IdleMoveOf(o, w.status));
      case Canary => CanaryStaysForward(o, w.status, CanaryMoveOf(o, w.status));
      case Rolling => RollingStaysForward(o, w.status, RollingMoveOf(o, w.status));
      case Failed => FailedStaysForward(o, w.status);
      case _ =>
    }
  }

  lemma {:induction false} RunNeverRollsBack(worlds: seq<World>, actions: seq<Action>, k: nat)
    requires Run(worlds, actions) && k < |worlds| && worlds[0].status.phase != RollingBack
    requires forall i :: 0 <= i < |worlds| ==> !RollsBack(worlds[i].spec)
    ensures worlds[k].status.phase != RollingBack
  {
    if k > 0 {
      RunNeverRollsBack(worlds, actions, k - 1);
      NeverRollsBack(worlds[k - 1], actions[k - 1]);
    }
  }

  // ------------------------------------------------------------- whole runs

  lemma {:induction false} FlightStaysBounded(worlds: seq<World>, target: Image, limit: int, k: nat)
    requires k < |worlds| && |Awaiting(worlds[0], target)| <= limit && target != ""
    requires forall i :: 0 <= i < k ==> MovesOneBatch(worlds[i], worlds[i + 1], target, limit)
    ensures |InFlight(worlds, target, k)| <= limit
  {
    if k > 0 {
      var w, after := worlds[k - 1], worlds[k];
      FlightStaysBounded(worlds, target, limit, k - 1);
      assert MovesOneBatch(w, after, target, limit);
      var before := InFlight(worlds, target, k - 1);
      var moved := Moved(w, after, target);
      if moved == {} {
        SubsetIsNoLarger(InFlight(worlds, target, k), before);
      } else {
        assert forall n :: n in before ==> ImageOf(w.status, n) == target && !SettledIn(w, n, target);
        assert forall n :: n in before ==> n !in w.fleet;
        SubsetIsNoLarger(InFlight(worlds, target, k), moved);
      }
    }
  }

  /** Over any run of a plain rollout, failures, retries and rollbacks to another image included, at most limit instances
      are in flight at any moment. */
  lemma AtMostOneBatchInFlight(worlds: seq<World>, actions: seq<Action>, target: Image, limit: int, k: nat)
    requires Run(worlds, actions) && k < |worlds|
    requires forall i :: 0 <= i < k ==> Plain(worlds[i].spec, target, limit) && RollsBackElsewhere(worlds[i], target)
    requires target != "" && |Awaiting(worlds[0], target)| <= limit
    ensures |InFlight(worlds, target, k)| <= limit
  {
    forall i | 0 <= i < k ensures MovesOneBatch(worlds[i], worlds[i + 1], target, limit) {
      StepMovesOneBatch(worlds[i], actions[i], target, limit);
    }
    FlightStaysBounded(worlds, target, limit, k);
  }
}
