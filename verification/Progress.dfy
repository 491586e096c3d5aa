/** Progress is never lost: without canaries and rollbacks, an instance that runs the target and is assigned it
    keeps doing so under every interleaving of the two controllers. */
module Progress {
  import opened Wrappers
  import opened ImageVersions
  import opened ChannelModel
  import opened ChannelSteps
  import opened Rollout
  import opened PhaseSafety
  import opened Parallelism
  import opened RunSafety

  /** A spec that rolls out one image, without canaries. */
  predicate Steady(spec: Spec, target: Image) { spec.image == target && target != "" && !spec.canaryEnabled }

  /** What holds an instance on the target: its own entry, or having none while there is no other baseline. */
  predicate IsHeld(st: Status, n: Name, target: Image) {
    ImageOf(st, n) == target || (ImageOf(st, n) == "" && st.previousImage in {"", target})
  }

  /** Everybody on the target is held there. */
  predicate Tied(w: World, target: Image) {
    forall n :: n in w.fleet && w.fleet[n].resolved == target ==> IsHeld(w.status, n, target)
  }

  /** Everybody on the target has it as its entry. */
  predicate Mapped(w: World, target: Image) {
    forall n :: n in w.fleet && w.fleet[n].resolved == target ==> ImageOf(w.status, n) == target
  }

  /** No rollback is under way, and the baseline is not the target. */
  predicate Forward(w: World, target: Image) { w.status.phase != RollingBack && w.status.previousImage != target }

  /** Either there was a baseline to begin with, or no rollout is started on the way. */
  predicate RestartsFromBaseline(worlds: seq<World>)
    requires worlds != []
  {
    worlds[0].status.previousImage != "" || forall i :: 0 <= i < |worlds| ==> worlds[i].status.phase != Idle
  }

  function OnImage(fleet: Fleet, image: Image): set<Name> { set n | n in fleet && fleet[n].resolved == image }

  /** The instances both assigned and running the target. */
  function Up(w: World, target: Image): set<Name> {
    set n | n in w.fleet && w.fleet[n].resolved == target && ImageOf(w.status, n) == target
  }

  predicate Grows(w: World, after: World, target: Image) {
    forall n :: n in Up(w, target) && n in after.fleet ==> n in Up(after, target)
  }

  /** Whoever joins on the target is held there. */
  predicate JoinsHeld(w: World, a: Action, target: Image) {
    a.Join? && a.instance.resolved == target ==> IsHeld(w.status, a.n, target)
  }

  /** Whoever joins on the target has it as its entry. */
  predicate JoinsMapped(w: World, a: Action, target: Image) {
    a.Join? && a.instance.resolved == target ==> ImageOf(w.status, a.n) == target
  }

  // --------------------------------------------------------------- one step

  /** A listed instance keeps its entry or is given the target. */
  predicate KeepsTarget(o: Observation, st: Status, after: Status) {
    forall n :: n in o.fleet ==> ImageOf(after, n) in {ImageOf(st, n), o.spec.image}
  }

  /** A baseline other than the target stays one, unless Idle has none to start with. */
  predicate KeepsBaselineApart(o: Observation, st: Status, after: Status) {
    st.previousImage != o.spec.image && (st.phase == Idle ==> st.previousImage != "") ==>
      after.previousImage != o.spec.image && (st.previousImage != "" ==> after.previousImage != "")
  }

  predicate Holds(o: Observation, st: Status, after: Status) {
    KeepsTarget(o, st, after) && KeepsBaselineApart(o, st, after)
  }

  lemma IdleHolds(o: Observation, st: Status, move: IdleMove)
    requires st.phase == Idle
    ensures Holds(o, st, IdleBy(o, st, move))
  {}

  lemma DeployKeepsTarget(o: Observation, st: Status, names: seq<Name>)
    requires st.phase == Rolling || (st.phase == Canary && BreakGlass(o.spec))
    requires forall n :: n in names ==> n in o.fleet
    ensures KeepsTarget(o, st, Deploy(o, st, names))
  {}

  lemma CanaryHolds(o: Observation, st: Status, move: CanaryMove)
    requires Valid(o) && st.phase == Canary
    requires !move.CanaryAwaits? && (move.CanaryAssignsAll? ==> BreakGlass(o.spec))
    ensures Holds(o, st, CanaryBy(o, st, move))
  {
    if move.CanaryAssignsAll? { DeployKeepsTarget(o, Track(o, st), o.order); }
  }

  lemma RollingGateKeeps(o: Observation, st: Status, gate: Gate, passed: Status)
    requires passed.instanceImages == st.instanceImages && passed.previousImage == st.previousImage
    ensures AfterGate(o, st, gate, passed).instanceImages == st.instanceImages
    ensures AfterGate(o, st, gate, passed).previousImage == st.previousImage
  {}

  /** A Rolling reconcile that assigns nobody keeps the entries, or drops those of departed instances. */
  lemma WaitingKeeps(o: Observation, st: Status, move: RollingMove)
    requires Valid(o) && !move.RollingAssignsAll? && !move.AssignsNextBatch?
    ensures var after := RollingBy(o, st, move);
            && (after.instanceImages == st.instanceImages || after.instanceImages == UpdateCounts(o, st).instanceImages)
            && (after.previousImage == st.previousImage || after.previousImage == Track(o, st).previousImage)
  {
    var counted := UpdateCounts(o, Track(o, st));
    match move
    case BatchAwaits(gate) => RollingGateKeeps(o, counted, gate, counted.(activeBatch := None));
    case CompletionAwaits(gate) => RollingGateKeeps(o, counted, gate, counted.(phase := Completed));
    case _ =>
  }

  lemma WaitingHolds(o: Observation, st: Status, move: RollingMove)
    requires Valid(o) && st.phase == Rolling && !move.RollingAssignsAll? && !move.AssignsNextBatch?
    ensures Holds(o, st, RollingBy(o, st, move))
  {
    WaitingKeeps(o, st, move);
    CountingAssignsNothing(o, st);
  }

  lemma RollingHolds(o: Observation, st: Status, move: RollingMove)
    requires Valid(o) && st.phase == Rolling
    ensures Holds(o, st, RollingBy(o, st, move))
  {
    match move
    case RollingAssignsAll => DeployKeepsTarget(o, Track(o, st), o.order);
    case AssignsNextBatch =>
      NextBatchIsOutdated(o);
      CountingAssignsNothing(o, Track(o, st));
      DeployKeepsTarget(o, UpdateCounts(o, Track(o, st)), NextBatch(o));
    case _ => WaitingHolds(o, st, move);
  }

  lemma CanaryMovePremises(o: Observation, st: Status)
    requires Valid(o) && !o.spec.canaryEnabled
    ensures !CanaryMoveOf(o, st).CanaryAwaits?
    ensures CanaryMoveOf(o, st).CanaryAssignsAll? ==> BreakGlass(o.spec)
  {}

  lemma ReconcileHolds(o: Observation, st: Status)
    requires Valid(o) && Steady(o.spec, o.spec.image) && st.phase != RollingBack
    ensures Holds(o, st, ChannelStep(o, st))
  {
    match st.phase
    case Idle => IdleHolds(o, st, IdleMoveOf(o, st));
    case Canary =>
      CanaryMovePremises(o, st);
      CanaryHolds(o, st, CanaryMoveOf(o, st));
    case Rolling => RollingHolds(o, st, RollingMoveOf(o, st));
    case Failed => FailedKeepsAssignments(o, st, FailedMoveOf(o, st));
    case _ =>
  }

  /** An instance that is assigned the target and runs it goes on running it, whatever its reconcile does. */
  lemma AssignedInstanceStays(w: World, a: Action, target: Image)
    requires Enabled(w, a) && AboutOne(a) && target != ""
    requires w.fleet[a.n].resolved == target && ImageOf(w.status, a.n) == target
    ensures InstanceAfter(w, a).resolved == target
  {}

  /** With another baseline, an instance comes to the target only by being assigned it. */
  lemma InstanceMovesAsAssigned(w: World, a: Action, target: Image)
    requires Enabled(w, a) && AboutOne(a) && target != "" && Forward(w, target)
    ensures InstanceAfter(w, a).resolved == target ==> ImageOf(w.status, a.n) == target || w.fleet[a.n].resolved == target
  {}

  /** With any baseline, an instance that is held on the target stays, and one that comes to it is held there. */
  lemma HeldInstanceStays(w: World, a: Action, target: Image)
    requires Enabled(w, a) && AboutOne(a) && target != "" && w.status.phase != RollingBack
    ensures w.fleet[a.n].resolved == target && IsHeld(w.status, a.n, target) ==> InstanceAfter(w, a).resolved == target
    ensures InstanceAfter(w, a).resolved == target ==> IsHeld(w.status, a.n, target) || w.fleet[a.n].resolved == target
  {}

  /** No step of either controller, the cluster or the operators takes progress back, whatever the baseline. */
  lemma StepKeepsProgress(w: World, a: Action, target: Image)
    requires Enabled(w, a) && Steady(w.spec, target) && w.status.phase != RollingBack
    ensures Grows(w, Step(w, a), target)
  {
    if AboutOne(a) {
      if w.fleet[a.n].resolved == target && ImageOf(w.status, a.n) == target { AssignedInstanceStays(w, a, target); }
    } else if a.Reconcile? {
      ReconcileHolds(Observed(w, a), w.status);
    }
  }

  /** A reconcile that finds an instance on the target can record no other baseline than that. */
  lemma ReconcileKeepsHeld(w: World, a: Action, target: Image, n: Name)
    requires Enabled(w, a) && a.Reconcile? && Steady(w.spec, target) && w.status.phase != RollingBack
    requires n in w.fleet && w.fleet[n].resolved == target && IsHeld(w.status, n, target)
    ensures IsHeld(Step(w, a).status, n, target)
  {
    ReconcileHolds(Observed(w, a), w.status);
    StepGivesBaselineACause(w, a);
  }

  lemma StepStaysTied(w: World, a: Action, target: Image)
    requires Enabled(w, a) && Steady(w.spec, target) && w.status.phase != RollingBack
    requires Tied(w, target) && JoinsHeld(w, a, target)
    ensures Tied(Step(w, a), target)
    ensures forall n :: n in OnImage(w.fleet, target) && n in Step(w, a).fleet ==> n in OnImage(Step(w, a).fleet, target)
  {
    if AboutOne(a) {
      HeldInstanceStays(w, a, target);
    } else if a.Reconcile? {
      forall n | n in w.fleet && w.fleet[n].resolved == target ensures IsHeld(Step(w, a).status, n, target) {
        ReconcileKeepsHeld(w, a, target, n);
      }
    }
  }

  lemma StepStaysMapped(w: World, a: Action, target: Image)
    requires Enabled(w, a) && Steady(w.spec, target) && Forward(w, target)
    requires Mapped(w, target) && JoinsMapped(w, a, target)
    ensures Mapped(Step(w, a), target)
  {
    if AboutOne(a) {
      InstanceMovesAsAssigned(w, a, target);
    } else if a.Reconcile? {
      ReconcileHolds(Observed(w, a), w.status);
    }
  }

  lemma StepKeepsBaselineApart(w: World, a: Action, target: Image)
    requires Enabled(w, a) && Steady(w.spec, target) && Forward(w, target)
    requires w.status.phase == Idle ==> w.status.previousImage != ""
    ensures Step(w, a).status.previousImage != target
    ensures w.status.previousImage != "" ==> Step(w, a).status.previousImage != ""
  {
    if a.Reconcile? { ReconcileHolds(Observed(w, a), w.status); }
  }

  // ------------------------------------------------------------- whole runs

  /** Nobody starts or stops referencing the channel. */
  predicate SameMembers(worlds: seq<World>) {
    forall i :: 0 <= i < |worlds| ==> worlds[i].fleet.Keys == worlds[0].fleet.Keys
  }

  lemma {:induction false} RunStaysTied(worlds: seq<World>, actions: seq<Action>, target: Image, k: nat)
    requires Run(worlds, actions) && k < |worlds| && Tied(worlds[0], target)
    requires forall i :: 0 <= i < k ==>
               && Steady(worlds[i].spec, target) && worlds[i].status.phase != RollingBack
               && JoinsHeld(worlds[i], actions[i], target)
    ensures Tied(worlds[k], target)
  {
    if k > 0 {
      RunStaysTied(worlds, actions, target, k - 1);
      StepStaysTied(worlds[k - 1], actions[k - 1], target);
    }
  }

  /** The target does not become the baseline of a rollout that starts from another one, nor of a first deployment before
      it passes through Idle again. */
  lemma {:induction false} BaselineStaysApart(worlds: seq<World>, actions: seq<Action>, target: Image, k: nat)
    requires Run(worlds, actions) && k < |worlds| && worlds[0].status.previousImage != target
    requires RestartsFromBaseline(worlds)
    requires forall i :: 0 <= i < k ==> Steady(worlds[i].spec, target) && worlds[i].status.phase != RollingBack
    ensures worlds[k].status.previousImage != target
    ensures worlds[0].status.previousImage != "" ==> worlds[k].status.previousImage != ""
  {
    if k > 0 {
      BaselineStaysApart(worlds, actions, target, k - 1);
      StepKeepsBaselineApart(worlds[k - 1], actions[k - 1], target);
    }
  }

  /** A join changes the membership. */
  lemma NobodyJoins(worlds: seq<World>, actions: seq<Action>, i: nat)
    requires Run(worlds, actions) && SameMembers(worlds) && i < |actions|
    ensures !actions[i].Join? && worlds[i + 1].fleet.Keys == worlds[i].fleet.Keys
  {
    assert Enabled(worlds[i], actions[i]) && worlds[i + 1] == Step(worlds[i], actions[i]);
    assert worlds[i].fleet.Keys == worlds[i + 1].fleet.Keys;
  }

  lemma {:induction false} GrowthAddsUp(worlds: seq<World>, target: Image, n: Name, j: nat, k: nat)
    requires j <= k < |worlds| && n in Up(worlds[j], target)
    requires forall i :: j <= i < k ==> Grows(worlds[i], worlds[i + 1], target)
    requires forall i :: j <= i <= k ==> n in worlds[i].fleet
    ensures n in Up(worlds[k], target)
  {
    if j < k {
      GrowthAddsUp(worlds, target, n, j, k - 1);
      assert Grows(worlds[k - 1], worlds[k], target);
    }
  }

  /** Once an instance is up to date it stays so for as long as it references the channel and no rollback begins: through
      timeouts, retries, joins and rollouts started again, with whatever baseline. */
  lemma ProgressIsNeverLost(worlds: seq<World>, actions: seq<Action>, target: Image, n: Name, j: nat, k: nat)
    requires Run(worlds, actions) && j <= k < |worlds|
    requires forall i :: j <= i < k ==> Steady(worlds[i].spec, target) && worlds[i].status.phase != RollingBack
    requires n in Up(worlds[j], target) && forall i :: j <= i <= k ==> n in worlds[i].fleet
    ensures n in Up(worlds[k], target)
  {
    forall i | j <= i < k ensures Grows(worlds[i], worlds[i + 1], target) {
      StepKeepsProgress(worlds[i], actions[i], target);
    }
    GrowthAddsUp(worlds, target, n, j, k);
  }

  /** With fixed membership the number of up-to-date instances never falls. */
  lemma ProgressCountNeverFalls(worlds: seq<World>, actions: seq<Action>, target: Image, j: nat, k: nat)
    requires Run(worlds, actions) && j <= k < |worlds| && SameMembers(worlds)
    requires forall i :: j <= i < k ==> Steady(worlds[i].spec, target) && worlds[i].status.phase != RollingBack
    ensures |Up(worlds[j], target)| <= |Up(worlds[k], target)|
  {
    forall n | n in Up(worlds[j], target) ensures n in Up(worlds[k], target) {
      ProgressIsNeverLost(worlds, actions, target, n, j, k);
    }
    SubsetIsNoLarger(Up(worlds[j], target), Up(worlds[k], target));
  }

  /** From everybody on the target being held there, not even an instance without an entry leaves the target. */
  lemma OnTargetNeverShrinks(worlds: seq<World>, actions: seq<Action>, target: Image, i: nat)
    requires Run(worlds, actions) && i < |actions| && Tied(worlds[0], target) && SameMembers(worlds)
    requires forall m :: 0 <= m <= i ==> Steady(worlds[m].spec, target) && worlds[m].status.phase != RollingBack
    ensures OnImage(worlds[i].fleet, target) <= OnImage(worlds[i + 1].fleet, target)
  {
    forall m | 0 <= m <= i ensures JoinsHeld(worlds[m], actions[m], target) { NobodyJoins(worlds, actions, m); }
    RunStaysTied(worlds, actions, target, i);
    StepStaysTied(worlds[i], actions[i], target);
    NobodyJoins(worlds, actions, i);
  }

  /** While the target is not its own baseline, the up-to-date instances are all those on the target. */
  lemma {:induction false} EverybodyOnTargetIsUp(worlds: seq<World>, actions: seq<Action>, target: Image, k: nat)
    requires Run(worlds, actions) && k < |worlds| && Mapped(worlds[0], target)
    requires forall i :: 0 <= i < k ==>
               Steady(worlds[i].spec, target) && Forward(worlds[i], target) && JoinsMapped(worlds[i], actions[i], target)
    ensures Up(worlds[k], target) == OnImage(worlds[k].fleet, target)
  {
    if k > 0 {
      EverybodyOnTargetIsUp(worlds, actions, target, k - 1);
      UpIsMapped(worlds[k - 1], target);
      StepStaysMapped(worlds[k - 1], actions[k - 1], target);
    }
    UpIsMapped(worlds[k], target);
  }

  lemma UpIsMapped(w: World, target: Image)
    ensures Up(w, target) == OnImage(w.fleet, target) <==> Mapped(w, target)
  {
    if Up(w, target) == OnImage(w.fleet, target) {
      forall n | n in w.fleet && w.fleet[n].resolved == target ensures ImageOf(w.status, n) == target {
        assert n in OnImage(w.fleet, target);
      }
    }
  }
}
