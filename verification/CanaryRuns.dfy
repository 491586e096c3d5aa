/** Canary isolation over whole runs: an instance outside the canary selector that Canary keeps off the target stays
    off it until the phase is left, whatever the two controllers, the cluster and all other instances do. */
module CanaryRuns {
  import opened Wrappers
  import opened ChannelModel
  import opened ChannelSteps
  import opened ImageVersions
  import opened Rollout
  import opened PhaseSafety
  import opened PhaseOutcomes
  import opened RolloutGuards
  import opened Readiness
  import opened RunSafety

  /** The instance, if it is there, is none of the canaries. */
  predicate Outside(w: World, n: Name) { n in w.fleet ==> !IsCanary(w.spec, w.fleet[n]) }

  /** The instance neither runs the target nor is assigned it, and the baseline is another image. */
  predicate HeldBack(w: World, target: Image, n: Name) {
    && w.status.previousImage !in {"", target} && ImageOf(w.status, n) != target
    && (n in w.fleet ==> w.fleet[n].resolved != target)
  }

  /** What it pulls is not the target either. */
  lemma HeldBackPullsAnotherImage(w: World, target: Image, n: Name)
    requires HeldBack(w, target, n) && w.status.phase == Canary && n in w.fleet && target != ""
    ensures Resolve(w.spec, w.status, n, w.fleet[n]) != Some(target)
  {}

  lemma StillCanary(o: Observation, st: Status, move: CanaryMove)
    requires Valid(o) && !move.CanaryAssignsAll? && CanaryBy(o, st, move).phase == Canary
    ensures move.CanaryAwaits?
  {}

  lemma TrackAvoidsTarget(o: Observation, st: Status)
    requires st.previousImage !in {"", o.spec.image}
    ensures Track(o, st).previousImage !in {"", o.spec.image}
  {}

  /** A deployment gives a listed instance outside the canaries the baseline, and leaves other names alone. */
  lemma DeployHoldsBack(o: Observation, st: Status, n: Name)
    requires Valid(o) && st.phase == Canary && !BreakGlass(o.spec) && st.previousImage !in {"", o.spec.image}
    requires n in o.fleet ==> !IsCanary(o.spec, o.fleet[n])
    requires n in o.fleet || ImageOf(st, n) != o.spec.image
    ensures ImageOf(Deploy(o, st, o.order), n) != o.spec.image
    ensures Deploy(o, st, o.order).previousImage == st.previousImage
  {}

  lemma ReconcileHoldsBack(o: Observation, st: Status, n: Name)
    requires Valid(o) && st.phase == Canary && !BreakGlass(o.spec) && o.spec.image != ""
    requires st.previousImage !in {"", o.spec.image} && CanaryStep(o, st).phase == Canary
    requires n in o.fleet ==> !IsCanary(o.spec, o.fleet[n])
    requires n in o.fleet || ImageOf(st, n) != o.spec.image
    ensures CanaryStep(o, st).previousImage !in {"", o.spec.image} && ImageOf(CanaryStep(o, st), n) != o.spec.image
  {
    var move, tracked := CanaryMoveOf(o, st), Track(o, st);
    BreakGlassIsNeededToAssignAll(o, st);
    StillCanary(o, st, move);
    TrackAvoidsTarget(o, st);
    DeployHoldsBack(o, tracked, n);
    GateKeepsAssignments(o, Deploy(o, tracked, o.order), move.gate);
    CountingAssignsNothing(o, Deploy(o, tracked, o.order));
  }

  /** An instance keeps off the target as long as what it pulls is something else. */
  lemma InstanceKeepsOff(w: World, a: Action, target: Image)
    requires Enabled(w, a) && AboutOne(a) && w.status.phase == Canary && target != "" && HeldBack(w, target, a.n)
    ensures InstanceAfter(w, a).resolved != target
  {
    HeldBackPullsAnotherImage(w, target, a.n);
  }

  /** Whoever joins under the name joins off the target. */
  predicate ReturnsOff(a: Action, target: Image, n: Name) { a.Join? && a.n == n ==> a.instance.resolved != target }

  /** The first Canary reconcile may find the instance still assigned the target from an earlier rollout. */
  predicate HeldBackBy(w: World, a: Action, target: Image, n: Name) {
    && w.status.previousImage !in {"", target} && (n in w.fleet ==> w.fleet[n].resolved != target)
    && (ImageOf(w.status, n) != target || (a.Reconcile? && n in w.fleet))
  }

  lemma StepHoldsBack(w: World, a: Action, target: Image, n: Name)
    requires Enabled(w, a) && w.spec.image == target != "" && !BreakGlass(w.spec) && Outside(w, n)
    requires w.status.phase == Canary == Step(w, a).status.phase
    requires HeldBackBy(w, a, target, n) && ReturnsOff(a, target, n)
    ensures HeldBack(Step(w, a), target, n)
  {
    if AboutOne(a) {
      if a.n == n { InstanceKeepsOff(w, a, target); }
    } else if a.Reconcile? {
      ReconcileHoldsBack(Observed(w, a), w.status, n);
    }
  }

  lemma {:induction false} HeldBackPersists(worlds: seq<World>, target: Image, n: Name, j: nat, k: nat)
    requires j < k < |worlds| && HeldBack(worlds[j + 1], target, n)
    requires forall i :: j < i < k && HeldBack(worlds[i], target, n) ==> HeldBack(worlds[i + 1], target, n)
    ensures HeldBack(worlds[k], target, n)
  {
    if k > j + 1 { HeldBackPersists(worlds, target, n, j, k - 1); }
  }

  /** While the phase stays Canary, an instance that is held back, or that a Canary reconcile holds back now, stays off
      the target for as long as it is outside the canaries. Other instances may join, leave and be relabelled, and the
      instance itself may leave and come back off the target. */
  lemma CanaryHoldsOutsidersBack(worlds: seq<World>, actions: seq<Action>, target: Image, n: Name, j: nat, k: nat)
    requires Run(worlds, actions) && j < k < |worlds| && target != ""
    requires forall i :: j <= i <= k ==> worlds[i].status.phase == Canary
    requires forall i :: j <= i < k ==>
               worlds[i].spec.image == target && !BreakGlass(worlds[i].spec) && Outside(worlds[i], n)
    requires forall i :: j <= i < k ==> ReturnsOff(actions[i], target, n)
    requires HeldBackBy(worlds[j], actions[j], target, n)
    ensures HeldBack(worlds[k], target, n)
    ensures n in worlds[k].fleet ==>
              && worlds[k].fleet[n].resolved != target
              && Resolve(worlds[k].spec, worlds[k].status, n, worlds[k].fleet[n]) != Some(target)
  {
    StepHoldsBack(worlds[j], actions[j], target, n);
    forall i | j < i < k && HeldBack(worlds[i], target, n) ensures HeldBack(worlds[i + 1], target, n) {
      StepHoldsBack(worlds[i], actions[i], target, n);
    }
    HeldBackPersists(worlds, target, n, j, k);
    if n in worlds[k].fleet { HeldBackPullsAnotherImage(worlds[k], target, n); }
  }

  // ------------------------------------------------- no way around the canaries

  lemma RollingComesFrom(w: World, a: Action)
    requires Enabled(w, a) && w.spec.canaryEnabled && Step(w, a).status.phase == Rolling
    ensures w.status.phase in {Canary, Rolling}
  {
    if a.Reconcile? {
      PhaseGraph(Observed(w, a), w.status);
      if w.status.phase == Idle { IdleStartsIff(Observed(w, a), w.status); }
    }
  }

  /** Canary handed over at step m and Rolling has lasted since. */
  predicate HandedOverAt(worlds: seq<World>, m: nat, k: nat)
    requires m < k < |worlds|
  {
    worlds[m].status.phase == Canary && forall i :: m < i <= k ==> worlds[i].status.phase == Rolling
  }

  lemma {:induction false} HandOverReachesBack(worlds: seq<World>, j: nat, k: nat)
    requires j < k < |worlds| && worlds[j].status.phase !in {Canary, Rolling} && worlds[k].status.phase == Rolling
    requires forall i :: j <= i < k && worlds[i + 1].status.phase == Rolling ==> worlds[i].status.phase in {Canary, Rolling}
    ensures exists m: nat :: j < m < k && HandedOverAt(worlds, m, k)
    decreases k
  {
    if worlds[k - 1].status.phase == Canary {
      assert HandedOverAt(worlds, k - 1, k);
    } else {
      assert worlds[k - 1 + 1].status.phase == Rolling;
      HandOverReachesBack(worlds, j, k - 1);
      var m: nat :| j < m < k - 1 && HandedOverAt(worlds, m, k - 1);
      assert HandedOverAt(worlds, m, k);
    }
  }

  /** With canaries enabled all along, whoever reaches Rolling from Idle has passed through Canary. */
  lemma RollingIsReachedThroughCanary(worlds: seq<World>, actions: seq<Action>, j: nat, k: nat)
    requires Run(worlds, actions) && j < k < |worlds|
    requires worlds[j].status.phase !in {Canary, Rolling} && worlds[k].status.phase == Rolling
    requires forall i :: j <= i < k ==> worlds[i].spec.canaryEnabled
    ensures exists m: nat :: j < m < k && HandedOverAt(worlds, m, k)
  {
    forall i | j <= i < k && worlds[i + 1].status.phase == Rolling ensures worlds[i].status.phase in {Canary, Rolling} {
      RollingComesFrom(worlds[i], actions[i]);
    }
    HandOverReachesBack(worlds, j, k);
  }

  /** So when Rolling hands the target to anybody, every canary there was at the hand-over had been seen available on the
      target of then. */
  lemma CanariesComeFirst(worlds: seq<World>, actions: seq<Action>, j: nat, k: nat)
    requires FreshRun(worlds, actions) && j < k < |worlds|
    requires worlds[j].status.phase !in {Canary, Rolling} && worlds[k].status.phase == Rolling
    requires forall i :: j <= i < k ==> worlds[i].spec.canaryEnabled
    ensures exists m: nat :: j < m < k && HandedOverAt(worlds, m, k) &&
              forall n :: n in worlds[m].fleet && worlds[m].fleet[n].matchesCanary ==>
                WasVerified(worlds, actions, n, worlds[m].spec.image, m)
  {
    RollingIsReachedThroughCanary(worlds, actions, j, k);
    var m: nat :| j < m < k && HandedOverAt(worlds, m, k);
    PromotedCanariesWereVerified(worlds, actions, m);
  }
}
