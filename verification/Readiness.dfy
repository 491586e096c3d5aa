/** Readiness is never inherited from an older image: whatever the interleaving, an instance that counts as
    ready had its Deployment observed fully available on the very image it has resolved, since it resolved it. */
module Readiness {
  import opened ImageVersions
  import opened ChannelModel
  import opened Rollout
  import opened UnleashSteps
  import opened Wrappers

  /** A reconcile past its assignment, for the generation the instance still has. */
  predicate Speaks(i: Instance) {
    (i.worker.Assigned? || i.worker.Deployed? || i.worker.Verified?) && i.worker.generation == i.generation
  }

  /** What a reconcile in progress may rely on while the instance's generation has not moved. */
  predicate WorkerAgrees(i: Instance) {
    && (i.worker.Resting? || i.worker.generation <= i.generation)
    && i.reconciled.observed <= i.generation && i.connected.observed <= i.generation
    && (Speaks(i) ==> i.worker.image == i.resolved)
    && (Speaks(i) && i.worker.Deployed? ==> i.deployment.Some? && i.deployment.value.image == i.resolved)
  }

  predicate WorkersAgree(w: World) { forall n :: n in w.fleet ==> WorkerAgrees(w.fleet[n]) }

  lemma ActionKeepsWorkerAgrees(w: World, a: Action)
    requires Enabled(w, a) && AboutOne(a) && WorkerAgrees(w.fleet[a.n])
    ensures WorkerAgrees(InstanceAfter(w, a))
  {}

  lemma StepKeepsWorkersAgree(w: World, a: Action)
    requires WorkersAgree(w) && Enabled(w, a)
    ensures WorkersAgree(Step(w, a))
  {
    if AboutOne(a) { ActionKeepsWorkerAgrees(w, a); }
  }

  /** The cluster has acted on the current generation, and every replica asked for is updated, ready and available, with no
      other around. */
  predicate FullyAvailable(d: Deployment) {
    var wanted := if d.replicas.Some? then d.replicas.value else 1;
    && !(d.observedGeneration < d.generation)
    && d.updated == wanted && d.total == wanted && d.ready == wanted && d.available == wanted && d.unavailable == 0
  }

  /** The cluster has given up on the current generation. */
  predicate GivenUp(d: Deployment) { !(d.observedGeneration < d.generation) && (d.deadlineExceeded || d.replicaFailure) }

  /** What a look at the Deployment makes of an instance, for the generation its reconcile speaks for. */
  lemma LookReports(i: Instance)
    requires i.worker.Deployed?
    ensures var after, current := ObserveDeployment(i), i.worker.generation == i.generation;
            && (!Ready(i) ==>
                  (Ready(after) <==>
                     current && i.deployment.Some? && FullyAvailable(i.deployment.value) && !GivenUp(i.deployment.value)))
            && (current ==>
                  && (Ready(after) <==> i.deployment.Some? && FullyAvailable(i.deployment.value) && !GivenUp(i.deployment.value))
                  && (TerminallyFailed(after) <==> i.deployment.Some? && GivenUp(i.deployment.value)))
  {}

  /** A Deployment the cluster has not caught up with, or short of any replica, makes nobody ready. */
  lemma ShortfallsKeepFromReady(i: Instance, d: Deployment, wanted: int)
    requires i.worker.Deployed? && !Ready(i) && i.deployment == Some(d)
    requires wanted == if d.replicas.Some? then d.replicas.value else 1
    requires d.observedGeneration < d.generation || d.updated != wanted || d.total != wanted || d.ready != wanted
             || d.available != wanted || d.unavailable != 0
    ensures !Ready(ObserveDeployment(i))
  {
    LookReports(i);
  }

  /** Look at step j saw n's Deployment fully available with the image. */
  predicate SawAvailable(w: World, a: Action, n: Name, image: Image) {
    && a == Look(n) && n in w.fleet && w.fleet[n].deployment.Some?
    && FullyAvailable(w.fleet[n].deployment.value) && !GivenUp(w.fleet[n].deployment.value)
    && w.fleet[n].deployment.value.image == image
  }

  /** The instance has kept its image, and its own spec has not been edited. */
  predicate HeldImage(worlds: seq<World>, n: Name, image: Image, from: nat, to: nat)
    requires to < |worlds|
  {
    && (forall m :: from <= m <= to ==> n in worlds[m].fleet && worlds[m].fleet[n].resolved == image)
    && (forall m :: from <= m <= to ==> worlds[m].fleet[n].generation == worlds[to].fleet[n].generation)
  }

  /** Some earlier step saw the image available, and the instance has kept that image ever since. */
  ghost predicate WasVerified(worlds: seq<World>, actions: seq<Action>, n: Name, image: Image, k: nat)
    requires k < |worlds| == |actions| + 1
  {
    exists j: nat :: j < k && SawAvailable(worlds[j], actions[j], n, image) && HeldImage(worlds, n, image, j, k)
  }

  predicate SameAsked(i: Instance, after: Instance) { after.resolved == i.resolved && after.generation == i.generation }

  /** Readiness only appears by looking at an available Deployment, and only survives while the image stays. */
  predicate ReadinessHasCause(w: World, a: Action, after: World, n: Name) {
    n in after.fleet && Ready(after.fleet[n]) ==>
      && n in w.fleet && SameAsked(w.fleet[n], after.fleet[n])
      && (Ready(w.fleet[n]) || SawAvailable(w, a, n, w.fleet[n].resolved))
  }

  lemma ActionGivesReadinessACause(w: World, a: Action)
    requires Enabled(w, a) && AboutOne(a) && WorkerAgrees(w.fleet[a.n]) && Ready(InstanceAfter(w, a))
    ensures SameAsked(w.fleet[a.n], InstanceAfter(w, a))
    ensures Ready(w.fleet[a.n]) || SawAvailable(w, a, a.n, w.fleet[a.n].resolved)
  {}

  lemma StepGivesReadinessACause(w: World, a: Action, n: Name)
    requires WorkersAgree(w) && Enabled(w, a)
    ensures ReadinessHasCause(w, a, Step(w, a), n)
  {
    if AboutOne(a) && a.n == n && Ready(InstanceAfter(w, a)) { ActionGivesReadinessACause(w, a); }
  }

  lemma {:induction false} CausesReachBack(worlds: seq<World>, actions: seq<Action>, n: Name, k: nat)
    requires k < |worlds| == |actions| + 1
    requires forall i :: 0 <= i < k ==> ReadinessHasCause(worlds[i], actions[i], worlds[i + 1], n)
    requires n in worlds[0].fleet ==> !Ready(worlds[0].fleet[n])
    requires n in worlds[k].fleet && Ready(worlds[k].fleet[n])
    ensures WasVerified(worlds, actions, n, worlds[k].fleet[n].resolved, k)
    decreases k
  {
    if k > 0 {
      assert ReadinessHasCause(worlds[k - 1], actions[k - 1], worlds[k], n);
      var image := worlds[k - 1].fleet[n].resolved;
      if Ready(worlds[k - 1].fleet[n]) {
        CausesReachBack(worlds, actions, n, k - 1);
        var j: nat :| j < k - 1 && SawAvailable(worlds[j], actions[j], n, image) && HeldImage(worlds, n, image, j, k - 1);
        assert HeldImage(worlds, n, image, j, k);
      } else {
        assert HeldImage(worlds, n, image, k - 1, k);
      }
    }
  }

  predicate NoneReady(w: World) { forall n :: n in w.fleet ==> !Ready(w.fleet[n]) }

  lemma ReadyMeansVerified(worlds: seq<World>, actions: seq<Action>, n: Name, k: nat)
    requires Run(worlds, actions) && k < |worlds|
    requires WorkersAgree(worlds[0]) && NoneReady(worlds[0])
    requires n in worlds[k].fleet && Ready(worlds[k].fleet[n])
    ensures WasVerified(worlds, actions, n, worlds[k].fleet[n].resolved, k)
  {
    forall i | 0 <= i < k ensures ReadinessHasCause(worlds[i], actions[i], worlds[i + 1], n) {
      AgreementHolds(worlds, actions, i);
      StepGivesReadinessACause(worlds[i], actions[i], n);
    }
    CausesReachBack(worlds, actions, n, k);
  }

  lemma {:induction false} AgreementHolds(worlds: seq<World>, actions: seq<Action>, k: nat)
    requires Run(worlds, actions) && k < |worlds| && WorkersAgree(worlds[0])
    ensures WorkersAgree(worlds[k])
    decreases k
  {
    if k > 0 {
      AgreementHolds(worlds, actions, k - 1);
      StepKeepsWorkersAgree(worlds[k - 1], actions[k - 1]);
    }
  }
}
