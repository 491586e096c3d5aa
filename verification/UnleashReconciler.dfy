/** The Unleash controller as it runs (internal/controller/unleash_controller.go): status fields and conditions assigned
    step by step and written back, each write refused or not by the generation it speaks for. Between the methods
    anything may happen to the instance; each is proved to do what UnleashSteps says. */
module UnleashReconciler {
  import opened Wrappers
  import opened ImageVersions
  import opened ChannelModel
  import opened ChannelSteps
  import opened UnleashSteps
  import opened Readiness

  datatype ConditionType = Reconciled | Connection

  /** Priority order of the pull: own entry, phase fallback, last image; nothing for a first assignment. */
  method ResolveReleaseChannelImage(spec: Spec, st: Status, n: Name, i: Instance) returns (image: Option<Image>)
    ensures image == Resolve(spec, st, n, i)
  {
    if n in st.instanceImages && st.instanceImages[n] != "" {
      return Some(st.instanceImages[n]);
    }
    if st.phase == Canary {
      if st.previousImage != "" {
        return Some(st.previousImage);
      }
    }
    if st.phase == Rolling || st.phase == RollingBack {
      var fallback := st.previousImage;
      if st.phase == RollingBack && spec.rollbackImage != "" {
        fallback := spec.rollbackImage;
      }
      if fallback != "" {
        return Some(fallback);
      }
    }
    if i.resolved != "" {
      return Some(i.resolved);
    }
    return None;
  }

  class Reconciler {
    /** The server's copy of the instance, its Deployment, and how far this reconcile has come. */
    var instance: Instance

    constructor (instance: Instance)
      ensures this.instance == instance
    {
      this.instance := instance;
    }

    method Rest()
      modifies this
      ensures instance == old(instance).(worker := Resting)
    {
      instance := instance.(worker := Resting);
    }

    /** Writes one condition for the generation reconciled; a true one only while that is the current generation. */
    method UpdateStatus(kind: ConditionType, verdict: Verdict, generation: int) returns (written: bool)
      modifies this
      ensures written <==> verdict != Positive || old(instance).generation == generation
      ensures !written ==> instance == old(instance)
      ensures written ==>
                instance == if kind == Reconciled then old(instance).(reconciled := Condition(verdict, generation))
                            else old(instance).(connected := Condition(verdict, generation))
    {
      var current := instance;
      if verdict == Positive && current.generation != generation {
        return false;
      }
      match kind
      case Reconciled => instance := current.(reconciled := Condition(verdict, generation)); return true;
      case Connection => instance := current.(connected := Condition(verdict, generation)); return true;
    }

    /** Publishes a new assignment and withdraws the readiness earned for the old one, in a single write. */
    method MarkReleaseChannelAssignmentPending(generation: int, image: Image) returns (written: bool)
      modifies this
      ensures written <==> old(instance).generation == generation
      ensures instance == if written then MarkPending(old(instance), generation, image) else old(instance)
    {
      var current := instance;
      if current.generation != generation {
        return false;
      }
      current := current.(resolved := image, marked := true);
      current := current.(reconciled := Condition(Pending, generation));
      current := current.(connected := Condition(Pending, generation));
      instance := current;
      return true;
    }

    method Start()
      requires instance.worker.Resting?
      modifies this
      ensures instance == Begin(old(instance))
    {
      var generation := instance.generation;
      if instance.reconciled.verdict == Absent && instance.connected.verdict == Absent {
        instance := instance.(reconciled := Condition(Pending, generation));
      }
      instance := instance.(worker := Started(generation));
    }

    /** The first half of reconcileDeployment. */
    method Pull(spec: Spec, st: Status, n: Name)
      requires instance.worker.Started?
      modifies this
      ensures instance == ResolveImage(spec, st, n, old(instance))
    {
      var generation := instance.worker.generation;
      var pulled := ResolveReleaseChannelImage(spec, st, n, instance);
      if pulled.None? {
        Rest();
        return;
      }
      if instance.resolved != pulled.value || !instance.marked {
        var written := MarkReleaseChannelAssignmentPending(generation, pulled.value);
        if !written {
          Rest();
          return;
        }
      }
      instance := instance.(worker := Assigned(generation, pulled.value));
    }

    /** The second half: create or update the Deployment, and come back later if anything was written. */
    method ReconcileDeployment(specChanged: bool, replicas: Option<int>)
      requires instance.worker.Assigned?
      modifies this
      ensures instance == MoveDeployment(old(instance), specChanged, replicas)
    {
      var generation, image := instance.worker.generation, instance.worker.image;
      if instance.deployment.None? {
        instance := instance.(deployment := Some(Deployment(image, 1, 0, replicas, 0, 0, 0, 0, 0, false, false)));
        Rest();
        return;
      }
      var found := instance.deployment.value;
      if found.image != image || specChanged {
        found := found.(image := image, replicas := replicas, generation := found.generation + 1);
        instance := instance.(deployment := Some(found));
        Rest();
        return;
      }
      instance := instance.(worker := Deployed(generation, image));
    }

    /** The readiness tail: Reconciled turns true only for a Deployment that is fully available. */
    method ReportDeployment()
      requires instance.worker.Deployed?
      modifies this
      ensures instance == ObserveDeployment(old(instance))
    {
      var generation, image := instance.worker.generation, instance.worker.image;
      if instance.deployment.None? {
        var written := UpdateStatus(Reconciled, Negative, generation);
        Rest();
        return;
      }
      var deployment := instance.deployment.value;
      if DeploymentFailed(deployment) {
        var written := UpdateStatus(Reconciled, Rejected, generation);
        Rest();
        return;
      }
      if !DeploymentIsReady(deployment) {
        var written := UpdateStatus(Reconciled, Pending, generation);
        Rest();
        return;
      }
      var written := UpdateStatus(Reconciled, Positive, generation);
      if !written {
        Rest();
        return;
      }
      instance := instance.(worker := Verified(generation, image));
    }

    method ReportConnection(reachable: bool)
      requires instance.worker.Verified?
      modifies this
      ensures instance == TestConnection(old(instance), reachable)
    {
      var generation := instance.worker.generation;
      var written := UpdateStatus(Connection, if reachable then Positive else Negative, generation);
      Rest();
    }

    /** One reconcile nobody interferes with. */
    method Reconcile(spec: Spec, st: Status, n: Name, replicas: Option<int>, reachable: bool)
      requires instance.worker.Resting?
      modifies this
      ensures instance == Undisturbed(spec, st, n, old(instance), replicas, reachable)
    {
      Start();
      Pull(spec, st, n);
      if !instance.worker.Assigned? { return; }
      ReconcileDeployment(false, replicas);
      if !instance.worker.Deployed? { return; }
      ReportDeployment();
      if !instance.worker.Verified? { return; }
      ReportConnection(reachable);
    }
  }

  function Undisturbed(spec: Spec, st: Status, n: Name, i: Instance, replicas: Option<int>, reachable: bool): Instance
    requires i.worker.Resting?
  {
    var pulled := ResolveImage(spec, st, n, Begin(i));
    if !pulled.worker.Assigned? then pulled
    else
      var moved := MoveDeployment(pulled, false, replicas);
      if !moved.worker.Deployed? then moved
      else
        var seen := ObserveDeployment(moved);
        if !seen.worker.Verified? then seen else TestConnection(seen, reachable)
  }

  /** What an instance that is not ready lacks before one undisturbed reconcile settles it on an image. */
  predicate CanSettle(spec: Spec, st: Status, n: Name, i: Instance, image: Image, reachable: bool) {
    && Resolve(spec, st, n, i) == Some(image)
    && i.deployment.Some? && i.deployment.value.image == image
    && FullyAvailable(i.deployment.value) && !GivenUp(i.deployment.value)
    && reachable
  }

  lemma PulledInstance(spec: Spec, st: Status, n: Name, i: Instance)
    requires i.worker.Resting? && !Ready(i)
    ensures var pulled := ResolveImage(spec, st, n, Begin(i));
            && !Ready(pulled) && pulled.generation == i.generation && pulled.deployment == i.deployment
            && (pulled.worker.Assigned? <==> Resolve(spec, st, n, i).Some?)
            && (pulled.worker.Assigned? ==>
                  Resolve(spec, st, n, i) == Some(pulled.resolved) && pulled.worker == Assigned(i.generation, pulled.resolved))
  {}

  lemma AssignedInstance(i: Instance, replicas: Option<int>)
    requires i.worker.Assigned? && !Ready(i) && i.worker == Assigned(i.generation, i.resolved)
    ensures var moved := MoveDeployment(i, false, replicas);
            && !Ready(moved)
            && (moved.worker.Deployed? <==> i.deployment.Some? && i.deployment.value.image == i.resolved)
            && (moved.worker.Deployed? ==> moved == i.(worker := Deployed(i.generation, i.resolved)))
  {}

  lemma DeployedInstance(i: Instance, reachable: bool, image: Image)
    requires i.worker.Deployed? && !Ready(i) && i.worker == Deployed(i.generation, i.resolved) && i.deployment.Some?
    ensures var seen := ObserveDeployment(i);
            Settled(if seen.worker.Verified? then TestConnection(seen, reachable) else seen, image) <==>
              && i.resolved == image && reachable
              && FullyAvailable(i.deployment.value) && !GivenUp(i.deployment.value)
  {}

  /** One undisturbed reconcile settles an instance that was not ready exactly when the image is the one it pulls, its
      Deployment already carries it and is fully available without a failure, and Unleash answers. */
  lemma SettlesExactlyWhenAvailable(
    spec: Spec, st: Status, n: Name, i: Instance, replicas: Option<int>, reachable: bool, image: Image)
    requires i.worker.Resting? && !Ready(i)
    ensures Settled(Undisturbed(spec, st, n, i, replicas, reachable), image) <==> CanSettle(spec, st, n, i, image, reachable)
  {
    var pulled := ResolveImage(spec, st, n, Begin(i));
    PulledInstance(spec, st, n, i);
    if pulled.worker.Assigned? {
      AssignedInstance(pulled, replicas);
      var moved := MoveDeployment(pulled, false, replicas);
      if moved.worker.Deployed? { DeployedInstance(moved, reachable, image); }
    }
  }

  /** What is ready already stays ready, so that the same condition settles any instance at rest. */
  lemma SettlesWhenAvailable(
    spec: Spec, st: Status, n: Name, i: Instance, replicas: Option<int>, reachable: bool, image: Image)
    requires i.worker.Resting? && CanSettle(spec, st, n, i, image, reachable)
    ensures Settled(Undisturbed(spec, st, n, i, replicas, reachable), image)
  {
    AssignmentIsTaken(spec, st, n, i, image);
    AssignmentIsDeployed(ResolveImage(spec, st, n, Begin(i)), replicas);
  }

  lemma AssignmentIsTaken(spec: Spec, st: Status, n: Name, i: Instance, image: Image)
    requires Resolve(spec, st, n, i) == Some(image)
    ensures var pulled := ResolveImage(spec, st, n, Begin(i));
            && pulled.worker == Assigned(i.generation, image) && pulled.resolved == image
            && pulled.generation == i.generation && pulled.deployment == i.deployment
  {}

  lemma AssignmentIsDeployed(i: Instance, replicas: Option<int>)
    requires i.worker.Assigned?
    ensures var moved := MoveDeployment(i, false, replicas);
            && moved.deployment.Some? && moved.deployment.value.image == i.worker.image
            && moved.resolved == i.resolved && moved.generation == i.generation
            && moved.worker in {Resting, Deployed(i.worker.generation, i.worker.image)}
            && (i.deployment.Some? && i.deployment.value.image == i.worker.image ==>
                  moved.worker.Deployed? && moved.deployment == i.deployment)
  {}

  lemma LookingChangesNoDeployment(i: Instance, reachable: bool)
    requires i.worker.Deployed?
    ensures var seen := ObserveDeployment(i);
            var after := if seen.worker.Verified? then TestConnection(seen, reachable) else seen;
            after.deployment == i.deployment && after.resolved == i.resolved && after.worker.Resting?
  {}

  /** The Deployment as the cluster reports it once it has caught up. */
  predicate CaughtUp(d: Deployment, written: Deployment) {
    && d.image == written.image && d.generation == written.generation && d.replicas == written.replicas
    && FullyAvailable(d) && !GivenUp(d)
  }

  lemma DeploysWhatItPulls(
    spec: Spec, st: Status, n: Name, i: Instance, replicas: Option<int>, reachable: bool, image: Image)
    requires i.worker.Resting? && Resolve(spec, st, n, i) == Some(image)
    ensures var after := Undisturbed(spec, st, n, i, replicas, reachable);
            && after.deployment.Some? && after.deployment.value.image == image && after.worker.Resting?
            && after.resolved == image
  {
    var pulled := ResolveImage(spec, st, n, Begin(i));
    var moved := MoveDeployment(pulled, false, replicas);
    AssignmentIsTaken(spec, st, n, i, image);
    AssignmentIsDeployed(pulled, replicas);
    if moved.worker.Deployed? { LookingChangesNoDeployment(moved, reachable); }
  }

  lemma PullsTheSameAgain(spec: Spec, st: Status, n: Name, i: Instance, after: Instance, image: Image)
    requires Resolve(spec, st, n, i) == Some(image) && after.resolved == image && image != ""
    ensures Resolve(spec, st, n, after) == Some(image)
  {}

  /** An assignment is always carried through: two undisturbed reconciles, with a cluster in between that brings the
      Deployment up, settle the instance on the image it is assigned, whatever state it was in. */
  lemma TwoReconcilesSettle(
    spec: Spec, st: Status, n: Name, i: Instance, replicas: Option<int>, early: bool, image: Image, d: Deployment)
    requires i.worker.Resting? && Resolve(spec, st, n, i) == Some(image) && image != ""
    requires var first := Undisturbed(spec, st, n, i, replicas, early);
             first.deployment.Some? && CaughtUp(d, first.deployment.value)
    ensures var first := Undisturbed(spec, st, n, i, replicas, early);
            && first.worker.Resting?
            && Settled(Undisturbed(spec, st, n, first.(deployment := Some(d)), replicas, true), image)
  {
    var first := Undisturbed(spec, st, n, i, replicas, early);
    DeploysWhatItPulls(spec, st, n, i, replicas, early, image);
    PullsTheSameAgain(spec, st, n, i, first.(deployment := Some(d)), image);
    SettlesWhenAvailable(spec, st, n, first.(deployment := Some(d)), replicas, true, image);
  }
}
