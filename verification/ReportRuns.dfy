/** What the conditions of an instance say over whole runs: a changed Deployment makes nobody ready before the cluster has
    caught up with it, and being connected or terminally failed has its cause in the past too. */
module ReportRuns {
  import opened Wrappers
  import opened ImageVersions
  import opened ChannelModel
  import opened UnleashSteps
  import opened Rollout
  import opened Readiness

  // ------------------------------------------------- the cluster has to catch up

  /** The cluster has reported on no generation of n's Deployment from this one on. */
  predicate Behind(w: World, n: Name, generation: int) {
    && n in w.fleet && w.fleet[n].deployment.Some?
    && w.fleet[n].deployment.value.observedGeneration < generation <= w.fleet[n].deployment.value.generation
  }

  predicate CatchesUp(a: Action, n: Name, generation: int) {
    a.ClusterReports? && a.n == n && a.deployment.observedGeneration >= generation
  }

  lemma ActionStaysBehind(w: World, a: Action, generation: int)
    requires Enabled(w, a) && AboutOne(a) && Behind(w, a.n, generation) && !CatchesUp(a, a.n, generation)
    ensures var after := InstanceAfter(w, a);
            after.deployment.Some? && after.deployment.value.observedGeneration < generation <= after.deployment.value.generation
  {}

  lemma StepStaysBehind(w: World, a: Action, n: Name, generation: int)
    requires Enabled(w, a) && Behind(w, n, generation) && a != Leave(n) && !CatchesUp(a, n, generation)
    ensures Behind(Step(w, a), n, generation)
  {
    if AboutOne(a) && a.n == n { ActionStaysBehind(w, a, generation); }
  }

  lemma BehindIsNotReady(w: World, a: Action, n: Name, generation: int)
    requires Enabled(w, a) && Behind(w, n, generation) && a == Look(n) && !Ready(w.fleet[n])
    ensures !Ready(Step(w, a).fleet[n])
  {
    LookReports(w.fleet[n]);
  }

  lemma {:induction false} BehindUntilReported(
    worlds: seq<World>, actions: seq<Action>, n: Name, generation: int, j: nat, k: nat)
    requires Run(worlds, actions) && j <= k < |worlds| && Behind(worlds[j], n, generation)
    requires forall i :: j <= i < k ==> actions[i] != Leave(n) && !CatchesUp(actions[i], n, generation)
    ensures Behind(worlds[k], n, generation)
    decreases k
  {
    if k > j {
      BehindUntilReported(worlds, actions, n, generation, j, k - 1);
      StepStaysBehind(worlds[k - 1], actions[k - 1], n, generation);
    }
  }

  /** The step wrote n's Deployment, which the cluster had not looked ahead of. */
  predicate Changes(w: World, a: Action, after: World, n: Name) {
    && a.Move? && a.n == n && n in w.fleet && n in after.fleet
    && after.fleet[n].deployment != w.fleet[n].deployment
    && (w.fleet[n].deployment.Some? ==>
          w.fleet[n].deployment.value.observedGeneration <= w.fleet[n].deployment.value.generation)
  }

  lemma ChangeLeavesBehind(w: World, a: Action, n: Name)
    requires Enabled(w, a) && Changes(w, a, Step(w, a), n)
    ensures Step(w, a).fleet[n].deployment.Some? && Behind(Step(w, a), n, Step(w, a).fleet[n].deployment.value.generation)
  {}

  /** A reconcile writes the Deployment exactly when there is none, it carries another image, or anything else differs from
      what is asked for; it goes on to look at it only otherwise. What it writes carries the image under a new generation. */
  lemma WritesExactlyWhatDiffers(i: Instance, specChanged: bool, replicas: Option<int>)
    requires i.worker.Assigned?
    ensures var after := MoveDeployment(i, specChanged, replicas);
            var differs := i.deployment.None? || i.deployment.value.image != i.worker.image || specChanged;
            && (after.deployment != i.deployment <==> differs) && (after.worker.Deployed? <==> !differs)
            && (differs ==> after.deployment.Some? && after.deployment.value.image == i.worker.image
                            && after.deployment.value.replicas == replicas && after.worker.Resting?)
            && (differs && i.deployment.Some? ==> after.deployment.value.generation > i.deployment.value.generation)
            && after.reconciled == i.reconciled && after.connected == i.connected && after.resolved == i.resolved
  {}

  /** Once a reconcile has changed n's Deployment, no look makes the instance ready before the cluster has reported on the
      new generation. */
  lemma ReadyAfterChangeWasReported(worlds: seq<World>, actions: seq<Action>, n: Name, j: nat, k: nat)
    requires Run(worlds, actions) && j < k < |actions| && Changes(worlds[j], actions[j], worlds[j + 1], n)
    requires forall i :: j < i < k ==> actions[i] != Leave(n)
    requires actions[k] == Look(n) && n in worlds[k].fleet && !Ready(worlds[k].fleet[n]) && Ready(worlds[k + 1].fleet[n])
    ensures worlds[j + 1].fleet[n].deployment.Some?
    ensures exists i :: j < i < k && CatchesUp(actions[i], n, worlds[j + 1].fleet[n].deployment.value.generation)
  {
    ChangeLeavesBehind(worlds[j], actions[j], n);
    var generation := worlds[j + 1].fleet[n].deployment.value.generation;
    if forall i :: j < i < k ==> !CatchesUp(actions[i], n, generation) {
      BehindUntilReported(worlds, actions, n, generation, j + 1, k);
      BehindIsNotReady(worlds[k], actions[k], n, generation);
      assert false;
    }
  }

  // ------------------------------------------------------------- connected

  predicate SawConnected(w: World, a: Action, n: Name) { a == Connect(n, true) && n in w.fleet }

  ghost predicate WasConnected(worlds: seq<World>, actions: seq<Action>, n: Name, image: Image, k: nat)
    requires k < |worlds| == |actions| + 1
  {
    exists j: nat :: j < k && SawConnected(worlds[j], actions[j], n) && HeldImage(worlds, n, image, j, k)
  }

  predicate ConnectionHasCause(w: World, a: Action, after: World, n: Name) {
    n in after.fleet && Connected(after.fleet[n]) ==>
      && n in w.fleet && SameAsked(w.fleet[n], after.fleet[n]) && (Connected(w.fleet[n]) || SawConnected(w, a, n))
  }

  lemma ActionGivesConnectionACause(w: World, a: Action)
    requires Enabled(w, a) && AboutOne(a) && WorkerAgrees(w.fleet[a.n]) && Connected(InstanceAfter(w, a))
    ensures SameAsked(w.fleet[a.n], InstanceAfter(w, a)) && (Connected(w.fleet[a.n]) || SawConnected(w, a, a.n))
  {}

  lemma StepGivesConnectionACause(w: World, a: Action, n: Name)
    requires WorkersAgree(w) && Enabled(w, a)
    ensures ConnectionHasCause(w, a, Step(w, a), n)
  {
    if AboutOne(a) && a.n == n && Connected(InstanceAfter(w, a)) { ActionGivesConnectionACause(w, a); }
  }

  lemma {:induction false} ConnectionReachesBack(worlds: seq<World>, actions: seq<Action>, n: Name, k: nat)
    requires k < |worlds| == |actions| + 1
    requires forall i :: 0 <= i < k ==> ConnectionHasCause(worlds[i], actions[i], worlds[i + 1], n)
    requires n in worlds[0].fleet ==> !Connected(worlds[0].fleet[n])
    requires n in worlds[k].fleet && Connected(worlds[k].fleet[n])
    ensures WasConnected(worlds, actions, n, worlds[k].fleet[n].resolved, k)
    decreases k
  {
    if k > 0 {
      assert ConnectionHasCause(worlds[k - 1], actions[k - 1], worlds[k], n);
      var image := worlds[k - 1].fleet[n].resolved;
      if Connected(worlds[k - 1].fleet[n]) {
        ConnectionReachesBack(worlds, actions, n, k - 1);
        var j: nat :| j < k - 1 && SawConnected(worlds[j], actions[j], n) && HeldImage(worlds, n, image, j, k - 1);
        assert HeldImage(worlds, n, image, j, k);
      } else {
        assert HeldImage(worlds, n, image, k - 1, k);
      }
    }
  }

  /** Whoever counts as connected has answered since it was given its image and its spec was last edited. */
  lemma ConnectedMeansAnswered(worlds: seq<World>, actions: seq<Action>, n: Name, k: nat)
    requires Run(worlds, actions) && k < |worlds| && WorkersAgree(worlds[0])
    requires n in worlds[0].fleet ==> !Connected(worlds[0].fleet[n])
    requires n in worlds[k].fleet && Connected(worlds[k].fleet[n])
    ensures WasConnected(worlds, actions, n, worlds[k].fleet[n].resolved, k)
  {
    forall i | 0 <= i < k ensures ConnectionHasCause(worlds[i], actions[i], worlds[i + 1], n) {
      AgreementHolds(worlds, actions, i);
      StepGivesConnectionACause(worlds[i], actions[i], n);
    }
    ConnectionReachesBack(worlds, actions, n, k);
  }

  // ---------------------------------------------------------------- failed

  predicate SawGivenUp(w: World, a: Action, n: Name, image: Image) {
    && a == Look(n) && n in w.fleet && w.fleet[n].deployment.Some?
    && GivenUp(w.fleet[n].deployment.value) && w.fleet[n].deployment.value.image == image
  }

  ghost predicate WasGivenUp(worlds: seq<World>, actions: seq<Action>, n: Name, image: Image, k: nat)
    requires k < |worlds| == |actions| + 1
  {
    exists j: nat :: j < k && SawGivenUp(worlds[j], actions[j], n, image) && HeldImage(worlds, n, image, j, k)
  }

  predicate FailureHasCause(w: World, a: Action, after: World, n: Name) {
    n in after.fleet && TerminallyFailed(after.fleet[n]) ==>
      && n in w.fleet && SameAsked(w.fleet[n], after.fleet[n])
      && (TerminallyFailed(w.fleet[n]) || SawGivenUp(w, a, n, w.fleet[n].resolved))
  }

  lemma ActionGivesFailureACause(w: World, a: Action)
    requires Enabled(w, a) && AboutOne(a) && WorkerAgrees(w.fleet[a.n]) && TerminallyFailed(InstanceAfter(w, a))
    ensures SameAsked(w.fleet[a.n], InstanceAfter(w, a))
    ensures TerminallyFailed(w.fleet[a.n]) || SawGivenUp(w, a, a.n, w.fleet[a.n].resolved)
  {}

  lemma StepGivesFailureACause(w: World, a: Action, n: Name)
    requires WorkersAgree(w) && Enabled(w, a)
    ensures FailureHasCause(w, a, Step(w, a), n)
  {
    if AboutOne(a) && a.n == n && TerminallyFailed(InstanceAfter(w, a)) { ActionGivesFailureACause(w, a); }
  }

  lemma {:induction false} FailureReachesBack(worlds: seq<World>, actions: seq<Action>, n: Name, k: nat)
    requires k < |worlds| == |actions| + 1
    requires forall i :: 0 <= i < k ==> FailureHasCause(worlds[i], actions[i], worlds[i + 1], n)
    requires n in worlds[0].fleet ==> !TerminallyFailed(worlds[0].fleet[n])
    requires n in worlds[k].fleet && TerminallyFailed(worlds[k].fleet[n])
    ensures WasGivenUp(worlds, actions, n, worlds[k].fleet[n].resolved, k)
    decreases k
  {
    if k > 0 {
      assert FailureHasCause(worlds[k - 1], actions[k - 1], worlds[k], n);
      var image := worlds[k - 1].fleet[n].resolved;
      if TerminallyFailed(worlds[k - 1].fleet[n]) {
        FailureReachesBack(worlds, actions, n, k - 1);
        var j: nat :| j < k - 1 && SawGivenUp(worlds[j], actions[j], n, image) && HeldImage(worlds, n, image, j, k - 1);
        assert HeldImage(worlds, n, image, j, k);
      } else {
        assert HeldImage(worlds, n, image, k - 1, k);
      }
    }
  }

  /** Whoever counts as terminally failed was seen given up by the cluster on the very image it has, since it was given it
      and its spec was last edited. A rollout therefore never fails for what an earlier image or spec did. */
  lemma FailedMeansGivenUp(worlds: seq<World>, actions: seq<Action>, n: Name, k: nat)
    requires Run(worlds, actions) && k < |worlds| && WorkersAgree(worlds[0])
    requires n in worlds[0].fleet ==> !TerminallyFailed(worlds[0].fleet[n])
    requires n in worlds[k].fleet && TerminallyFailed(worlds[k].fleet[n])
    ensures WasGivenUp(worlds, actions, n, worlds[k].fleet[n].resolved, k)
  {
    forall i | 0 <= i < k ensures FailureHasCause(worlds[i], actions[i], worlds[i + 1], n) {
      AgreementHolds(worlds, actions, i);
      StepGivesFailureACause(worlds[i], actions[i], n);
    }
    FailureReachesBack(worlds, actions, n, k);
  }

  // ------------------------------------------------------ outdated reconciles

  /** The instance's spec was edited after the reconcile in progress began. */
  predicate Outrun(i: Instance) { !i.worker.Resting? && i.worker.generation < i.generation }

  predicate GainsNothing(i: Instance, after: Instance) {
    && after.resolved == i.resolved && after.marked == i.marked && after.generation == i.generation
    && (Ready(after) ==> Ready(i)) && (Connected(after) ==> Connected(i)) && (TerminallyFailed(after) ==> TerminallyFailed(i))
  }

  /** A reconcile that has been outrun assigns nothing and reports nothing the channel would believe. */
  lemma OutrunReconcileGainsNothing(w: World, a: Action)
    requires Enabled(w, a) && AboutOne(a) && Outrun(w.fleet[a.n]) && !a.EditInstance? && WorkerAgrees(w.fleet[a.n])
    ensures GainsNothing(w.fleet[a.n], InstanceAfter(w, a))
    ensures Outrun(InstanceAfter(w, a)) || InstanceAfter(w, a).worker.Resting?
  {}

  /** Editing an instance's spec takes back everything reported about it, until a new reconcile reports again. */
  lemma EditTakesReportsBack(w: World, n: Name)
    requires WorkersAgree(w) && n in w.fleet
    ensures var after := Step(w, EditInstance(n)).fleet[n];
            !Ready(after) && !Connected(after) && !TerminallyFailed(after) && (after.worker.Resting? || Outrun(after))
  {}

  /** A reconcile that finds its assignment published takes nothing back; one that publishes another takes everything back. */
  lemma PublishingTakesReportsBack(spec: Spec, st: Status, n: Name, i: Instance, image: Image)
    requires i.worker.Started? && i.worker.generation == i.generation && Resolve(spec, st, n, i) == Some(image)
    ensures var after := ResolveImage(spec, st, n, i);
            && after.resolved == image && after.marked && after.worker == Assigned(i.generation, image)
            && (i.resolved == image && i.marked ==> after.reconciled == i.reconciled && after.connected == i.connected)
            && (i.resolved != image ==> !Ready(after) && !Connected(after) && !TerminallyFailed(after))
  {}

  /** A failing call, whatever for, leaves an instance of the current generation neither ready nor terminally failed. */
  lemma FailingCallsReportNoVerdict(i: Instance)
    requires !i.worker.Resting? && i.worker.generation == i.generation
    ensures !Ready(Abort(i)) && !TerminallyFailed(Abort(i)) && Abort(i).resolved == i.resolved && Abort(i).worker.Resting?
  {}

  /** From its first reconcile on, an instance has a report on record. */
  lemma FirstReconcileReports(i: Instance)
    ensures var after := Begin(i);
            && (after.reconciled.verdict != Absent || after.connected.verdict != Absent)
            && (Ready(after) ==> Ready(i)) && after.connected == i.connected && after.worker == Started(i.generation)
  {}
}
