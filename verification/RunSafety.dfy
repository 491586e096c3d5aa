/** Safety over whole runs: every gate the rollout passes was passed by instances that really ran the image,
    the rollback baseline always has a witness in the past, and a canary phase keeps everybody else out. */
module RunSafety {
  import opened Wrappers
  import opened ImageVersions
  import opened ChannelModel
  import opened ChannelSteps
  import opened Rollout
  import opened Readiness
  import opened PhaseSafety
  import opened RolloutGuards

  /** A run that begins before anything was ever ready. */
  ghost predicate FreshRun(worlds: seq<World>, actions: seq<Action>) {
    Run(worlds, actions) && WorkersAgree(worlds[0]) && NoneReady(worlds[0])
  }

  // -------------------------------------------------- gates mean verified images

  lemma SettledWasVerified(worlds: seq<World>, actions: seq<Action>, k: nat, names: set<Name>, image: Image)
    requires FreshRun(worlds, actions) && k < |worlds|
    requires forall n :: n in names && n in worlds[k].fleet ==> worlds[k].fleet[n].resolved == image && Ready(worlds[k].fleet[n])
    ensures forall n :: n in names && n in worlds[k].fleet ==> WasVerified(worlds, actions, n, image, k)
  {
    forall n | n in names && n in worlds[k].fleet ensures WasVerified(worlds, actions, n, image, k) {
      ReadyMeansVerified(worlds, actions, n, k);
    }
  }

  lemma ReconciledWhenStatusMoves(w: World, a: Action)
    requires Enabled(w, a) && Step(w, a).status != w.status
    ensures a.Reconcile?
  {}

  /** A rollout completes only after every instance's Deployment was seen fully available on the target. */
  lemma CompletedMeansVerified(worlds: seq<World>, actions: seq<Action>, k: nat)
    requires FreshRun(worlds, actions) && k < |actions|
    requires worlds[k].status.phase == Rolling && worlds[k + 1].status.phase == Completed
    ensures forall n :: n in worlds[k].fleet ==> WasVerified(worlds, actions, n, worlds[k].spec.image, k)
  {
    ReconciledWhenStatusMoves(worlds[k], actions[k]);
    CompletesOnlyWhenAllSettled(Observed(worlds[k], actions[k]), worlds[k].status);
    SettledWasVerified(worlds, actions, k, worlds[k].fleet.Keys, worlds[k].spec.image);
  }

  /** Rolling lets go of a batch only after every member still present was seen available on the batch target. */
  lemma ClearedBatchWasVerified(worlds: seq<World>, actions: seq<Action>, k: nat)
    requires FreshRun(worlds, actions) && k < |actions|
    requires worlds[k].status.phase == Rolling && worlds[k].status.activeBatch.Some?
    requires worlds[k + 1].status.phase == Rolling && worlds[k + 1].status.activeBatch.None?
    ensures var batch := worlds[k].status.activeBatch.value;
            var target := if batch.target == "" then worlds[k].spec.image else batch.target;
            forall n :: n in batch.names && n in worlds[k].fleet ==> WasVerified(worlds, actions, n, target, k)
  {
    ReconciledWhenStatusMoves(worlds[k], actions[k]);
    var o, batch := Observed(worlds[k], actions[k]), worlds[k].status.activeBatch.value;
    BatchClearsOnlyWhenReady(o, worlds[k].status);
    var names := set n | n in batch.names;
    assert forall n :: n in names && n in worlds[k].fleet ==> n in Members(o, batch);
    SettledWasVerified(worlds, actions, k, names, BatchTarget(o, batch));
  }

  /** Canary hands over to Rolling only after every canary was seen available on the target. */
  lemma PromotedCanariesWereVerified(worlds: seq<World>, actions: seq<Action>, k: nat)
    requires FreshRun(worlds, actions) && k < |actions|
    requires worlds[k].status.phase == Canary && worlds[k + 1].status.phase == Rolling
    ensures forall n :: n in worlds[k].fleet && IsCanary(worlds[k].spec, worlds[k].fleet[n]) ==>
              WasVerified(worlds, actions, n, worlds[k].spec.image, k)
  {
    ReconciledWhenStatusMoves(worlds[k], actions[k]);
    var o := Observed(worlds[k], actions[k]);
    CanaryMovesOnOnlyWhenSettled(o, worlds[k].status);
    var names := set n | n in Canaries(o);
    assert forall n :: n in worlds[k].fleet && IsCanary(worlds[k].spec, worlds[k].fleet[n]) ==> n in names;
    SettledWasVerified(worlds, actions, k, names, worlds[k].spec.image);
  }

  /** A rollback ends only after every instance was seen available on the image rolled back to. */
  lemma RestoredMeansVerified(worlds: seq<World>, actions: seq<Action>, k: nat)
    requires FreshRun(worlds, actions) && k < |actions|
    requires worlds[k].status.phase == RollingBack && worlds[k + 1].status.phase == Idle
    ensures forall n :: n in worlds[k].fleet ==>
              WasVerified(worlds, actions, n, RollbackTarget(worlds[k].spec, worlds[k].status), k)
  {
    ReconciledWhenStatusMoves(worlds[k], actions[k]);
    RollbackEndsOnlyWhenRestored(Observed(worlds[k], actions[k]), worlds[k].status);
    SettledWasVerified(worlds, actions, k, worlds[k].fleet.Keys, RollbackTarget(worlds[k].spec, worlds[k].status));
  }

  // ---------------------------------------------------------- waiting on members

  /** Whoever joins Rolling under the name of a batch member still has the entry of that member. */
  predicate RejoinsAssigned(w: World, a: Action) {
    a.Join? && w.status.phase == Rolling && w.status.activeBatch.Some? && a.n in w.status.activeBatch.value.names ==>
      ImageOf(w.status, a.n) == w.status.activeBatch.value.target
  }

  /** A join leaves the open batch assigned exactly when that is so. */
  lemma JoinKeepsBatchAssignedIff(w: World, a: Action)
    requires Enabled(w, a) && a.Join? && BatchIsAssigned(w.fleet, w.status)
    ensures BatchIsAssigned(Step(w, a).fleet, Step(w, a).status) <==> RejoinsAssigned(w, a)
  {}

  lemma ActionKeepsBatchAssigned(w: World, a: Action)
    requires Enabled(w, a) && RejoinsAssigned(w, a) && w.spec.image != "" && BatchIsAssigned(w.fleet, w.status)
    ensures BatchIsAssigned(Step(w, a).fleet, Step(w, a).status)
  {
    if a.Reconcile? { StepKeepsBatchAssigned(Observed(w, a), w.status); }
  }

  predicate KeepsBatchAssigned(w: World, after: World) {
    BatchIsAssigned(w.fleet, w.status) ==> BatchIsAssigned(after.fleet, after.status)
  }

  lemma {:induction false} BatchAssignmentPersists(worlds: seq<World>, k: nat)
    requires k < |worlds| && BatchIsAssigned(worlds[0].fleet, worlds[0].status)
    requires forall i :: 0 <= i < k ==> KeepsBatchAssigned(worlds[i], worlds[i + 1])
    ensures BatchIsAssigned(worlds[k].fleet, worlds[k].status)
  {
    if k > 0 {
      BatchAssignmentPersists(worlds, k - 1);
      assert KeepsBatchAssigned(worlds[k - 1], worlds[k]);
    }
  }

  lemma BatchStaysAssigned(worlds: seq<World>, actions: seq<Action>, k: nat)
    requires Run(worlds, actions) && k < |worlds| && BatchIsAssigned(worlds[0].fleet, worlds[0].status)
    requires forall i :: 0 <= i < k ==> worlds[i].spec.image != "" && RejoinsAssigned(worlds[i], actions[i])
    ensures BatchIsAssigned(worlds[k].fleet, worlds[k].status)
  {
    forall i | 0 <= i < k ensures KeepsBatchAssigned(worlds[i], worlds[i + 1]) {
      if BatchIsAssigned(worlds[i].fleet, worlds[i].status) {
        ActionKeepsBatchAssigned(worlds[i], actions[i]);
      }
    }
    BatchAssignmentPersists(worlds, k);
  }

  /** Along a run the members of the open batch stay assigned its target exactly when every join leaves them so. */
  lemma BatchesStayAssignedIff(worlds: seq<World>, actions: seq<Action>)
    requires Run(worlds, actions) && BatchIsAssigned(worlds[0].fleet, worlds[0].status)
    requires forall i :: 0 <= i < |worlds| ==> worlds[i].spec.image != ""
    ensures (forall k :: 0 <= k < |worlds| ==> BatchIsAssigned(worlds[k].fleet, worlds[k].status)) <==>
              (forall i :: 0 <= i < |actions| ==> RejoinsAssigned(worlds[i], actions[i]))
  {
    if forall i :: 0 <= i < |actions| ==> RejoinsAssigned(worlds[i], actions[i]) {
      forall k | 0 <= k < |worlds| ensures BatchIsAssigned(worlds[k].fleet, worlds[k].status) {
        BatchStaysAssigned(worlds, actions, k);
      }
    } else {
      var i :| 0 <= i < |actions| && !RejoinsAssigned(worlds[i], actions[i]);
      if BatchIsAssigned(worlds[i].fleet, worlds[i].status) {
        JoinKeepsBatchAssignedIff(worlds[i], actions[i]);
        assert !BatchIsAssigned(worlds[i + 1].fleet, worlds[i + 1].status);
      }
    }
  }

  /** In every reachable Rolling state, the image each present batch member pulls is the image waited for. */
  lemma ReachableBatchesCanSettle(worlds: seq<World>, actions: seq<Action>, k: nat, n: Name)
    requires Run(worlds, actions) && k < |worlds| && BatchIsAssigned(worlds[0].fleet, worlds[0].status)
    requires forall i :: 0 <= i < k ==> worlds[i].spec.image != "" && RejoinsAssigned(worlds[i], actions[i])
    requires worlds[k].status.phase == Rolling && worlds[k].status.activeBatch.Some?
    requires n in worlds[k].status.activeBatch.value.names && n in worlds[k].fleet
    ensures var st, target := worlds[k].status, worlds[k].status.activeBatch.value.target;
            && target != "" && Resolve(worlds[k].spec, st, n, worlds[k].fleet[n]) == Some(target)
            && Expected(worlds[k].spec, st, worlds[k].fleet[n], target) == target
  {
    BatchStaysAssigned(worlds, actions, k);
  }

  // ------------------------------------------------------------ baseline source

  /** A step that changes the baseline to an image writes what the whole fleet runs. */
  predicate BaselineHasCause(w: World, a: Action, after: World) {
    after.status.previousImage in {"", w.status.previousImage} ||
    (a.Reconcile? && Unanimous(w.fleet, after.status.previousImage))
  }

  lemma StepGivesBaselineACause(w: World, a: Action)
    requires Enabled(w, a)
    ensures BaselineHasCause(w, a, Step(w, a))
  {
    if a.Reconcile? {
      var o := Observe(w.spec, w.fleet, a.order, w.now, a.faults);
      if o.baseline != "" { ObservedBaselineIsUnanimous(w.fleet, a.order, o.baseline); }
      BaselineIsUnanimousWhenWritten(o, w.status);
    }
  }

  predicate BaselineHeld(worlds: seq<World>, image: Image, from: nat, to: nat)
    requires to < |worlds|
  {
    forall m :: from <= m <= to ==> worlds[m].status.previousImage == image
  }

  /** Some earlier reconcile found the whole fleet on the image and recorded it, and it has stood since. */
  ghost predicate WasBaseline(worlds: seq<World>, actions: seq<Action>, image: Image, k: nat)
    requires k < |worlds| == |actions| + 1
  {
    exists j: nat :: j < k && actions[j].Reconcile? && Unanimous(worlds[j].fleet, image) && BaselineHeld(worlds, image, j + 1, k)
  }

  lemma {:induction false} BaselineReachesBack(worlds: seq<World>, actions: seq<Action>, k: nat)
    requires k < |worlds| == |actions| + 1
    requires forall i :: 0 <= i < k ==> BaselineHasCause(worlds[i], actions[i], worlds[i + 1])
    requires worlds[0].status.previousImage == "" != worlds[k].status.previousImage
    ensures WasBaseline(worlds, actions, worlds[k].status.previousImage, k)
  {
    if k > 0 {
      var image := worlds[k].status.previousImage;
      assert BaselineHasCause(worlds[k - 1], actions[k - 1], worlds[k]);
      if worlds[k - 1].status.previousImage == image {
        BaselineReachesBack(worlds, actions, k - 1);
        var j: nat :| j < k - 1 && actions[j].Reconcile? && Unanimous(worlds[j].fleet, image) && BaselineHeld(worlds, image, j + 1, k - 1);
        assert BaselineHeld(worlds, image, j + 1, k);
      } else {
        assert BaselineHeld(worlds, image, k, k);
      }
    }
  }

  /** In every reachable state, a recorded baseline was the image of the whole fleet when it was recorded. */
  lemma BaselineIsSound(worlds: seq<World>, actions: seq<Action>, k: nat)
    requires Run(worlds, actions) && k < |worlds|
    requires worlds[0].status.previousImage == "" != worlds[k].status.previousImage
    ensures WasBaseline(worlds, actions, worlds[k].status.previousImage, k)
  {
    forall i | 0 <= i < k ensures BaselineHasCause(worlds[i], actions[i], worlds[i + 1]) {
      StepGivesBaselineACause(worlds[i], actions[i]);
    }
    BaselineReachesBack(worlds, actions, k);
  }
}
