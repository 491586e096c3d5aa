/** The ReleaseChannel controller as it runs (internal/controller/releasechannel_controller.go): one object in hand,
    its fields assigned step by step, and the copy on the API server that only explicit writes reach. Every phase
    executor is proved to leave on the server exactly what ChannelSteps says. */
module ChannelReconciler {
  import opened Wrappers
  import opened ImageVersions
  import opened ChannelModel
  import opened ChannelSteps
  import opened PhaseSafety
  import opened FleetScans

  lemma CountedSoFar(o: Observation, i: nat)
    requires Valid(o) && i < |o.order|
    ensures |set n | n in o.order[..i + 1] && n in o.fleet && o.fleet[n].resolved == o.spec.image|
            == |set n | n in o.order[..i] && n in o.fleet && o.fleet[n].resolved == o.spec.image|
               + if o.fleet[o.order[i]].resolved == o.spec.image then 1 else 0
  {
    var before := set n | n in o.order[..i] && n in o.fleet && o.fleet[n].resolved == o.spec.image;
    var after := set n | n in o.order[..i + 1] && n in o.fleet && o.fleet[n].resolved == o.spec.image;
    assert o.order[..i + 1] == o.order[..i] + [o.order[i]];
    assert o.order[i] !in before;
    assert after == if o.fleet[o.order[i]].resolved == o.spec.image then before + {o.order[i]} else before;
  }

  method CountUpToDate(o: Observation) returns (upToDate: nat)
    requires Valid(o)
    ensures upToDate == |UpToDate(o)|
  {
    upToDate := 0;
    for i := 0 to |o.order|
      invariant upToDate == |set n | n in o.order[..i] && n in o.fleet && o.fleet[n].resolved == o.spec.image|
    {
      CountedSoFar(o, i);
      if o.fleet[o.order[i]].resolved == o.spec.image {
        upToDate := upToDate + 1;
      }
    }
    assert o.order[..|o.order|] == o.order;
    assert UpToDate(o) == set n | n in o.order && n in o.fleet && o.fleet[n].resolved == o.spec.image;
  }

  method DropDeparted(images: map<Name, Image>, present: set<Name>) returns (kept: map<Name, Image>)
    ensures kept == map n | n in images && n in present :: images[n]
  {
    kept := images;
    var todo := images.Keys;
    while todo != {}
      invariant todo <= images.Keys
      invariant kept == map n | n in images && (n in todo || n in present) :: images[n]
    {
      var n :| n in todo;
      todo := todo - {n};
      if n !in present {
        kept := kept - {n};
      }
    }
  }

  method AdoptInto(o: Observation, images: map<Name, Image>) returns (adopted: map<Name, Image>)
    requires Valid(o)
    ensures adopted ==
              images + map n | n in o.fleet && o.fleet[n].resolved == o.spec.image && n !in images :: o.spec.image
  {
    adopted := images;
    for i := 0 to |o.order|
      invariant forall n :: n in adopted <==>
                  n in images || (n in o.order[..i] && n in o.fleet && o.fleet[n].resolved == o.spec.image)
      invariant forall n :: n in adopted ==> adopted[n] == if n in images then images[n] else o.spec.image
    {
      assert o.order[..i + 1] == o.order[..i] + [o.order[i]];
      if o.fleet[o.order[i]].resolved != o.spec.image {
        continue;
      }
      if o.order[i] in adopted {
        continue;
      }
      adopted := adopted[o.order[i] := o.spec.image];
    }
    assert o.order[..|o.order|] == o.order;
  }

  method AssignEverybody(o: Observation, images: map<Name, Image>, target: Image) returns (given: map<Name, Image>)
    requires Valid(o) && target != ""
    ensures given == images + map n | n in o.fleet :: target
  {
    given := images;
    for i := 0 to |o.order|
      invariant forall n :: n in given <==> n in images || n in o.order[..i]
      invariant forall n :: n in given ==> given[n] == if n in o.order[..i] then target else images[n]
    {
      assert o.order[..i + 1] == o.order[..i] + [o.order[i]];
      if ImageIn(given, o.order[i]) != target {
        given := given[o.order[i] := target];
      }
    }
    assert o.order[..|o.order|] == o.order;
  }

  function Desired(o: Observation, st: Status, names: seq<Name>): map<Name, Image>
    requires forall n :: n in names ==> n in o.fleet
  {
    map n | n in names :: Expected(o.spec, st, o.fleet[n], o.spec.image)
  }

  function Differing(images: map<Name, Image>, desired: map<Name, Image>): map<Name, Image> {
    map n | n in desired && ImageIn(images, n) != desired[n] :: desired[n]
  }

  method DesiredImages(o: Observation, st: Status, names: seq<Name>) returns (desired: map<Name, Image>)
    requires forall n :: n in names ==> n in o.fleet
    ensures desired == Desired(o, st, names)
  {
    desired := map[];
    for i := 0 to |names|
      invariant desired == map n | n in names[..i] :: Expected(o.spec, st, o.fleet[n], o.spec.image)
    {
      assert names[..i + 1] == names[..i] + [names[i]];
      desired := desired[names[i] := Expected(o.spec, st, o.fleet[names[i]], o.spec.image)];
    }
    assert names[..|names|] == names;
  }

  method ApplyDesired(images: map<Name, Image>, desired: map<Name, Image>) returns (applied: map<Name, Image>, changed: bool)
    ensures applied == images + Differing(images, desired)
    ensures changed <==> Differing(images, desired) != map[]
  {
    applied, changed := images, false;
    var todo := desired.Keys;
    while todo != {}
      invariant todo <= desired.Keys
      invariant forall n :: n in applied <==>
                  n in images || (n in desired && n !in todo && ImageIn(images, n) != desired[n])
      invariant forall n :: n in applied ==>
                  applied[n] == if n in desired && n !in todo && ImageIn(images, n) != desired[n] then desired[n] else images[n]
      invariant changed <==> exists n :: n in desired && n !in todo && ImageIn(images, n) != desired[n]
    {
      var n :| n in todo;
      todo := todo - {n};
      if ImageIn(applied, n) != desired[n] {
        applied := applied[n := desired[n]];
        changed := true;
      }
    }
    assert forall n :: n in desired && ImageIn(images, n) != desired[n] ==> n in Differing(images, desired);
  }

  /** The status a deployment writes, put together from the images and whether any changed. */
  function Assembled(o: Observation, st: Status, names: seq<Name>, images: map<Name, Image>, changed: bool): Status {
    st.(instanceImages := images, lastDeploy := if changed then Some(o.now) else st.lastDeploy,
        activeBatch := if st.phase == Rolling && (st.activeBatch.None? || BreakGlass(o.spec))
                       then Some(Batch(names, o.spec.image, o.now)) else st.activeBatch)
  }

  lemma DeployedStatus(o: Observation, st: Status, names: seq<Name>)
    requires forall n :: n in names ==> n in o.fleet
    ensures var given := Differing(st.instanceImages, Desired(o, st, names));
            Deploy(o, st, names) == Assembled(o, st, names, st.instanceImages + given, given != map[])
  {
    assert Differing(st.instanceImages, Desired(o, st, names)) ==
        map n | n in names && Reassigned(o, st, n) :: Expected(o.spec, st, o.fleet[n], o.spec.image);
  }

  method AssembleStatus(o: Observation, st: Status, names: seq<Name>) returns (after: Status)
    requires forall n :: n in names ==> n in o.fleet
    ensures after == Deploy(o, st, names)
  {
    var desired := DesiredImages(o, st, names);
    after := st;
    if after.phase == Rolling && (after.activeBatch.None? || BreakGlass(o.spec)) {
      after := after.(activeBatch := Some(Batch(names, o.spec.image, o.now)));
    }
    var images, changed := ApplyDesired(after.instanceImages, desired);
    after := after.(instanceImages := images);
    if changed {
      after := after.(lastDeploy := Some(o.now));
    }
    DeployedStatus(o, st, names);
  }

  // The tail of Rolling, once the counts are stored, as a decision and an effect on the counted status.

  ghost function BatchMove(o: Observation, counted: Status): RollingMove
    requires Valid(o) && counted.activeBatch.Some?
  {
    var batch := counted.activeBatch.value;
    var members := Members(o, batch);
    if members == [] then BatchIsGone
    else BatchAwaits(GateOf(o, counted, members, BatchTarget(o, batch), Some(batch.start)))
  }

  ghost function FollowBatch(o: Observation, counted: Status, move: RollingMove): Status {
    if move.BatchAwaits? then AfterGate(o, counted, move.gate, counted.(activeBatch := None))
    else counted.(activeBatch := None)
  }

  ghost function NextMove(o: Observation, counted: Status): RollingMove
    requires Valid(o)
  {
    if Outdated(o) != [] then if o.faults.deploy then NextBatchFails else AssignsNextBatch
    else CompletionAwaits(GateOf(o, counted, o.order, o.spec.image, SettleReference(counted)))
  }

  ghost function FollowNext(o: Observation, counted: Status, move: RollingMove): Status
    requires Valid(o)
  {
    if move.CompletionAwaits? then AfterGate(o, counted, move.gate, counted.(phase := Completed))
    else if move.AssignsNextBatch? then Deploy(o, counted, NextBatch(o))
    else RecordError(o, counted.(activeBatch := None))
  }

  lemma GateIgnoresCounts(o: Observation, st: Status, names: seq<Name>, target: Image, since: Option<Time>)
    requires forall n :: n in names ==> n in o.fleet
    ensures GateOf(o, UpdateCounts(o, st), names, target, since) == GateOf(o, st, names, target, since)
  {}

  lemma StopsBeforeCanaries(o: Observation, st: Status)
    requires Valid(o)
    ensures o.faults.list ==> CanaryMoveOf(o, st) == CanaryListingFails
    ensures !o.faults.list && o.refused ==> CanaryMoveOf(o, st) == CanaryRefuses
    ensures !o.faults.list && !o.refused && BudgetExceeded(o.spec, st, o.now) && !BreakGlassNeeded(o, st) ==>
              CanaryMoveOf(o, st) == CanaryTimesOut
    ensures !o.faults.list && !o.refused && (BudgetExceeded(o.spec, st, o.now) ==> BreakGlassNeeded(o, st))
            && BreakGlassNeeded(o, Track(o, st)) ==>
              CanaryMoveOf(o, st) == if o.faults.deploy then CanaryAssignmentFails else CanaryAssignsAll
  {}

  /** The rest of Canary, once a baseline is tracked. */
  ghost function RestOfCanary(o: Observation, tracked: Status): Status
    requires Valid(o)
  {
    var deployed := Deploy(o, tracked, o.order);
    if Canaries(o) == [] then tracked.(phase := Rolling)
    else if o.faults.deploy then RecordError(o, tracked)
    else AfterCanaryGate(o, deployed, GateOf(o, deployed, Canaries(o), o.spec.image, SettleReference(deployed)))
  }

  lemma CanaryGoesOn(o: Observation, st: Status)
    requires Valid(o) && Proceeds(o, st)
    ensures CanaryStep(o, st) == RestOfCanary(o, Track(o, st))
  {
    CanaryDecides(o, st);
    CanaryEffects(o, st, CanaryMoveOf(o, st));
  }

  lemma CanaryEffects(o: Observation, st: Status, move: CanaryMove)
    requires Valid(o)
    ensures move.NoCanaries? ==> CanaryBy(o, st, move) == Track(o, st).(phase := Rolling)
    ensures move.CanaryAssignmentFails? ==> CanaryBy(o, st, move) == RecordError(o, Track(o, st))
    ensures move.CanaryAwaits? ==> CanaryBy(o, st, move) == AfterCanaryGate(o, Deploy(o, Track(o, st), o.order), move.gate)
  {}

  lemma CanaryDecides(o: Observation, st: Status)
    requires Valid(o) && Proceeds(o, st)
    ensures var deployed := Deploy(o, Track(o, st), o.order);
            CanaryMoveOf(o, st) ==
              if Canaries(o) == [] then NoCanaries
              else if o.faults.deploy then CanaryAssignmentFails
              else CanaryAwaits(GateOf(o, deployed, Canaries(o), o.spec.image, SettleReference(deployed)))
  {}

  /** Nothing ends this Canary or Rolling reconcile before it looks at canaries or batches. */
  ghost predicate Proceeds(o: Observation, st: Status) {
    && !o.faults.list && !o.refused && !BreakGlassNeeded(o, Track(o, st))
    && (BudgetExceeded(o.spec, st, o.now) ==> BreakGlassNeeded(o, st))
  }

  lemma RecoversWhenUnsettled(o: Observation, st: Status)
    requires Valid(o) && Proceeds(o, st) && st.activeBatch.None? && Unsettled(o, st.instanceImages) != []
    ensures RollingStep(o, st) ==
              Track(o, st).(activeBatch := Some(Batch(Unsettled(o, st.instanceImages), o.spec.image, Or(st.startTime, o.now))))
  {
    assert RollingMoveOf(o, st) == Recovers;
  }

  lemma StopsBeforeBatches(o: Observation, st: Status)
    requires Valid(o)
    ensures o.faults.list ==> RollingMoveOf(o, st) == RollingListingFails
    ensures !o.faults.list && o.refused ==> RollingMoveOf(o, st) == RollingRefuses
    ensures !o.faults.list && !o.refused && BudgetExceeded(o.spec, st, o.now) && !BreakGlassNeeded(o, st) ==>
              RollingMoveOf(o, st) == RollingTimesOut
    ensures !o.faults.list && !o.refused && (BudgetExceeded(o.spec, st, o.now) ==> BreakGlassNeeded(o, st))
            && BreakGlassNeeded(o, Track(o, st)) ==>
              RollingMoveOf(o, st) == if o.faults.deploy then RollingAssignmentFails else RollingAssignsAll
  {}

  lemma BatchMoveIsRollingMove(o: Observation, st: Status)
    requires Valid(o) && Proceeds(o, st) && st.activeBatch.Some?
    ensures RollingMoveOf(o, st) == BatchMove(o, UpdateCounts(o, Track(o, st)))
  {
    var batch := st.activeBatch.value;
    GateIgnoresCounts(o, Track(o, st), Members(o, batch), BatchTarget(o, batch), Some(batch.start));
  }

  lemma NextMoveIsRollingMove(o: Observation, st: Status)
    requires Valid(o) && Proceeds(o, st) && st.activeBatch.None?
    requires Unsettled(o, st.instanceImages) == []
    ensures RollingMoveOf(o, st) == NextMove(o, UpdateCounts(o, Track(o, st)))
  {
    GateIgnoresCounts(o, Track(o, st), o.order, o.spec.image, SettleReference(st));
  }

  lemma TailEffects(o: Observation, st: Status, move: RollingMove)
    requires Valid(o)
    ensures var counted := UpdateCounts(o, Track(o, st));
            && (move.BatchAwaits? || move.BatchIsGone? ==> RollingBy(o, st, move) == FollowBatch(o, counted, move))
            && (move.CompletionAwaits? || move.AssignsNextBatch? || move.NextBatchFails? ==>
                  RollingBy(o, st, move) == FollowNext(o, counted, move))
  {}

  // The tail of RollingBack, once everybody is assigned the rollback target.

  ghost function AfterAssigning(o: Observation, st: Status, target: Image): Status
    requires Valid(o)
  {
    if AnyTerminal(o, o.order) then st.(phase := Failed, reason := ErrorReason(o))
    else if !AllReady(o, st, o.order, target, false) then st
    else st.(previousImage := "", phase := Idle, retryCount := 0, lastFailure := None)
  }

  lemma RollbackEffect(o: Observation, st: Status)
    requires Valid(o) && RollbackTarget(o.spec, st) != "" && !o.faults.list
    ensures RollingBackStep(o, st) == AfterAssigning(o, AssignRollback(o, st), RollbackTarget(o.spec, st))
  {
    RollbackDecides(o, st);
    RollbackDoes(o, st, BackMoveOf(o, st));
  }

  lemma RollbackDecides(o: Observation, st: Status)
    requires Valid(o) && RollbackTarget(o.spec, st) != "" && !o.faults.list
    ensures BackMoveOf(o, st) ==
              if AnyTerminal(o, o.order) then BackRejects
              else if !AllReady(o, AssignRollback(o, st), o.order, RollbackTarget(o.spec, st), false) then BackWaits
              else Restored
  {}

  lemma RollbackDoes(o: Observation, st: Status, move: BackMove)
    ensures move.BackRejects? ==> BackBy(o, st, move) == AssignRollback(o, st).(phase := Failed, reason := ErrorReason(o))
    ensures move.BackWaits? ==> BackBy(o, st, move) == AssignRollback(o, st)
    ensures move.Restored? ==>
              BackBy(o, st, move) ==
              AssignRollback(o, st).(previousImage := "", phase := Idle, retryCount := 0, lastFailure := None)
  {}

  // The tail of Idle, once a baseline is tracked.

  ghost function AfterTracking(o: Observation, st: Status, tracked: Status): Status
    requires Valid(o)
  {
    if !NeedsUpdate(o, Track(o, st)) then UpdateCounts(o, Adopt(o, tracked))
    else if o.refused then Refuse(o, tracked)
    else StartRollout(o, tracked)
  }

  lemma IdleEffect(o: Observation, st: Status)
    requires Valid(o) && !o.faults.list && o.order != []
    ensures IdleStep(o, st) ==
              AfterTracking(o, st, if Captures(o, st) then Track(o, st) else st.(activeBatch := None))
  {
    IdleDecides(o, st);
    var move := IdleMoveOf(o, st);
    if move.EverybodyUpToDate? { IdleAdopts(o, st); }
    else if move.RefusesDowngrade? { IdleRefuses(o, st); }
    else { IdleStarts(o, st); }
  }

  lemma IdleDecides(o: Observation, st: Status)
    requires Valid(o) && !o.faults.list && o.order != []
    ensures IdleMoveOf(o, st) ==
              if !NeedsUpdate(o, Track(o, st)) then EverybodyUpToDate else if o.refused then RefusesDowngrade else Starts
  {}

  lemma IdleAdopts(o: Observation, st: Status)
    ensures IdleBy(o, st, EverybodyUpToDate) ==
              UpdateCounts(o, Adopt(o, if Captures(o, st) then Track(o, st) else st.(activeBatch := None)))
  {}

  lemma IdleRefuses(o: Observation, st: Status)
    ensures IdleBy(o, st, RefusesDowngrade) ==
              Refuse(o, if Captures(o, st) then Track(o, st) else st.(activeBatch := None))
  {}

  lemma IdleStarts(o: Observation, st: Status)
    ensures IdleBy(o, st, Starts) ==
              StartRollout(o, if Captures(o, st) then Track(o, st) else st.(activeBatch := None))
  {}

  // The tail of Failed, once the failed image is marked.

  ghost function MarkFailed(o: Observation, st: Status): Status {
    if st.failedImage == "" then st.(failedImage := o.spec.image) else st
  }

  ghost function LateMove(o: Observation, st: Status): FailedMove {
    if st.reason == Transient && st.retryCount < MAX_TRANSIENT_RETRIES then
      if st.lastFailure.None? then MarksFailureTime
      else if o.now - st.lastFailure.value >= TransientBackoff(st.retryCount) then RetriesTransient
      else WaitsBackoff
    else if RollsBack(o.spec) && RollbackTarget(o.spec, st) != "" then RollsBackNow
    else Stays
  }

  class Reconciler {
    /** The object in hand, and the server's copy of its status. */
    var status: Status
    var stored: Status

    constructor (stored: Status)
      ensures this.status == this.stored == stored
    {
      this.status := stored;
      this.stored := stored;
    }

    /** Writes the status in hand to the server. */
    method UpdateStatus()
      modifies this
      ensures stored == status == old(status)
    {
      stored := status;
    }

    method RecordErrorAndStore(o: Observation)
      modifies this
      ensures stored == status == RecordError(o, old(status))
    {
      status := status.(phase := Failed, reason := ErrorReason(o));
      if status.lastFailure.None? {
        status := status.(lastFailure := Some(o.now));
      }
      UpdateStatus();
    }

    method UpdateInstanceCounts(o: Observation)
      requires Valid(o)
      modifies this`status
      ensures status == UpdateCounts(o, old(status))
    {
      var upToDate := CountUpToDate(o);
      var images := DropDeparted(status.instanceImages, set n | n in o.order);
      ListedSize(o.order);
      assert o.fleet.Keys == set n | n in o.order;
      status := status.(instances := |o.order|, upToDate := upToDate, instanceImages := images);
    }

    method AdoptUpToDateInstances(o: Observation)
      requires Valid(o)
      modifies this`status
      ensures status == Adopt(o, old(status))
    {
      var images := AdoptInto(o, status.instanceImages);
      status := status.(instanceImages := images);
    }

    method EnsurePreviousImageTracked(o: Observation)
      modifies this
      ensures Captures(o, old(status)) ==>
                status == stored == old(stored).(previousImage := o.baseline)
      ensures !Captures(o, old(status)) ==> status == old(status) && stored == old(stored)
    {
      if |o.order| == 0 {
        return;
      }
      if o.baseline != "" && o.baseline != o.spec.image && status.previousImage != o.baseline {
        status := stored;
        if status.previousImage == o.baseline {
          return;
        }
        status := status.(previousImage := o.baseline);
        UpdateStatus();
      }
    }

    /** Assigns every named instance the image its phase expects, on a fresh copy, and keeps that copy when it
        was written. */
    method DeployToInstances(o: Observation, names: seq<Name>) returns (failed: bool)
      requires forall n :: n in names ==> n in o.fleet
      modifies this
      ensures failed == o.faults.deploy
      ensures failed ==> status == old(status) && stored == old(stored)
      ensures !failed ==> status == stored == Deploy(o, old(stored), names)
    {
      var current := AssembleStatus(o, stored, names);
      if o.faults.deploy {
        return true;
      }
      status := current;
      UpdateStatus();
      return false;
    }

    /** Ends the rollout in Idle when the target is older than the fleet. */
    method RefuseDowngrade(o: Observation) returns (refused: bool)
      requires Valid(o)
      modifies this
      ensures refused == o.refused
      ensures refused ==> status == stored == Refuse(o, old(status))
      ensures !refused ==> status == old(status) && stored == old(stored)
    {
      if !o.refused {
        return false;
      }
      status := status.(phase := Idle, activeBatch := None);
      UpdateInstanceCounts(o);
      UpdateStatus();
      return true;
    }

    /** Moves to RollingBack or Failed, whichever the spec asks for, and writes it. */
    method FailRollout(o: Observation, reason: Reason)
      modifies this
      ensures status == stored == old(status).(phase := PhaseOnFailure(o.spec, old(status)), reason := reason)
    {
      status := status.(phase := PhaseOnFailure(o.spec, status), reason := reason);
      UpdateStatus();
    }

    // Each executor reports whether it returns an error, which Reconcile then records on the object in hand.

    /** What an executor leaves behind, on the server or in hand. */
    predicate Leaves(o: Observation, failed: bool, after: Status)
      reads this
    {
      if failed then RecordError(o, status) == after else stored == after
    }

    method ExecuteIdlePhase(o: Observation) returns (failed: bool)
      requires Valid(o) && status == stored
      modifies this
      ensures Leaves(o, failed, IdleStep(o, old(stored)))
    {
      ghost var st := stored;
      status := status.(activeBatch := None);
      if o.faults.list {
        return true;
      }
      if |o.order| == 0 {
        status := status.(phase := Idle, instances := 0, upToDate := 0);
        UpdateStatus();
        return false;
      }
      EnsurePreviousImageTracked(o);
      FollowTracking(o, st);
      IdleEffect(o, st);
      return false;
    }

    method FollowTracking(o: Observation, ghost st: Status)
      requires Valid(o) && stored == Track(o, st)
      modifies this
      ensures stored == AfterTracking(o, st, old(status))
    {
      var current := AreUpToDate(o, stored);
      if current {
        AdoptAndCount(o);
        return;
      }
      var refused := RefuseDowngrade(o);
      if refused {
        return;
      }
      BeginRollout(o);
    }

    method AdoptAndCount(o: Observation)
      requires Valid(o)
      modifies this
      ensures status == stored == UpdateCounts(o, Adopt(o, old(status)))
    {
      AdoptUpToDateInstances(o);
      UpdateInstanceCounts(o);
      UpdateStatus();
    }

    method BeginRollout(o: Observation)
      requires Valid(o)
      modifies this
      ensures status == stored == StartRollout(o, old(status))
    {
      if status.previousImage == "" && o.baseline != "" {
        status := status.(previousImage := o.baseline);
      }
      UpdateInstanceCounts(o);
      status := status.(startTime := Some(o.now));
      if o.spec.canaryEnabled {
        status := status.(phase := Canary);
      } else {
        status := status.(phase := Rolling);
      }
      UpdateStatus();
    }

    method ExecuteCompletedPhase()
      requires status == stored
      modifies this
      ensures stored == CompletedStep(old(stored))
    {
      status := status.(phase := Idle, startTime := None, reason := NoReason, retryCount := 0, lastFailure := None);
      status := status.(activeBatch := None, failedImage := "", resumeProgress := 0);
      UpdateStatus();
    }

    method ExecuteValidatingPhase(o: Observation) returns (failed: bool)
      requires Valid(o) && status == stored
      modifies this
      ensures Leaves(o, failed, ValidatingStep(o, old(stored)))
    {
      if o.spec.image == "" {
        status := status.(phase := Failed, reason := Other);
        return false;
      }
      if o.faults.list {
        status := status.(phase := Failed, reason := Other);
        return true;
      }
      if |o.order| == 0 {
        status := status.(phase := Idle);
        return false;
      }
      var refused := RefuseDowngrade(o);
      if refused {
        return false;
      }
      UpdateInstanceCounts(o);
      UpdateStatus();
      // Chosen after the write, so the server never learns of it.
      status := status.(phase := if o.spec.canaryEnabled then Canary else Rolling);
      return false;
    }

    method ExecuteCanaryPhase(o: Observation) returns (failed: bool)
      requires Valid(o) && status == stored && stored.phase == Canary
      modifies this
      ensures Leaves(o, failed, CanaryStep(o, old(stored)))
    {
      ghost var st := stored;
      StopsBeforeCanaries(o, st);
      if o.faults.list {
        status := status.(phase := Failed, reason := Other);
        return true;
      }
      var refused := RefuseDowngrade(o);
      if refused {
        return false;
      }
      var needed := BreakGlassAssignmentsNeeded(o, status);
      if BudgetExceeded(o.spec, status, o.now) && !needed {
        FailRollout(o, UpgradeTimeout);
        return false;
      }
      EnsurePreviousImageTracked(o);
      needed := BreakGlassAssignmentsNeeded(o, status);
      if needed {
        failed := DeployToInstances(o, o.order);
        return failed;
      }
      failed := ContinueCanary(o);
      CanaryGoesOn(o, st);
    }

    /** Canary once nothing stops it: assign everybody an image, then wait for the canaries. */
    method ContinueCanary(o: Observation) returns (failed: bool)
      requires Valid(o) && status == stored && stored.phase == Canary
      modifies this
      ensures Leaves(o, failed, RestOfCanary(o, old(stored)))
    {
      var canaries := GetCanaryInstances(o);
      if |canaries| == 0 {
        status := status.(phase := Rolling);
        UpdateStatus();
        return false;
      }
      failed := DeployToInstances(o, o.order);
      if failed {
        FailRollout(o, ErrorReason(o));
        return true;
      }
      UpdateInstanceCounts(o);
      var gate := CheckGate(o, stored, canaries, o.spec.image, SettleReference(status));
      failed := FollowCanaryGate(o, gate);
    }

    method FollowCanaryGate(o: Observation, gate: Gate) returns (failed: bool)
      requires status == UpdateCounts(o, stored)
      modifies this
      ensures Leaves(o, failed, AfterCanaryGate(o, old(stored), gate))
    {
      match gate
      case Rejects => FailRollout(o, ErrorReason(o)); return false;
      case NotReady => UpdateStatus(); return false;
      case ChecksBroken => FailRollout(o, ErrorReason(o)); return true;
      case ChecksWaiting => return false;
      case Passed => status := status.(phase := Rolling); UpdateStatus(); return false;
    }

    method ExecuteRollingPhase(o: Observation) returns (failed: bool)
      requires Valid(o) && status == stored && stored.phase == Rolling
      modifies this
      ensures Leaves(o, failed, RollingStep(o, old(stored)))
    {
      ghost var st := stored;
      StopsBeforeBatches(o, st);
      if o.faults.list {
        status := status.(phase := Failed, activeBatch := None, reason := ErrorReason(o));
        UpdateStatus();
        return true;
      }
      var refused := RefuseDowngrade(o);
      if refused {
        return false;
      }
      var needed := BreakGlassAssignmentsNeeded(o, status);
      if BudgetExceeded(o.spec, status, o.now) && !needed {
        status := status.(activeBatch := None);
        FailRollout(o, UpgradeTimeout);
        return false;
      }
      EnsurePreviousImageTracked(o);
      needed := BreakGlassAssignmentsNeeded(o, status);
      if needed {
        failed := DeployToInstances(o, o.order);
        return failed;
      }
      failed := ContinueRolling(o, st);
    }

    /** Rolling once nothing stops it: recover a batch, wait for the open one, or go on to the next. */
    method ContinueRolling(o: Observation, ghost st: Status) returns (failed: bool)
      requires Valid(o) && st.phase == Rolling && Proceeds(o, st) && status == stored == Track(o, st)
      modifies this
      ensures Leaves(o, failed, RollingStep(o, st))
    {
      if status.activeBatch.None? {
        var recovered := RecoverActiveBatch(o, status);
        if recovered.Some? {
          status := status.(activeBatch := recovered);
          UpdateStatus();
          RecoversWhenUnsettled(o, st);
          return false;
        }
      }
      UpdateInstanceCounts(o);
      UpdateStatus();
      ghost var move;
      if status.activeBatch.Some? {
        move := AwaitActiveBatch(o);
        BatchMoveIsRollingMove(o, st);
        TailEffects(o, st, move);
        return false;
      }
      failed, move := AssignOrComplete(o);
      NextMoveIsRollingMove(o, st);
      TailEffects(o, st, move);
    }

    /** The part of Rolling that waits for an open batch. */
    method AwaitActiveBatch(o: Observation) returns (ghost move: RollingMove)
      requires Valid(o) && status == stored && stored.activeBatch.Some?
      modifies this
      ensures move == BatchMove(o, old(stored)) && stored == FollowBatch(o, old(stored), move)
    {
      var batch := status.activeBatch.value;
      var members := ActiveBatchInstances(o, batch);
      if |members| == 0 {
        status := status.(activeBatch := None);
        UpdateStatus();
        return BatchIsGone;
      }
      var target := batch.target;
      if target == "" {
        target := o.spec.image;
      }
      var gate := CheckGate(o, stored, members, target, Some(batch.start));
      FollowGate(o, gate, status.(activeBatch := None));
      return BatchAwaits(gate);
    }

    method FollowGate(o: Observation, gate: Gate, passed: Status)
      requires status == stored
      modifies this
      ensures stored == AfterGate(o, old(stored), gate, passed)
    {
      match gate
      case Rejects => status := status.(activeBatch := None); FailRollout(o, ErrorReason(o));
      case NotReady =>
      case ChecksBroken => status := status.(activeBatch := None); FailRollout(o, ErrorReason(o));
      case ChecksWaiting =>
      case Passed => status := passed; UpdateStatus();
    }

    /** The part of Rolling that opens the next batch, or completes when nobody is left. */
    method AssignOrComplete(o: Observation) returns (failed: bool, ghost move: RollingMove)
      requires Valid(o) && status == stored && stored.activeBatch.None?
      modifies this
      ensures move == NextMove(o, old(stored)) && Leaves(o, failed, FollowNext(o, old(stored), move))
    {
      ghost var counted := stored;
      var outdated := GetInstancesToUpdate(o);
      if |outdated| == 0 {
        var gate := CheckGate(o, stored, o.order, o.spec.image, SettleReference(status));
        FollowGate(o, gate, status.(phase := Completed));
        return false, CompletionAwaits(gate);
      }
      var maxParallel := o.spec.maxParallel;
      if maxParallel <= 0 {
        maxParallel := 1;
      }
      var size := if |outdated| < maxParallel then |outdated| else maxParallel;
      var batch := outdated[..size];
      NextBatchIsOutdated(o);
      failed := DeployToInstances(o, batch);
      if failed {
        status := status.(activeBatch := None);
        FailRollout(o, ErrorReason(o));
        return true, NextBatchFails;
      }
      return false, AssignsNextBatch;
    }

    /** Back to Idle for a fresh attempt, everything the failure recorded forgotten. */
    method Restart()
      modifies this
      ensures status == stored == RestartFresh(old(status))
    {
      status := status.(phase := Idle, reason := NoReason, failedImage := "", retryCount := 0);
      status := status.(lastFailure := None, startTime := None);
      UpdateStatus();
    }

    method ExecuteFailedPhase(o: Observation) returns (failed: bool)
      requires status == stored
      modifies this
      ensures Leaves(o, failed, FailedStep(o, old(stored)))
    {
      ghost var st := stored;
      if status.activeBatch.Some? {
        status := status.(activeBatch := None);
        UpdateStatus();
        return false;
      }
      if BreakGlass(o.spec) {
        if o.faults.list {
          return true;
        }
        var needed := BreakGlassAssignmentsNeeded(o, status);
        if needed {
          Restart();
          return false;
        }
      }
      if status.failedImage != "" && o.spec.image != status.failedImage {
        status := status.(phase := Idle, reason := NoReason, failedImage := "", retryCount := 0, lastFailure := None);
        UpdateStatus();
        return false;
      }
      if status.failedImage == "" {
        status := status.(failedImage := o.spec.image);
      }
      if status.reason == UpgradeTimeout {
        if status.startTime.Some? && !BudgetExceeded(o.spec, status, o.now) {
          Restart();
          return false;
        }
        if status.resumeProgress > status.upToDate {
          status := status.(resumeProgress := 0);
          Restart();
          return false;
        }
        if status.upToDate > status.resumeProgress {
          status := status.(resumeProgress := status.upToDate, phase := Idle, reason := NoReason);
          status := status.(failedImage := "", startTime := None);
          UpdateStatus();
          return false;
        }
      }
      RetryOrRollBack(o);
      return false;
    }

    method RetryOrRollBack(o: Observation)
      requires status == MarkFailed(o, stored)
      modifies this
      ensures stored == FailedBy(o, old(stored), LateMove(o, old(stored)))
    {
      if status.reason == Transient && status.retryCount < MAX_TRANSIENT_RETRIES {
        if status.lastFailure.None? {
          status := status.(lastFailure := Some(o.now));
          UpdateStatus();
          return;
        }
        var backoff := CalculateTransientBackoff(status.retryCount);
        if o.now - status.lastFailure.value >= backoff {
          status := status.(retryCount := status.retryCount + 1);
          status := status.(phase := Idle, reason := NoReason, lastFailure := None);
          UpdateStatus();
        }
        return;
      }
      if o.spec.rollbackEnabled && o.spec.rollbackOnFailure && RollbackTarget(o.spec, status) != "" {
        status := status.(phase := RollingBack);
      }
      UpdateStatus();
    }

    method ExecuteRollingBackPhase(o: Observation) returns (failed: bool)
      requires Valid(o) && status == stored && stored.phase == RollingBack
      modifies this
      ensures Leaves(o, failed, RollingBackStep(o, old(stored)))
    {
      ghost var st := stored;
      status := status.(activeBatch := None);
      var target := o.spec.rollbackImage;
      if target == "" {
        target := status.previousImage;
      }
      if target == "" {
        status := status.(phase := Failed, reason := Other);
        UpdateStatus();
        return false;
      }
      if o.faults.list {
        status := status.(phase := Failed, reason := ErrorReason(o));
        UpdateStatus();
        return true;
      }
      AssignRollbackTarget(o, target);
      FollowRollback(o, target);
      RollbackEffect(o, st);
      return false;
    }

    method AssignRollbackTarget(o: Observation, target: Image)
      requires Valid(o) && target == RollbackTarget(o.spec, status) && target != "" && status == stored.(activeBatch := None)
      modifies this
      ensures status == stored == AssignRollback(o, old(stored))
    {
      UpdateInstanceCounts(o);
      var images := AssignEverybody(o, status.instanceImages, target);
      status := status.(instanceImages := images);
      UpdateStatus();
    }

    method FollowRollback(o: Observation, target: Image)
      requires Valid(o) && status == stored
      modifies this
      ensures stored == AfterAssigning(o, old(stored), target)
    {
      var terminal := TerminalInstanceFailure(o, o.order);
      if terminal {
        status := status.(phase := Failed, reason := ErrorReason(o));
        UpdateStatus();
        return;
      }
      var complete := AreInstancesReady(o, stored, o.order, target, false);
      if !complete {
        return;
      }
      status := status.(previousImage := "", phase := Idle);
      status := status.(retryCount := 0, lastFailure := None);
      UpdateStatus();
    }

    method ExecutePhase(o: Observation) returns (failed: bool)
      requires Valid(o) && status == stored
      modifies this
      ensures Leaves(o, failed, ChannelStep(o, old(stored)))
    {
      match status.phase
      case Idle => failed := ExecuteIdlePhase(o);
      case Validating => failed := ExecuteValidatingPhase(o);
      case Canary => failed := ExecuteCanaryPhase(o);
      case Rolling => failed := ExecuteRollingPhase(o);
      case Completed => ExecuteCompletedPhase(); failed := false;
      case Failed => failed := ExecuteFailedPhase(o);
      case RollingBack => failed := ExecuteRollingBackPhase(o);
    }

    /** One reconcile: what was read, what the phase did, and the error recorded if it returned one. */
    method Reconcile(spec: Spec, fleet: Fleet, order: seq<Name>, now: Time, faults: Faults)
      requires Lists(fleet, order)
      modifies this
      ensures stored == ChannelStep(Observe(spec, fleet, order, now, faults), old(stored))
    {
      var images := ListResolvedImages(fleet, order);
      var baseline := RollbackBaselineOf(images);
      var _, _, refused := DowngradeFrom(spec, images);
      var o := Observation(spec, fleet, order, refused, baseline, now, faults);
      assert o == Observe(spec, fleet, order, now, faults);
      status := stored;
      var failed := ExecutePhase(o);
      if failed {
        RecordErrorAndStore(o);
      }
    }
  }
}
