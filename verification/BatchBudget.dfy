/** How many batches a rollout takes and how long it may take: every assignment serves a full batch, so the number of
    batches is the ceiling the time budget is derived from, and a rollout that keeps its batch times keeps the budget. */
module BatchBudget {
  import opened Wrappers
  import opened ImageVersions
  import opened ChannelModel
  import opened ChannelSteps
  import opened Rollout
  import opened PhaseSafety
  import opened Parallelism
  import opened Progress
  import opened RetryTermination

  /** The instances that neither run the target nor have been assigned it. */
  function Unassigned(w: World, target: Image): set<Name> {
    set n | n in w.fleet && ImageOf(w.status, n) != target && w.fleet[n].resolved != target
  }

  /** A step assigns nobody, or one batch that is as full as the limit and the fleet allow. */
  predicate TakesOneBatch(w: World, after: World, target: Image, limit: int) {
    && Unassigned(after, target) == Unassigned(w, target) - Moved(w, after, target)
    && Moved(w, after, target) <= Unassigned(w, target)
    && (Moved(w, after, target) == {}
        || |Moved(w, after, target)| == Smaller(limit, |Unassigned(w, target)|))
  }

  // --------------------------------------------------------------- one step

  lemma AssignedBatchIsFull(o: Observation, w: World, target: Image, limit: int)
    requires Valid(o) && o.fleet == w.fleet && o.spec == w.spec && Plain(w.spec, target, limit)
    requires forall n :: n in o.fleet && ImageOf(w.status, n) == target ==> Settled(o.fleet[n], target)
    ensures |NextBatch(o)| == Smaller(limit, |Unassigned(w, target)|)
  {
    ListedSize(Outdated(o));
    assert forall n :: n in Outdated(o) <==> n in o.fleet && o.fleet[n].resolved != target;
    assert Unassigned(w, target) == set n | n in Outdated(o);
  }

  lemma AssignedBatchIsMoved(o: Observation, w: World, after: World, target: Image)
    requires Valid(o) && o.fleet == w.fleet && o.spec == w.spec && o.spec.image == target
    requires OneBatchAssigned(o, w.status, after.status)
    ensures Moved(w, after, target) == NewlyAssigned(o, w.status, after.status)
  {
    NextBatchIsOutdated(o);
    forall n | n in NewlyAssigned(o, w.status, after.status) ensures n in Moved(w, after, target) {
      assert n in NextBatch(o);
    }
  }

  lemma RollingTakesOneBatch(o: Observation, w: World, after: World, target: Image, limit: int)
    requires Valid(o) && o.fleet == w.fleet && o.spec == w.spec && Plain(w.spec, target, limit)
    requires w.status.phase == Rolling && after.status == RollingStep(o, w.status)
    ensures Moved(w, after, target) == {} || |Moved(w, after, target)| == Smaller(limit, |Unassigned(w, target)|)
  {
    RollingAssignsOneBatch(o, w.status);
    if NewlyAssigned(o, w.status, after.status) != {} {
      AssignedBatchIsFull(o, w, target, limit);
      AssignedBatchIsMoved(o, w, after, target);
    } else {
      assert Moved(w, after, target) <= NewlyAssigned(o, w.status, after.status);
    }
  }

  lemma ReconcileTakesOneBatch(o: Observation, w: World, after: World, target: Image, limit: int)
    requires Valid(o) && o.fleet == w.fleet && o.spec == w.spec && Plain(w.spec, target, limit)
    requires w.status.phase != RollingBack && after.status == ChannelStep(o, w.status)
    ensures Moved(w, after, target) == {} || |Moved(w, after, target)| == Smaller(limit, |Unassigned(w, target)|)
  {
    match w.status.phase
    case Rolling => RollingTakesOneBatch(o, w, after, target, limit);
    case Idle => IdleStepMovesNobody(o, w, after, target);
    case Canary => CanaryStepMovesNobody(o, w, after, target);
    case _ => RestMovesNobody(o, w, after, target);
  }

  /** What moves is what leaves the unassigned, as long as no assignment is withdrawn and nobody without one comes to the
      target or leaves it. */
  lemma MovedLeaveUnassigned(w: World, after: World, target: Image)
    requires after.fleet.Keys == w.fleet.Keys && target != ""
    requires forall n :: n in w.fleet && ImageOf(w.status, n) != target ==>
               (after.fleet[n].resolved == target <==> w.fleet[n].resolved == target)
    requires after.status.instanceImages.Keys <= w.status.instanceImages.Keys + w.fleet.Keys
    requires forall n :: n in after.status.instanceImages && n !in w.fleet ==> ImageOf(after.status, n) == ImageOf(w.status, n)
    requires forall n :: n in w.fleet && ImageOf(w.status, n) == target ==> ImageOf(after.status, n) == target
    ensures Unassigned(after, target) == Unassigned(w, target) - Moved(w, after, target)
    ensures Moved(w, after, target) <= Unassigned(w, target)
  {}

  /** No entry is made or changed for a name outside the fleet. */
  predicate OnlyFleetEntries(o: Observation, st: Status, after: Status) {
    forall n :: n in after.instanceImages && n !in o.fleet ==> n in st.instanceImages && after.instanceImages[n] == st.instanceImages[n]
  }

  lemma DeployEntries(o: Observation, st: Status, names: seq<Name>)
    requires forall n :: n in names ==> n in o.fleet
    ensures OnlyFleetEntries(o, st, Deploy(o, st, names))
  {}

  lemma WaitingEntries(o: Observation, st: Status, move: RollingMove)
    requires Valid(o) && !move.RollingAssignsAll? && !move.AssignsNextBatch?
    ensures OnlyFleetEntries(o, st, RollingBy(o, st, move))
  {
    CountingAssignsNothing(o, Track(o, st));
  }

  lemma RollingEntries(o: Observation, st: Status, move: RollingMove)
    requires Valid(o) && st.phase == Rolling
    ensures OnlyFleetEntries(o, st, RollingBy(o, st, move))
  {
    match move
    case RollingAssignsAll => DeployEntries(o, Track(o, st), o.order);
    case AssignsNextBatch =>
      NextBatchIsOutdated(o);
      CountingAssignsNothing(o, Track(o, st));
      DeployEntries(o, UpdateCounts(o, Track(o, st)), NextBatch(o));
    case _ => WaitingEntries(o, st, move);
  }

  lemma CanaryEntries(o: Observation, st: Status, move: CanaryMove)
    requires Valid(o) && !move.CanaryAwaits?
    ensures OnlyFleetEntries(o, st, CanaryBy(o, st, move))
  {}

  lemma IdleEntries(o: Observation, st: Status, move: IdleMove)
    ensures OnlyFleetEntries(o, st, IdleBy(o, st, move))
  {}

  lemma ReconcileEntries(o: Observation, st: Status)
    requires Valid(o) && !o.spec.canaryEnabled && st.phase != RollingBack
    ensures OnlyFleetEntries(o, st, ChannelStep(o, st))
  {
    match st.phase
    case Idle => IdleEntries(o, st, IdleMoveOf(o, st));
    case Canary =>
      CanaryMovePremises(o, st);
      CanaryEntries(o, st, CanaryMoveOf(o, st));
    case Rolling => RollingEntries(o, st, RollingMoveOf(o, st));
    case Failed => FailedKeepsAssignments(o, st, FailedMoveOf(o, st));
    case _ =>
  }

  lemma StepTakesOneBatch(w: World, a: Action, target: Image, limit: int)
    requires Enabled(w, a) && Plain(w.spec, target, limit) && Forward(w, target) && Tied(w, target)
    requires Step(w, a).fleet.Keys == w.fleet.Keys
    ensures TakesOneBatch(w, Step(w, a), target, limit)
  {
    if a.Reconcile? {
      var o := Observed(w, a);
      ReconcileTakesOneBatch(o, w, Step(w, a), target, limit);
      ReconcileHolds(o, w.status);
      ReconcileEntries(o, w.status);
    } else if AboutOne(a) {
      InstanceMovesAsAssigned(w, a, target);
      HeldInstanceStays(w, a, target);
    }
    MovedLeaveUnassigned(w, Step(w, a), target);
  }

  // ------------------------------------------------------------ batch count

  /** How many of the first k steps assigned the target to somebody. */
  function Assignments(worlds: seq<World>, target: Image, k: nat): nat
    requires k < |worlds|
  {
    if k == 0 then 0
    else Assignments(worlds, target, k - 1) + if Moved(worlds[k - 1], worlds[k], target) != {} then 1 else 0
  }

  lemma NonemptyHasSize<T>(whole: set<T>, part: set<T>)
    requires {} != part <= whole
    ensures |whole - part| == |whole| - |part| && |whole| > 0
  {
    assert whole == part + (whole - part);
  }

  lemma BatchSize(w: World, after: World, target: Image, limit: int)
    requires TakesOneBatch(w, after, target, limit)
    ensures Moved(w, after, target) == {} ==> |Unassigned(after, target)| == |Unassigned(w, target)|
    ensures Moved(w, after, target) != {} ==>
              && |Unassigned(after, target)| == AtLeastZero(|Unassigned(w, target)| - limit)
              && |Unassigned(w, target)| > 0
  {
    if Moved(w, after, target) != {} {
      NonemptyHasSize(Unassigned(w, target), Moved(w, after, target));
    } else {
      assert Unassigned(after, target) == Unassigned(w, target);
    }
  }

  predicate Taken(start: nat, left: nat, taken: nat, limit: int) {
    left == AtLeastZero(start - taken * limit) && (taken > 0 ==> (taken - 1) * limit < start)
  }

  lemma TakenNext(start: nat, left: nat, rest: nat, taken: nat, limit: int, moved: bool)
    requires Taken(start, left, taken, limit) && limit >= 1
    requires if moved then left > 0 && rest == AtLeastZero(left - limit) else rest == left
    ensures Taken(start, rest, taken + if moved then 1 else 0, limit)
  {
    if moved { assert (taken + 1) * limit == taken * limit + limit; }
  }

  lemma {:induction false} EveryAssignmentTakesALimit(worlds: seq<World>, target: Image, limit: int, k: nat)
    requires k < |worlds| && limit >= 1
    requires forall i :: 0 <= i < k ==> TakesOneBatch(worlds[i], worlds[i + 1], target, limit)
    ensures Taken(|Unassigned(worlds[0], target)|, |Unassigned(worlds[k], target)|, Assignments(worlds, target, k), limit)
  {
    if k > 0 {
      var w, after := worlds[k - 1], worlds[k];
      EveryAssignmentTakesALimit(worlds, target, limit, k - 1);
      BatchSize(w, after, target, limit);
      TakenNext(|Unassigned(worlds[0], target)|, |Unassigned(w, target)|, |Unassigned(after, target)|,
                Assignments(worlds, target, k - 1), limit, Moved(w, after, target) != {});
    }
  }

  lemma {:induction false} ProductsFollow(a: int, b: int, m: nat)
    ensures a < b ==> a * m <= (b - 1) * m
    decreases b - a
  {
    if a < b - 1 {
      ProductsFollow(a, b - 1, m);
      assert (b - 1) * m == (b - 2) * m + m;
    }
  }

  lemma CeilingIsUnique(k: nat, m: int, c: nat)
    requires m >= 1 && c * m >= k && (c > 0 ==> (c - 1) * m < k)
    ensures c == CeilDiv(k, m)
  {
    ProductsFollow(c, CeilDiv(k, m), m);
    ProductsFollow(CeilDiv(k, m), c, m);
  }

  /** The premises under which batches are counted: one image, one limit, nobody joins or leaves, no rollback, the target
      is not its own baseline, and everybody on the target at the start is held there. */
  predicate SteadyRollout(worlds: seq<World>, actions: seq<Action>, target: Image, limit: int) {
    && Run(worlds, actions) && Tied(worlds[0], target) && SameMembers(worlds)
    && forall i :: 0 <= i < |worlds| ==> Plain(worlds[i].spec, target, limit) && Forward(worlds[i], target)
  }

  lemma SteadyRolloutStaysTied(worlds: seq<World>, actions: seq<Action>, target: Image, limit: int, i: nat)
    requires SteadyRollout(worlds, actions, target, limit) && i < |worlds|
    ensures Tied(worlds[i], target)
  {
    forall m | 0 <= m < i ensures JoinsHeld(worlds[m], actions[m], target) { NobodyJoins(worlds, actions, m); }
    RunStaysTied(worlds, actions, target, i);
  }

  lemma SteadyRolloutTakesBatches(worlds: seq<World>, actions: seq<Action>, target: Image, limit: int, i: nat)
    requires SteadyRollout(worlds, actions, target, limit) && i < |actions|
    ensures TakesOneBatch(worlds[i], worlds[i + 1], target, limit)
  {
    SteadyRolloutStaysTied(worlds, actions, target, limit, i);
    NobodyJoins(worlds, actions, i);
    StepTakesOneBatch(worlds[i], actions[i], target, limit);
  }

  /** At every moment, failures and retries included, the batches assigned so far account exactly for the instances
      assigned so far. */
  lemma BatchesAccountForAssignments(worlds: seq<World>, actions: seq<Action>, target: Image, limit: int, k: nat)
    requires SteadyRollout(worlds, actions, target, limit) && k < |worlds|
    ensures Taken(|Unassigned(worlds[0], target)|, |Unassigned(worlds[k], target)|, Assignments(worlds, target, k), limit)
  {
    forall i | 0 <= i < k ensures TakesOneBatch(worlds[i], worlds[i + 1], target, limit) {
      SteadyRolloutTakesBatches(worlds, actions, target, limit, i);
    }
    EveryAssignmentTakesALimit(worlds, target, limit, k);
  }

  /** A rollout that has reached everybody took exactly as many batches as the budget counts. */
  lemma RolloutTakesCeilingOfBatches(worlds: seq<World>, actions: seq<Action>, target: Image, limit: int, k: nat)
    requires SteadyRollout(worlds, actions, target, limit) && k < |worlds|
    requires Unassigned(worlds[k], target) == {}
    ensures Assignments(worlds, target, k) == CeilDiv(|Unassigned(worlds[0], target)|, limit)
  {
    BatchesAccountForAssignments(worlds, actions, target, limit, k);
    CeilingIsUnique(|Unassigned(worlds[0], target)|, limit, Assignments(worlds, target, k));
  }

  /** In particular when it completes. */
  lemma CompletedRolloutTookCeilingOfBatches(worlds: seq<World>, actions: seq<Action>, target: Image, limit: int, k: nat)
    requires SteadyRollout(worlds, actions, target, limit) && k < |actions|
    requires worlds[k].status.phase == Rolling && worlds[k + 1].status.phase == Completed
    ensures Assignments(worlds, target, k) == CeilDiv(|Unassigned(worlds[0], target)|, limit)
  {
    assert actions[k].Reconcile?;
    CompletesOnlyWhenAllSettled(Observed(worlds[k], actions[k]), worlds[k].status);
    assert Unassigned(worlds[k], target) == {};
    RolloutTakesCeilingOfBatches(worlds, actions, target, limit, k);
  }
}
