/** The derived time budget suffices: a rollout whose batches each keep their allowance, and whose controller comes
    round in time in between, is never timed out. */
module TimeBudget {
  import opened Wrappers
  import opened ImageVersions
  import opened ChannelModel
  import opened ChannelSteps
  import opened Rollout
  import opened PhaseSafety
  import opened RolloutGuards
  import opened Parallelism
  import opened Progress
  import opened BatchBudget

  /** Between batches, everybody who was assigned the target has settled on it. */
  predicate NobodyFallsBack(w: World, target: Image) {
    w.status.activeBatch.None? ==>
      forall n :: n in w.fleet && ImageOf(w.status, n) == target ==> Settled(w.fleet[n], target)
  }

  predicate Opens(w: World, after: World) { w.status.activeBatch.None? && after.status.activeBatch.Some? }

  predicate Clears(w: World, after: World) { w.status.activeBatch.Some? && after.status.activeBatch.None? }

  /** The rollout's own clock and count of instances, which the budget reads. */
  predicate SameClock(w: World, after: World) {
    && after.status.startTime == w.status.startTime
    && (w.status.instances == |w.fleet| ==> after.status.instances == |after.fleet|)
    && (after.status.activeBatch != w.status.activeBatch ==> after.now == w.now)
  }

  // --------------------------------------------------------------- one step

  lemma RollingClock(o: Observation, st: Status, move: RollingMove)
    requires Valid(o)
    ensures RollingBy(o, st, move).startTime == st.startTime
    ensures RollingBy(o, st, move).instances in {st.instances, |o.fleet|}
  {}

  lemma StepKeepsClock(w: World, a: Action)
    requires Enabled(w, a) && w.status.phase == Rolling && Step(w, a).fleet.Keys == w.fleet.Keys
    ensures SameClock(w, Step(w, a))
  {
    assert |Step(w, a).fleet| == |w.fleet| by { assert |Step(w, a).fleet.Keys| == |w.fleet.Keys|; }
    if a.Reconcile? {
      var o := Observed(w, a);
      RollingClock(o, w.status, RollingMoveOf(o, w.status));
    }
  }

  lemma OpeningMoves(o: Observation, st: Status, move: RollingMove)
    requires Valid(o) && st.phase == Rolling && st.activeBatch.None? && RollingBy(o, st, move).activeBatch.Some?
    ensures move.Recovers? || move.AssignsNextBatch? || move.RollingAssignsAll?
  {}

  lemma OpeningPremises(o: Observation, st: Status)
    requires Valid(o) && !BreakGlass(o.spec)
    ensures RollingMoveOf(o, st).Recovers? ==> Unsettled(o, st.instanceImages) != []
    ensures RollingMoveOf(o, st).AssignsNextBatch? ==> NextBatch(o) != []
    ensures !RollingMoveOf(o, st).RollingAssignsAll?
  {
    BreakGlassIsNeededToAssignAll(o, st);
  }

  lemma SettledLeavesNoneUnsettled(o: Observation, st: Status)
    requires Valid(o)
    requires forall n :: n in o.fleet && ImageOf(st, n) == o.spec.image ==> Settled(o.fleet[n], o.spec.image)
    ensures Unsettled(o, st.instanceImages) == []
  {}

  lemma OpeningAssigns(o: Observation, w: World, after: World, target: Image, limit: int)
    requires Valid(o) && o.fleet == w.fleet && o.spec == w.spec && Plain(w.spec, target, limit)
    requires NobodyFallsBack(w, target)
    requires w.status.phase == Rolling && after.status == RollingStep(o, w.status) && Opens(w, after)
    ensures Moved(w, after, target) != {}
  {
    var move := RollingMoveOf(o, w.status);
    OpeningMoves(o, w.status, move);
    OpeningPremises(o, w.status);
    SettledLeavesNoneUnsettled(o, w.status);
    AssigningIsBounded(o, w.status);
    AssignedBatchIsMoved(o, w, after, target);
    assert NextBatch(o)[0] in NewlyAssigned(o, w.status, after.status);
  }

  lemma AssigningOpens(o: Observation, w: World, after: World, target: Image, limit: int)
    requires Valid(o) && o.fleet == w.fleet && o.spec == w.spec && Plain(w.spec, target, limit)
    requires w.status.phase == Rolling && after.status == RollingStep(o, w.status) && Moved(w, after, target) != {}
    ensures Opens(w, after)
  {
    RollingAssignsOneBatch(o, w.status);
    assert Moved(w, after, target) <= NewlyAssigned(o, w.status, after.status);
  }

  lemma OpeningIsAssigning(w: World, a: Action, target: Image, limit: int)
    requires Enabled(w, a) && Plain(w.spec, target, limit) && NobodyFallsBack(w, target) && w.status.phase == Rolling
    ensures Opens(w, Step(w, a)) <==> Moved(w, Step(w, a), target) != {}
  {
    if a.Reconcile? {
      var o := Observed(w, a);
      if Opens(w, Step(w, a)) { OpeningAssigns(o, w, Step(w, a), target, limit); }
      if Moved(w, Step(w, a), target) != {} { AssigningOpens(o, w, Step(w, a), target, limit); }
    }
  }

  // ------------------------------------------------------------ slots

  function Cleared(worlds: seq<World>, k: nat): nat
    requires k < |worlds|
  {
    if k == 0 then 0 else Cleared(worlds, k - 1) + if Clears(worlds[k - 1], worlds[k]) then 1 else 0
  }

  /** When the slot of the current batch began: at the start of the rollout, or when the batch before was cleared. */
  function SlotStart(worlds: seq<World>, k: nat): Time
    requires k < |worlds|
  {
    if k == 0 then worlds[0].now
    else if Clears(worlds[k - 1], worlds[k]) then worlds[k].now
    else SlotStart(worlds, k - 1)
  }

  predicate BatchWork(w: World, target: Image) { w.status.activeBatch.Some? || Unassigned(w, target) != {} }

  function SlotLength(spec: Spec): int { BatchAllowance(spec) + RECONCILE_ALLOWANCE }

  /** A slot lasts at most the batch allowance and one reconcile; the final look at most one reconcile. */
  predicate KeepsTime(worlds: seq<World>, target: Image, k: nat)
    requires k < |worlds|
  {
    worlds[k].now - SlotStart(worlds, k) <=
      if BatchWork(worlds[k], target) then SlotLength(worlds[0].spec) else RECONCILE_ALLOWANCE
  }

  predicate AllKeepTime(worlds: seq<World>, target: Image, k: nat)
    requires k < |worlds|
  {
    forall i :: 0 <= i <= k ==> KeepsTime(worlds, target, i)
  }

  lemma {:induction false} SlotsAddUp(worlds: seq<World>, target: Image, k: nat)
    requires k < |worlds|
    requires forall i :: 0 <= i < k ==> SameClock(worlds[i], worlds[i + 1]) && KeepsTime(worlds, target, i)
    ensures SlotStart(worlds, k) - worlds[0].now <= Cleared(worlds, k) * SlotLength(worlds[0].spec)
  {
    if k > 0 {
      SlotsAddUp(worlds, target, k - 1);
      assert SameClock(worlds[k - 1], worlds[k]) && KeepsTime(worlds, target, k - 1);
      var c, s := Cleared(worlds, k - 1), SlotLength(worlds[0].spec);
      assert (c + 1) * s == c * s + s;
    }
  }

  lemma {:induction false} ClearedFollowsAssigned(worlds: seq<World>, target: Image, k: nat)
    requires k < |worlds| && worlds[0].status.activeBatch.None?
    requires forall i :: 0 <= i < k ==> (Opens(worlds[i], worlds[i + 1]) <==> Moved(worlds[i], worlds[i + 1], target) != {})
    ensures Assignments(worlds, target, k) ==
              Cleared(worlds, k) + if worlds[k].status.activeBatch.Some? then 1 else 0
  {
    if k > 0 {
      ClearedFollowsAssigned(worlds, target, k - 1);
      assert Opens(worlds[k - 1], worlds[k]) <==> Moved(worlds[k - 1], worlds[k], target) != {};
    }
  }

  lemma {:induction false} ClockIsKept(worlds: seq<World>, k: nat)
    requires k < |worlds| && worlds[0].status.instances == |worlds[0].fleet|
    requires forall i :: 0 <= i < k ==> SameClock(worlds[i], worlds[i + 1])
    ensures worlds[k].status.startTime == worlds[0].status.startTime
    ensures worlds[k].status.instances == |worlds[k].fleet|
  {
    if k > 0 {
      ClockIsKept(worlds, k - 1);
      assert SameClock(worlds[k - 1], worlds[k]);
    }
  }

  // ------------------------------------------------------------ the budget

  lemma CeilingGrows(k: nat, n: nat, m: int)
    requires k <= n && m >= 1
    ensures CeilDiv(k, m) <= CeilDiv(n, m)
  {
    ProductsFollow(CeilDiv(n, m), CeilDiv(k, m), m);
  }

  /** The number of slots begun never exceeds the number of batches the budget counts. */
  lemma SlotsAreBatches(start: nat, left: nat, taken: nat, limit: int, members: nat)
    requires limit >= 1 && Taken(start, left, taken, limit) && start <= members
    ensures taken <= CeilDiv(members, limit)
    ensures left > 0 ==> taken < CeilDiv(members, limit)
  {
    CeilingGrows(start, members, limit);
    ProductsFollow(CeilDiv(start, limit), taken, limit);
    ProductsFollow(CeilDiv(start, limit), taken + 1, limit);
  }

  lemma DerivedBudgetBySlots(spec: Spec, members: nat)
    ensures DerivedBudget(spec, members) == CeilDiv(members, BatchLimit(spec)) * SlotLength(spec) + RECONCILE_ALLOWANCE
  {
    var b := CeilDiv(members, BatchLimit(spec));
    assert b * (BatchAllowance(spec) + RECONCILE_ALLOWANCE) == b * BatchAllowance(spec) + b * RECONCILE_ALLOWANCE;
  }

  /** A rollout on its way: started now, one unchanging spec, nobody joins, leaves or falls back, and no failure so far. */
  predicate OnItsWay(worlds: seq<World>, actions: seq<Action>, target: Image, limit: int) {
    && SteadyRollout(worlds, actions, target, limit)
    && worlds[0].status.startTime == Some(worlds[0].now)
    && worlds[0].status.activeBatch.None? && worlds[0].status.instances == |worlds[0].fleet|
    && forall i :: 0 <= i < |worlds| ==>
         worlds[i].spec == worlds[0].spec && worlds[i].status.phase == Rolling && NobodyFallsBack(worlds[i], target)
  }

  lemma EachStepOnItsWay(worlds: seq<World>, actions: seq<Action>, target: Image, limit: int, i: nat)
    requires OnItsWay(worlds, actions, target, limit) && i < |actions|
    ensures SameClock(worlds[i], worlds[i + 1])
    ensures Opens(worlds[i], worlds[i + 1]) <==> Moved(worlds[i], worlds[i + 1], target) != {}
  {
    NobodyJoins(worlds, actions, i);
    StepKeepsClock(worlds[i], actions[i]);
    OpeningIsAssigning(worlds[i], actions[i], target, limit);
  }

  lemma SlotsFitBudget(spec: Spec, members: nat, cleared: nat, batchWork: bool, elapsed: int, slot: int)
    requires slot == SlotLength(spec) && !LimitIsPinned(spec) && DerivedBudget(spec, members) <= MAX_DERIVED_BUDGET
    requires cleared + (if batchWork then 1 else 0) <= CeilDiv(members, BatchLimit(spec))
    requires elapsed <= cleared * slot + (if batchWork then slot else RECONCILE_ALLOWANCE)
    requires slot >= 0 || (cleared == 0 && !batchWork)
    ensures elapsed <= UpgradeBudget(spec, members)
  {
    if slot >= 0 {
      var b, c := CeilDiv(members, BatchLimit(spec)), cleared + if batchWork then 1 else 0;
      DerivedBudgetBySlots(spec, members);
      ProductsFollow(c, b + 1, slot);
      assert (cleared + 1) * slot == cleared * slot + slot;
    }
  }

  /** A negative slot is kept only where there is nothing to assign. */
  lemma NegativeSlotsLeaveNoWork(worlds: seq<World>, target: Image)
    requires worlds != [] && AllKeepTime(worlds, target, 0) && SlotLength(worlds[0].spec) < 0
    ensures Unassigned(worlds[0], target) == {}
  {
    assert KeepsTime(worlds, target, 0);
  }

  /** Every assignment so far has had its slot cleared, except the one of an open batch. */
  lemma AssignmentsAreSlots(worlds: seq<World>, actions: seq<Action>, target: Image, limit: int, k: nat)
    requires OnItsWay(worlds, actions, target, limit) && k < |worlds|
    ensures Assignments(worlds, target, k) ==
              Cleared(worlds, k) + if worlds[k].status.activeBatch.Some? then 1 else 0
  {
    forall i | 0 <= i < k ensures Opens(worlds[i], worlds[i + 1]) <==> Moved(worlds[i], worlds[i + 1], target) != {} {
      EachStepOnItsWay(worlds, actions, target, limit, i);
    }
    ClearedFollowsAssigned(worlds, target, k);
  }

  lemma SlotsCounted(start: nat, left: nat, taken: nat, cleared: nat, open: bool, limit: int, members: nat)
    requires limit >= 1 && Taken(start, left, taken, limit) && start <= members
    requires taken == cleared + if open then 1 else 0
    ensures cleared + (if open || left > 0 then 1 else 0) <= CeilDiv(members, limit)
    ensures start == 0 ==> cleared == 0 && !open && left == 0
  {
    SlotsAreBatches(start, left, taken, limit, members);
    if start == 0 { ProductsFollow(0, taken, limit); }
  }

  lemma TimeSoFar(worlds: seq<World>, actions: seq<Action>, target: Image, limit: int, k: nat)
    requires OnItsWay(worlds, actions, target, limit) && k < |worlds| && AllKeepTime(worlds, target, k)
    ensures var slot := SlotLength(worlds[0].spec);
            worlds[k].now - worlds[0].now <=
              Cleared(worlds, k) * slot + if BatchWork(worlds[k], target) then slot else RECONCILE_ALLOWANCE
    ensures worlds[k].status.startTime == Some(worlds[0].now) && worlds[k].status.instances == |worlds[0].fleet|
  {
    forall i | 0 <= i < k ensures SameClock(worlds[i], worlds[i + 1]) {
      EachStepOnItsWay(worlds, actions, target, limit, i);
    }
    SlotsAddUp(worlds, target, k);
    ClockIsKept(worlds, k);
    assert KeepsTime(worlds, target, k);
    assert |worlds[k].fleet.Keys| == |worlds[0].fleet.Keys|;
  }

  lemma BudgetLasts(worlds: seq<World>, actions: seq<Action>, target: Image, limit: int, k: nat)
    requires OnItsWay(worlds, actions, target, limit) && k < |worlds| && AllKeepTime(worlds, target, k)
    requires !LimitIsPinned(worlds[0].spec) && DerivedBudget(worlds[0].spec, |worlds[0].fleet|) <= MAX_DERIVED_BUDGET
    ensures !BudgetExceeded(worlds[k].spec, worlds[k].status, worlds[k].now)
  {
    var spec := worlds[0].spec;
    var start, left := Unassigned(worlds[0], target), Unassigned(worlds[k], target);
    AssignmentsAreSlots(worlds, actions, target, limit, k);
    BatchesAccountForAssignments(worlds, actions, target, limit, k);
    SubsetIsNoLarger(start, worlds[0].fleet.Keys);
    SlotsCounted(|start|, |left|, Assignments(worlds, target, k), Cleared(worlds, k),
                 worlds[k].status.activeBatch.Some?, limit, |worlds[0].fleet|);
    TimeSoFar(worlds, actions, target, limit, k);
    if SlotLength(spec) < 0 { NegativeSlotsLeaveNoWork(worlds, target); }
    SlotsFitBudget(spec, |worlds[0].fleet|, Cleared(worlds, k), BatchWork(worlds[k], target),
                   worlds[k].now - worlds[0].now, SlotLength(spec));
  }

  // ------------------------------------------------- from the Idle reconcile on

  /** Leaving Idle without canaries starts the clock the budget is measured by. */
  lemma StartingARolloutStartsItsClock(o: Observation, st: Status)
    requires Valid(o) && st.phase == Idle && !o.spec.canaryEnabled && IdleStep(o, st).phase == Rolling
    requires st.activeBatch.None?
    ensures var after := IdleStep(o, st);
            && after.startTime == Some(o.now) && after.activeBatch.None? && after.instances == |o.fleet|
  {
    IdleStartsBy(o, st, IdleMoveOf(o, st));
  }

  lemma IdleStartsBy(o: Observation, st: Status, move: IdleMove)
    requires st.phase == Idle && st.activeBatch.None? && IdleBy(o, st, move).phase == Rolling
    ensures move == Starts
    ensures var after := IdleBy(o, st, move);
            && after.startTime == Some(o.now) && after.activeBatch.None? && after.instances == |o.fleet|
  {}

  /** The Idle reconcile a in world w opens a rollout whose target is not recorded as its own baseline. */
  predicate Opening(w: World, a: Action, target: Image, limit: int) {
    && Enabled(w, a) && a.Reconcile? && w.status.phase == Idle && w.status.activeBatch.None?
    && Plain(w.spec, target, limit) && Tied(w, target) && w.status.previousImage != target
    && (w.status.previousImage == "" ==> !ReportsOnlyTarget(w.fleet, target))
  }

  /** The run from there on: one unchanging spec, nobody joins, leaves or falls back, and no failure so far. */
  predicate Goes(w: World, worlds: seq<World>, actions: seq<Action>, target: Image) {
    && Run(worlds, actions) && SameMembers(worlds)
    && forall i :: 0 <= i < |worlds| ==>
         worlds[i].spec == w.spec && worlds[i].status.phase == Rolling && NobodyFallsBack(worlds[i], target)
  }

  /** The Idle reconcile leaves another image as the baseline, or none. */
  lemma LaunchKeepsBaselineApart(w: World, a: Action, target: Image, limit: int)
    requires Opening(w, a, target, limit)
    ensures Step(w, a).status.previousImage != target
  {
    if w.status.previousImage == "" {
      TargetBecomesBaselineIff(w.spec, w.fleet, a.order, w.now, a.faults, w.status);
    } else {
      StepKeepsBaselineApart(w, a, target);
    }
  }

  lemma OpenedIsOnItsWay(w: World, a: Action, worlds: seq<World>, actions: seq<Action>, target: Image, limit: int)
    requires Opening(w, a, target, limit) && Goes(w, worlds, actions, target) && worlds[0] == Step(w, a)
    ensures OnItsWay(worlds, actions, target, limit)
    ensures worlds[0].spec == w.spec && worlds[0].fleet == w.fleet
  {
    LaunchKeepsBaselineApart(w, a, target, limit);
    StepStaysTied(w, a, target);
    FirstStepStartsClock(w, a);
    forall i | 0 <= i < |worlds| ensures worlds[i].status.previousImage != target {
      BaselineStaysApart(worlds, actions, target, i);
    }
  }

  lemma FirstStepStartsClock(w: World, a: Action)
    requires Enabled(w, a) && a.Reconcile? && w.status.phase == Idle && w.status.activeBatch.None?
    requires !w.spec.canaryEnabled && Step(w, a).status.phase == Rolling
    ensures var after := Step(w, a);
            && after.status.startTime == Some(after.now) && after.status.activeBatch.None?
            && after.status.instances == |after.fleet| && after.fleet == w.fleet
  {
    StartingARolloutStartsItsClock(Observed(w, a), w.status);
  }

  /** From the Idle reconcile that opens a rollout on, while every slot keeps its time and the derived budget is under
      its cap, the rollout does not run out of time. */
  lemma BudgetSuffices(
    w: World, a: Action, worlds: seq<World>, actions: seq<Action>, target: Image, limit: int, k: nat)
    requires Opening(w, a, target, limit) && Goes(w, worlds, actions, target) && worlds[0] == Step(w, a)
    requires k < |worlds| && AllKeepTime(worlds, target, k)
    requires !LimitIsPinned(w.spec) && DerivedBudget(w.spec, |w.fleet|) <= MAX_DERIVED_BUDGET
    ensures !BudgetExceeded(worlds[k].spec, worlds[k].status, worlds[k].now)
  {
    OpenedIsOnItsWay(w, a, worlds, actions, target, limit);
    BudgetLasts(worlds, actions, target, limit, k);
  }

  /** So no reconcile that may come next fails the rollout for lack of time. */
  lemma NoTimeout(
    w: World, a: Action, worlds: seq<World>, actions: seq<Action>, target: Image, limit: int, k: nat, b: Action)
    requires Opening(w, a, target, limit) && Goes(w, worlds, actions, target) && worlds[0] == Step(w, a)
    requires k < |worlds| && AllKeepTime(worlds, target, k) && Enabled(worlds[k], b) && b.Reconcile?
    requires !LimitIsPinned(w.spec) && DerivedBudget(w.spec, |w.fleet|) <= MAX_DERIVED_BUDGET
    ensures RollingMoveOf(Observed(worlds[k], b), worlds[k].status) != RollingTimesOut
  {
    BudgetSuffices(w, a, worlds, actions, target, limit, k);
    TimeoutsNeedBudget(Observed(worlds[k], b), worlds[k].status);
  }

  lemma TimeoutsNeedBudget(o: Observation, st: Status)
    requires Valid(o) && !BudgetExceeded(o.spec, st, o.now)
    ensures RollingMoveOf(o, st) != RollingTimesOut
  {}
}
