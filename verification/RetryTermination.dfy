/** Automatic retries end: with the spec and the membership left alone, no break glass and no rollback, and no
    instance falling back, a channel goes from Failed to Idle only finitely often, and the bound is explicit. */
module RetryTermination {
  import opened ImageVersions
  import opened ChannelModel
  import opened ChannelSteps
  import opened Rollout
  import opened PhaseSafety
  import opened RolloutGuards
  import opened Parallelism
  import opened Progress

  /** A recorded timeout still stands under the budget in force. */
  predicate TimeoutStands(spec: Spec, st: Status, now: Time) {
    st.phase == Failed && st.reason == UpgradeTimeout && st.startTime.Some? ==> BudgetExceeded(spec, st, now)
  }

  predicate Retryable(o: Observation, st: Status) {
    && st.phase != RollingBack && st.failedImage in {"", o.spec.image}
    && st.upToDate <= |UpToDate(o)| <= |o.fleet|
    && (st.phase == Completed ==> |UpToDate(o)| == |o.fleet|)
    && TimeoutStands(o.spec, st, o.now)
  }

  predicate Retries(before: Status, after: Status) { before.phase == Failed && after.phase == Idle }

  function AtLeastZero(x: int): nat { if x < 0 then 0 else x }

  /** What the progress memory and the retry counter still allow. */
  function Attempts(st: Status, members: nat): nat {
    (if st.resumeProgress > st.upToDate then members + MAX_TRANSIENT_RETRIES + 1 else 0)
    + AtLeastZero(members - st.resumeProgress) + AtLeastZero(MAX_TRANSIENT_RETRIES - st.retryCount)
  }

  /** A rollout may still complete, which hands out fresh attempts once. */
  predicate Unfinished(st: Status, upToDate: nat, members: nat) {
    upToDate < members || st.phase in {Canary, Rolling, Completed}
  }

  function Potential(st: Status, upToDate: nat, members: nat): nat {
    Attempts(st, members) + if Unfinished(st, upToDate, members) then members + MAX_TRANSIENT_RETRIES else 0
  }

  // ------------------------------------------------------------ the retry step

  /** The budget in force cannot have grown, so the branch for a raised budget is dead. */
  lemma BudgetRetryNeverFires(o: Observation, st: Status)
    requires st.phase == Failed && TimeoutStands(o.spec, st, o.now)
    ensures FailedMoveOf(o, st) != RetriesLargerBudget
  {}

  predicate LexicographicallyLess(a: (bool, int, int), b: (bool, int, int)) {
    || (!a.0 && b.0)
    || (a.0 == b.0 && 0 <= a.1 < b.1)
    || (a.0 == b.0 && a.1 == b.1 && 0 <= a.2 < b.2)
  }

  function Rank(st: Status, members: nat): (bool, int, int) {
    (st.resumeProgress > st.upToDate, members - st.resumeProgress, MAX_TRANSIENT_RETRIES - st.retryCount)
  }

  /** Every retry without break glass for an unchanged image strictly lowers the rank: memory ahead of the
      fleet first, then instances not yet remembered, then transient attempts left. */
  lemma RetryLowersRank(o: Observation, st: Status)
    requires st.phase == Failed && !BreakGlass(o.spec) && Retryable(o, st)
    requires FailedStep(o, st).phase == Idle
    ensures LexicographicallyLess(Rank(FailedStep(o, st), |o.fleet|), Rank(st, |o.fleet|))
    ensures FailedMoveOf(o, st) in {ResetsProgress, Resumes, RetriesTransient}
  {
    BudgetRetryNeverFires(o, st);
  }

  // ------------------------------------------------------------ every reconcile

  predicate Spends(before: Status, after: Status, u: nat, v: nat, members: nat) {
    Potential(after, v, members) + (if Retries(before, after) then 1 else 0) <= Potential(before, u, members)
  }

  /** The step leaves the retry bookkeeping alone; the counts it stores may only have caught up. */
  predicate LeavesBookkeeping(o: Observation, st: Status, after: Status) {
    && after.resumeProgress == st.resumeProgress && after.retryCount == st.retryCount
    && after.failedImage == st.failedImage
    && st.upToDate <= after.upToDate <= |UpToDate(o)|
    && (after.phase == Failed && after.reason == UpgradeTimeout ==> BudgetExceeded(o.spec, after, o.now))
  }

  lemma FailedSpends(o: Observation, st: Status)
    requires st.phase == Failed && !BreakGlass(o.spec) && !RollsBack(o.spec) && Retryable(o, st)
    ensures Spends(st, FailedStep(o, st), |UpToDate(o)|, |UpToDate(o)|, |o.fleet|)
    ensures Retryable(o, FailedStep(o, st))
  {
    BudgetRetryNeverFires(o, st);
  }

  lemma NobodyMeansNoneUpToDate(o: Observation)
    requires Valid(o)
    ensures o.order == [] ==> o.fleet.Keys == {} && UpToDate(o) == {}
    ensures |UpToDate(o)| <= |o.fleet|
  {
    SubsetIsNoLarger(UpToDate(o), o.fleet.Keys);
    if o.order == [] { assert forall n :: n in o.fleet ==> n in o.order; }
  }

  lemma IdleLeaves(o: Observation, st: Status, move: IdleMove)
    requires Valid(o) && st.phase == Idle && Retryable(o, st) && (move == NobodyListed ==> o.order == [])
    ensures LeavesBookkeeping(o, st, IdleBy(o, st, move))
  {
    NobodyMeansNoneUpToDate(o);
  }

  lemma EqualSizeSubset<T>(a: set<T>, b: set<T>)
    requires a <= b && |a| == |b|
    ensures a == b
  {
    assert b == a + (b - a);
  }

  lemma EverybodyUpToDateStaysIdle(o: Observation, st: Status)
    requires Valid(o) && st.phase == Idle && |UpToDate(o)| == |o.fleet|
    ensures IdleStep(o, st).phase in {Idle, Failed}
  {
    EqualSizeSubset(UpToDate(o), o.fleet.Keys);
    assert forall n :: n in o.fleet ==> n in UpToDate(o);
  }

  lemma CanaryGateLeaves(o: Observation, st: Status, gate: Gate)
    requires st.phase == Canary && st.upToDate <= |UpToDate(o)|
    ensures LeavesBookkeeping(o, st, AfterCanaryGate(o, st, gate))
  {}

  lemma CanaryLeaves(o: Observation, st: Status, move: CanaryMove)
    requires Valid(o) && st.phase == Canary && Retryable(o, st) && !RollsBack(o.spec)
    requires move == CanaryTimesOut ==> BudgetExceeded(o.spec, st, o.now)
    ensures LeavesBookkeeping(o, st, CanaryBy(o, st, move))
  {
    if move.CanaryAwaits? {
      CanaryGateLeaves(o, Deploy(o, Track(o, st), o.order), move.gate);
    }
  }

  lemma RollingLeaves(o: Observation, st: Status, move: RollingMove)
    requires Valid(o) && st.phase == Rolling && Retryable(o, st) && !RollsBack(o.spec)
    requires move == RollingTimesOut ==> BudgetExceeded(o.spec, st, o.now)
    ensures LeavesBookkeeping(o, st, RollingBy(o, st, move))
  {}

  lemma TimeoutsAreReal(o: Observation, st: Status)
    requires Valid(o)
    ensures CanaryMoveOf(o, st) == CanaryTimesOut ==> BudgetExceeded(o.spec, st, o.now)
    ensures RollingMoveOf(o, st) == RollingTimesOut ==> BudgetExceeded(o.spec, st, o.now)
  {}

  lemma LeavingSpendsNothing(o: Observation, st: Status, after: Status)
    requires LeavesBookkeeping(o, st, after) && Retryable(o, st) && st.phase != Failed
    requires Unfinished(after, |UpToDate(o)|, |o.fleet|) ==> Unfinished(st, |UpToDate(o)|, |o.fleet|)
    requires after.phase != RollingBack && (after.phase == Completed ==> |UpToDate(o)| == |o.fleet|)
    ensures Spends(st, after, |UpToDate(o)|, |UpToDate(o)|, |o.fleet|) && Retryable(o, after)
  {}

  lemma CompletionFindsAllUpToDate(o: Observation, st: Status)
    requires Valid(o) && st.phase == Rolling && RollingStep(o, st).phase == Completed
    ensures |UpToDate(o)| == |o.fleet|
  {
    CompletesOnlyWhenAllSettled(o, st);
    assert UpToDate(o) == o.fleet.Keys;
  }

  lemma IdleSpends(o: Observation, st: Status)
    requires Valid(o) && st.phase == Idle && Retryable(o, st)
    requires LeavesBookkeeping(o, st, IdleStep(o, st))
    ensures Spends(st, IdleStep(o, st), |UpToDate(o)|, |UpToDate(o)|, |o.fleet|)
    ensures Retryable(o, IdleStep(o, st))
  {
    IdleSuccessors(o, st, IdleMoveOf(o, st));
    if |UpToDate(o)| == |o.fleet| { EverybodyUpToDateStaysIdle(o, st); }
    LeavingSpendsNothing(o, st, IdleStep(o, st));
  }

  lemma ValidatingSpends(o: Observation, st: Status)
    requires Valid(o) && st.phase == Validating && Retryable(o, st)
    ensures Spends(st, ValidatingStep(o, st), |UpToDate(o)|, |UpToDate(o)|, |o.fleet|)
    ensures Retryable(o, ValidatingStep(o, st))
  {
    LeavingSpendsNothing(o, st, ValidatingStep(o, st));
  }

  lemma IdlePremise(o: Observation, st: Status)
    requires Valid(o)
    ensures IdleMoveOf(o, st) == NobodyListed ==> o.order == []
  {}

  lemma CanarySpends(o: Observation, st: Status, move: CanaryMove)
    requires Valid(o) && st.phase == Canary && Retryable(o, st) && !RollsBack(o.spec)
    requires move == CanaryTimesOut ==> BudgetExceeded(o.spec, st, o.now)
    ensures Spends(st, CanaryBy(o, st, move), |UpToDate(o)|, |UpToDate(o)|, |o.fleet|)
    ensures Retryable(o, CanaryBy(o, st, move))
  {
    CanaryLeaves(o, st, move);
    CanarySuccessors(o, st, move);
    CanaryStaysForward(o, st, move);
    LeavingSpendsNothing(o, st, CanaryBy(o, st, move));
  }

  lemma RollingSpends(o: Observation, st: Status, move: RollingMove)
    requires Valid(o) && st.phase == Rolling && Retryable(o, st) && !RollsBack(o.spec)
    requires move == RollingTimesOut ==> BudgetExceeded(o.spec, st, o.now)
    requires RollingBy(o, st, move).phase == Completed ==> |UpToDate(o)| == |o.fleet|
    ensures Spends(st, RollingBy(o, st, move), |UpToDate(o)|, |UpToDate(o)|, |o.fleet|)
    ensures Retryable(o, RollingBy(o, st, move))
  {
    RollingLeaves(o, st, move);
    RollingStaysForward(o, st, move);
    LeavingSpendsNothing(o, st, RollingBy(o, st, move));
  }

  lemma CompletedSpends(o: Observation, st: Status)
    requires st.phase == Completed && Retryable(o, st)
    ensures Spends(st, CompletedStep(st), |UpToDate(o)|, |UpToDate(o)|, |o.fleet|) && Retryable(o, CompletedStep(st))
  {}

  lemma ReconcileSpends(o: Observation, st: Status)
    requires Valid(o) && Retryable(o, st) && !BreakGlass(o.spec) && !RollsBack(o.spec)
    ensures Spends(st, ChannelStep(o, st), |UpToDate(o)|, |UpToDate(o)|, |o.fleet|)
    ensures Retryable(o, ChannelStep(o, st))
  {
    match st.phase
    case Failed => FailedSpends(o, st);
    case Completed => CompletedSpends(o, st);
    case Validating => ValidatingSpends(o, st);
    case Idle =>
      IdlePremise(o, st);
      IdleLeaves(o, st, IdleMoveOf(o, st));
      IdleSpends(o, st);
    case Canary =>
      TimeoutsAreReal(o, st);
      CanarySpends(o, st, CanaryMoveOf(o, st));
    case Rolling =>
      TimeoutsAreReal(o, st);
      if RollingStep(o, st).phase == Completed { CompletionFindsAllUpToDate(o, st); }
      RollingSpends(o, st, RollingMoveOf(o, st));
  }

  // ------------------------------------------------------------- whole runs

  predicate RetryableWorld(w: World) {
    && w.status.phase != RollingBack && w.status.failedImage in {"", w.spec.image}
    && w.status.upToDate <= |OnImage(w.fleet, w.spec.image)| <= |w.fleet|
    && (w.status.phase == Completed ==> |OnImage(w.fleet, w.spec.image)| == |w.fleet|)
    && TimeoutStands(w.spec, w.status, w.now)
  }

  function PotentialOf(w: World): nat { Potential(w.status, |OnImage(w.fleet, w.spec.image)|, |w.fleet|) }

  predicate SpendsAttempts(w: World, after: World) {
    PotentialOf(after) + (if Retries(w.status, after.status) then 1 else 0) <= PotentialOf(w)
  }

  /** The number of retries among the first k steps. */
  function RetryCount(worlds: seq<World>, k: nat): nat
    requires k < |worlds|
  {
    if k == 0 then 0
    else RetryCount(worlds, k - 1) + if Retries(worlds[k - 1].status, worlds[k].status) then 1 else 0
  }

  /** What the environment leaves alone, from one moment to the next. */
  predicate Calm(w: World, after: World) {
    && after.spec == w.spec && after.fleet.Keys == w.fleet.Keys
    && !BreakGlass(w.spec) && !RollsBack(w.spec)
    && |OnImage(w.fleet, w.spec.image)| <= |OnImage(after.fleet, w.spec.image)|
  }

  lemma StepSpends(w: World, a: Action)
    requires Enabled(w, a) && RetryableWorld(w) && Calm(w, Step(w, a))
    ensures RetryableWorld(Step(w, a)) && SpendsAttempts(w, Step(w, a))
  {
    var after := Step(w, a);
    SubsetIsNoLarger(OnImage(after.fleet, w.spec.image), after.fleet.Keys);
    assert |after.fleet| == |w.fleet| by { assert |after.fleet.Keys| == |w.fleet.Keys|; }
    if a.Reconcile? {
      var o := Observed(w, a);
      assert UpToDate(o) == OnImage(w.fleet, w.spec.image);
      ReconcileSpends(o, w.status);
    }
  }

  lemma {:induction false} RetriesAreSpent(worlds: seq<World>, actions: seq<Action>, k: nat)
    requires Run(worlds, actions) && k < |worlds| && RetryableWorld(worlds[0])
    requires forall i :: 0 <= i < k ==> Calm(worlds[i], worlds[i + 1])
    ensures RetryableWorld(worlds[k])
    ensures RetryCount(worlds, k) + PotentialOf(worlds[k]) <= PotentialOf(worlds[0])
  {
    if k > 0 {
      RetriesAreSpent(worlds, actions, k - 1);
      StepSpends(worlds[k - 1], actions[k - 1]);
    }
  }

  lemma PotentialIsBounded(w: World)
    requires w.status.resumeProgress >= 0 && w.status.retryCount >= 0
    ensures PotentialOf(w) <= 3 * |w.fleet| + 16
  {}

  /** However long it runs, a channel left alone retries at most 3 * members + 16 times, completions included, and the
      branch for a raised budget never fires. */
  lemma RetriesAreBounded(worlds: seq<World>, actions: seq<Action>, k: nat)
    requires Run(worlds, actions) && k < |worlds| && RetryableWorld(worlds[0])
    requires forall i :: 0 <= i < k ==> Calm(worlds[i], worlds[i + 1])
    requires worlds[0].status.resumeProgress >= 0 && worlds[0].status.retryCount >= 0
    ensures RetryCount(worlds, k) <= 3 * |worlds[0].fleet| + 16
    ensures k < |actions| && actions[k].Reconcile? && worlds[k].status.phase == Failed ==>
              FailedMoveOf(Observed(worlds[k], actions[k]), worlds[k].status) != RetriesLargerBudget
  {
    RetriesAreSpent(worlds, actions, k);
    PotentialIsBounded(worlds[0]);
    if k < |actions| && actions[k].Reconcile? && worlds[k].status.phase == Failed {
      BudgetRetryNeverFires(Observed(worlds[k], actions[k]), worlds[k].status);
    }
  }

  /** A run of one spec without canaries, break glass or automatic rollback and one membership, which begins with
      everybody on the target held there. */
  predicate SteadyRun(worlds: seq<World>, actions: seq<Action>, target: Image) {
    && Run(worlds, actions) && Tied(worlds[0], target) && SameMembers(worlds)
    && Steady(worlds[0].spec, target) && !BreakGlass(worlds[0].spec) && !RollsBack(worlds[0].spec)
    && worlds[0].status.phase != RollingBack
    && forall i :: 0 <= i < |worlds| ==> worlds[i].spec == worlds[0].spec
  }

  lemma SteadyRunIsCalm(worlds: seq<World>, actions: seq<Action>, target: Image, i: nat)
    requires SteadyRun(worlds, actions, target) && i < |actions|
    ensures Calm(worlds[i], worlds[i + 1])
  {
    forall m | 0 <= m <= i ensures worlds[m].status.phase != RollingBack { RunNeverRollsBack(worlds, actions, m); }
    OnTargetNeverShrinks(worlds, actions, target, i);
    SubsetIsNoLarger(OnImage(worlds[i].fleet, target), OnImage(worlds[i + 1].fleet, target));
    NobodyJoins(worlds, actions, i);
  }

  /** The same without assuming progress: it follows, first deployments and every baseline included. */
  lemma SteadyRetriesAreBounded(worlds: seq<World>, actions: seq<Action>, target: Image, k: nat)
    requires SteadyRun(worlds, actions, target) && k < |worlds| && RetryableWorld(worlds[0])
    requires worlds[0].status.resumeProgress >= 0 && worlds[0].status.retryCount >= 0
    ensures RetryCount(worlds, k) <= 3 * |worlds[0].fleet| + 16
  {
    forall i | 0 <= i < k ensures Calm(worlds[i], worlds[i + 1]) {
      SteadyRunIsCalm(worlds, actions, target, i);
    }
    RetriesAreBounded(worlds, actions, k);
  }
}
