/** The state the rollout protocol works on: a ReleaseChannel's spec and status
    (api/v1/releasechannel_types.go), and the Unleash instances that reference it with their Deployments. */
module ChannelModel {
  import opened Wrappers
  import opened ImageVersions

  type Name = string
  /** Instants and durations are whole seconds. */
  type Time = int

  datatype Phase = Idle | Validating | Canary | Rolling | Completed | Failed | RollingBack

  /** What a failure reason text says to the controller: the upgrade budget ran out, a transient error
      pattern occurs in it, or neither. */
  datatype Reason = NoReason | UpgradeTimeout | Transient | Other

  datatype Spec = Spec(
    image: Image,
    canaryEnabled: bool,
    maxParallel: int,
    batchInterval: Option<int>,
    maxUpgradeTime: Option<int>,
    healthChecks: bool,
    initialDelay: Option<int>,
    healthTimeout: Option<int>,
    healthEndpoint: string,
    rollbackEnabled: bool,
    rollbackOnFailure: bool,
    rollbackImage: Image,
    allowDowngrade: bool,
    breakGlassImage: Image)

  datatype Batch = Batch(names: seq<Name>, target: Image, start: Time)

  datatype Status = Status(
    phase: Phase,
    instances: nat,
    upToDate: nat,
    startTime: Option<Time>,
    reason: Reason,
    retryCount: int,
    lastFailure: Option<Time>,
    previousImage: Image,
    instanceImages: map<Name, Image>,
    activeBatch: Option<Batch>,
    resumeProgress: int,
    failedImage: Image,
    lastDeploy: Option<Time>)

  /** A status condition; Rejected is False with the terminal reason "Failed", Negative is any other False. */
  datatype Verdict = Absent | Positive | Pending | Negative | Rejected

  datatype Condition = Condition(verdict: Verdict, observed: int)

  datatype Deployment = Deployment(
    image: Image,
    generation: int,
    observedGeneration: int,
    replicas: Option<int>,
    updated: int,
    total: int,
    ready: int,
    available: int,
    unavailable: int,
    deadlineExceeded: bool,
    replicaFailure: bool)

  /** How far the reconcile in progress for one instance has come. */
  datatype Worker =
    | Resting
    | Started(generation: int)
    | Assigned(generation: int, image: Image)
    | Deployed(generation: int, image: Image)
    | Verified(generation: int, image: Image)

  datatype Instance = Instance(
    generation: int,
    matchesCanary: bool,
    marked: bool,            // status.releaseChannelName names this channel
    resolved: Image,
    reconciled: Condition,
    connected: Condition,
    deployment: Option<Deployment>,
    worker: Worker)

  type Fleet = map<Name, Instance>

  // ------------------------------------------------------------- conditions

  predicate TrueNow(c: Condition, generation: int) { c == Condition(Positive, generation) }

  predicate Ready(i: Instance) { TrueNow(i.reconciled, i.generation) }

  predicate Connected(i: Instance) { TrueNow(i.connected, i.generation) }

  predicate TerminallyFailed(i: Instance) { i.reconciled == Condition(Rejected, i.generation) }

  // ------------------------------------------------------------ deployments

  predicate DeploymentIsReady(d: Deployment) {
    var replicas := if d.replicas.Some? then d.replicas.value else 1;
    && d.observedGeneration >= d.generation
    && d.updated == replicas && d.total == replicas && d.ready == replicas && d.available == replicas
    && d.unavailable == 0
  }

  predicate DeploymentFailed(d: Deployment) {
    d.observedGeneration >= d.generation && (d.deadlineExceeded || d.replicaFailure)
  }

  // ---------------------------------------------------------- spec decisions

  predicate BreakGlass(spec: Spec) { spec.breakGlassImage != "" && spec.breakGlassImage == spec.image }

  /** The image an instance is assigned; "" when it has no entry. */
  function ImageIn(images: map<Name, Image>, n: Name): Image {
    if n in images then images[n] else ""
  }

  function ImageOf(st: Status, n: Name): Image { ImageIn(st.instanceImages, n) }

  predicate IsCanary(spec: Spec, i: Instance) { spec.canaryEnabled && i.matchesCanary }

  /** The image the ReleaseChannel controller expects an instance to run. */
  function Expected(spec: Spec, st: Status, i: Instance, target: Image): Image {
    if st.phase == RollingBack && spec.rollbackImage != "" then spec.rollbackImage
    else if BreakGlass(spec) then target
    else if st.previousImage == "" then target
    else match st.phase
      case Canary => if IsCanary(spec, i) then target else st.previousImage
      case RollingBack => st.previousImage
      case _ => target
  }

  /** The image the Unleash controller pulls for an instance; nothing when none is assigned yet. */
  function Resolve(spec: Spec, st: Status, n: Name, i: Instance): Option<Image> {
    var fallback := if st.phase == RollingBack && spec.rollbackImage != "" then spec.rollbackImage else st.previousImage;
    if ImageOf(st, n) != "" then Some(ImageOf(st, n))
    else if st.phase in {Canary, Rolling, RollingBack} && fallback != "" then Some(fallback)
    else if i.resolved != "" then Some(i.resolved)
    else None
  }

  function RollbackTarget(spec: Spec, st: Status): Image {
    if spec.rollbackImage != "" then spec.rollbackImage else st.previousImage
  }

  predicate RollsBack(spec: Spec) { spec.rollbackEnabled && spec.rollbackOnFailure }

  function PhaseOnFailure(spec: Spec, st: Status): Phase {
    if RollsBack(spec) && RollbackTarget(spec, st) != "" then RollingBack else Failed
  }

  function BatchLimit(spec: Spec): (m: int)
    ensures m >= 1
  {
    if spec.maxParallel <= 0 then 1 else spec.maxParallel
  }

  // ------------------------------------------------------------ time budgets

  const DEFAULT_SETTLE := 30
  const DEFAULT_VERIFY := 300
  const DEFAULT_INTERVAL := 30
  const RECONCILE_ALLOWANCE := 30
  const MIN_DERIVED_BUDGET := 600
  const MAX_DERIVED_BUDGET := 7200
  const LEGACY_DEFAULT_LIMIT := 600
  const MAX_TRANSIENT_RETRIES := 5

  function Or(o: Option<int>, default: int): int { if o.Some? then o.value else default }

  function SettleDelay(spec: Spec): int { Or(spec.initialDelay, DEFAULT_SETTLE) }

  function BatchAllowance(spec: Spec): int {
    SettleDelay(spec) + Or(spec.healthTimeout, DEFAULT_VERIFY) + Or(spec.batchInterval, DEFAULT_INTERVAL)
  }

  function CeilDiv(k: nat, m: int): (c: nat)
    requires m >= 1
    ensures c * m >= k
    ensures k > 0 ==> (c - 1) * m < k
    ensures k == 0 ==> c == 0
  {
    (k + m - 1) / m
  }

  function DerivedBudget(spec: Spec, instances: nat): int {
    var batches := CeilDiv(instances, BatchLimit(spec));
    batches * BatchAllowance(spec) + (batches + 1) * RECONCILE_ALLOWANCE
  }

  predicate LimitIsPinned(spec: Spec) {
    spec.maxUpgradeTime.Some? && spec.maxUpgradeTime.value != LEGACY_DEFAULT_LIMIT
  }

  function UpgradeBudget(spec: Spec, instances: nat): int {
    if LimitIsPinned(spec) then spec.maxUpgradeTime.value
    else
      var derived := DerivedBudget(spec, instances);
      var floored := if derived < MIN_DERIVED_BUDGET then MIN_DERIVED_BUDGET else derived;
      if floored > MAX_DERIVED_BUDGET then MAX_DERIVED_BUDGET else floored
  }

  predicate BudgetExceeded(spec: Spec, st: Status, now: Time) {
    st.startTime.Some? && now - st.startTime.value > UpgradeBudget(spec, st.instances)
  }

  function Power2(n: nat): (p: nat)
    ensures p >= 1
  {
    if n == 0 then 1 else 2 * Power2(n - 1)
  }

  /** 30s, 1m, 2m, 4m, then 8m from the fifth attempt on. */
  function TransientBackoff(retryCount: int): (seconds: int)
    ensures 30 <= seconds <= 480
  {
    var backoff := 30 * (if retryCount <= 0 then 1 else Power2(retryCount));
    if backoff > 480 then 480 else backoff
  }

  lemma {:induction false} PowersGrow(n: nat)
    requires n >= 4
    ensures Power2(n) >= 16
  {
    if n > 4 { PowersGrow(n - 1); }
  }

  /** The whole schedule, which no number of attempts leaves. */
  lemma BackoffSchedule(retryCount: int)
    ensures retryCount <= 0 ==> TransientBackoff(retryCount) == 30
    ensures TransientBackoff(1) == 60 && TransientBackoff(2) == 120 && TransientBackoff(3) == 240
    ensures retryCount >= 4 ==> TransientBackoff(retryCount) == 480
  {
    assert Power2(1) == 2 && Power2(2) == 4 && Power2(3) == 8;
    if retryCount >= 4 { PowersGrow(retryCount); }
  }

  method CalculateTransientBackoff(retryCount: int) returns (backoff: int)
    ensures backoff == TransientBackoff(retryCount)
  {
    backoff := 30;
    var i := 0;
    while i < retryCount
      invariant 0 <= i && (i <= retryCount || retryCount <= 0 == i)
      invariant backoff == 30 * Power2(i)
    {
      backoff := backoff * 2;
      i := i + 1;
    }
    if backoff > 480 {
      backoff := 480;
    }
  }
}
