/** One reconcile of a ReleaseChannel as a function from the stored status to the stored status
    (internal/controller/releasechannel_controller.go). Each function states what has been written to the
    API server when the reconcile returns, so a change made only in memory does not show. */
module ChannelSteps {
  import opened Wrappers
  import opened StringLists
  import opened ImageVersions
  import opened ChannelModel
  import FleetImages

  /** What can go wrong around a reconcile: listing instances fails, writing an assignment fails, an error text
      matches a transient pattern, and which instances' HTTP checks do not pass or cannot be built. */
  datatype Faults = Faults(list: bool, deploy: bool, transient: bool, httpDown: set<Name>, httpBroken: set<Name>)

  /** Everything a reconcile reads besides the stored status. The order is the order instances were listed in. */
  datatype Observation = Observation(
    spec: Spec, fleet: Fleet, order: seq<Name>, refused: bool, baseline: Image, now: Time, faults: Faults)

  predicate Lists(fleet: Fleet, order: seq<Name>) {
    && NoDuplicates(order)
    && (forall n :: n in order ==> n in fleet)
    && (forall n :: n in fleet ==> n in order)
  }

  predicate Valid(o: Observation) { Lists(o.fleet, o.order) }

  function ResolvedImages(fleet: Fleet, order: seq<Name>): seq<Image>
    requires forall n :: n in order ==> n in fleet
  {
    seq(|order|, i requires 0 <= i < |order| => fleet[order[i]].resolved)
  }

  function Observe(spec: Spec, fleet: Fleet, order: seq<Name>, now: Time, faults: Faults): (o: Observation)
    requires Lists(fleet, order)
    ensures Valid(o)
  {
    var images := ResolvedImages(fleet, order);
    Observation(spec, fleet, order,
                FleetImages.DowngradeRefused(spec.allowDowngrade, spec.image, images),
                FleetImages.RollbackBaseline(images), now, faults)
  }

  // ---------------------------------------------------------- shared pieces

  function ErrorReason(o: Observation): Reason { if o.faults.transient then Transient else Other }

  /** What Reconcile writes when a phase returned an error. */
  function RecordError(o: Observation, st: Status): Status {
    st.(phase := Failed, reason := ErrorReason(o),
        lastFailure := if st.lastFailure.None? then Some(o.now) else st.lastFailure)
  }

  function Fail(o: Observation, st: Status, reason: Reason): Status {
    st.(phase := PhaseOnFailure(o.spec, st), activeBatch := None, reason := reason)
  }

  function UpToDate(o: Observation): set<Name> {
    set n | n in o.fleet && o.fleet[n].resolved == o.spec.image
  }

  /** Counts are refreshed and entries of departed instances dropped. */
  function UpdateCounts(o: Observation, st: Status): Status {
    st.(instances := |o.fleet|,
        upToDate := |UpToDate(o)|,
        instanceImages := map n | n in st.instanceImages && n in o.fleet :: st.instanceImages[n])
  }

  /** Instances that already run the target and have no entry get one. */
  function Adopt(o: Observation, st: Status): Status {
    st.(instanceImages := st.instanceImages +
          map n | n in o.fleet && o.fleet[n].resolved == o.spec.image && n !in st.instanceImages :: o.spec.image)
  }

  function Refuse(o: Observation, st: Status): Status {
    UpdateCounts(o, st.(phase := Idle, activeBatch := None))
  }

  predicate Captures(o: Observation, st: Status) {
    o.order != [] && o.baseline != "" && o.baseline != o.spec.image && st.previousImage != o.baseline
  }

  /** The unanimous deployed image becomes the rollback baseline when it is not the target. */
  function Track(o: Observation, st: Status): Status {
    if Captures(o, st) then st.(previousImage := o.baseline) else st
  }

  predicate BreakGlassNeeded(o: Observation, st: Status) {
    BreakGlass(o.spec) && exists n :: n in o.order && ImageOf(st, n) != o.spec.image
  }

  predicate Reassigned(o: Observation, st: Status, n: Name)
    requires n in o.fleet
  {
    ImageOf(st, n) != Expected(o.spec, st, o.fleet[n], o.spec.image)
  }

  /** Hands every named instance the image its phase expects; in Rolling this opens a batch. */
  function Deploy(o: Observation, st: Status, names: seq<Name>): Status
    requires forall n :: n in names ==> n in o.fleet
  {
    var images := map n | n in names && Reassigned(o, st, n) :: Expected(o.spec, st, o.fleet[n], o.spec.image);
    st.(instanceImages := st.instanceImages + images,
        activeBatch := if st.phase == Rolling && (st.activeBatch.None? || BreakGlass(o.spec))
                       then Some(Batch(names, o.spec.image, o.now)) else st.activeBatch,
        lastDeploy := if images != map[] then Some(o.now) else st.lastDeploy)
  }

  /** The sublist of names that satisfy keep, in order. */
  function Select(names: seq<Name>, keep: Name --> bool): (r: seq<Name>)
    requires forall n :: n in names ==> keep.requires(n)
    ensures forall n :: n in r <==> n in names && keep(n)
    ensures r == [] <==> forall n :: n in names ==> !keep(n)
    ensures |r| <= |names|
    ensures NoDuplicates(names) ==> NoDuplicates(r)
  {
    if names == [] then []
    else
      var rest := Select(names[1..], keep);
      if keep(names[0]) then [names[0]] + rest else rest
  }

  function Outdated(o: Observation): seq<Name>
    requires Valid(o)
  {
    Select(o.order, n requires n in o.fleet => o.fleet[n].resolved != o.spec.image)
  }

  function Canaries(o: Observation): seq<Name>
    requires Valid(o)
  {
    Select(o.order, n requires n in o.fleet => IsCanary(o.spec, o.fleet[n]))
  }

  /** An instance that runs the target and is ready and connected for its current generation. */
  predicate Settled(i: Instance, image: Image) { i.resolved == image && Ready(i) && Connected(i) }

  predicate Lags(images: map<Name, Image>, n: Name, i: Instance, image: Image) {
    ImageIn(images, n) == image && !Settled(i, image)
  }

  /** Instances assigned the target that have not settled on it. */
  function Unsettled(o: Observation, images: map<Name, Image>): seq<Name>
    requires Valid(o)
  {
    Select(o.order, n requires n in o.fleet => Lags(images, n, o.fleet[n], o.spec.image))
  }

  function Members(o: Observation, batch: Batch): seq<Name> { Select(o.order, n => n in batch.names) }

  predicate AllReady(o: Observation, st: Status, names: seq<Name>, target: Image, requireConnected: bool)
    requires forall n :: n in names ==> n in o.fleet
  {
    forall n :: n in names ==>
      && o.fleet[n].resolved == Expected(o.spec, st, o.fleet[n], target)
      && Ready(o.fleet[n])
      && (requireConnected ==> Connected(o.fleet[n]))
  }

  predicate AnyTerminal(o: Observation, names: seq<Name>)
    requires forall n :: n in names ==> n in o.fleet
  {
    exists n :: n in names && TerminallyFailed(o.fleet[n])
  }

  datatype Health = Healthy | Waiting | Broken

  function Probe(o: Observation, names: seq<Name>): (h: Health)
    requires forall n :: n in names ==> n in o.fleet
    ensures h == Healthy ==> forall n :: n in names ==> Connected(o.fleet[n])
    ensures h == Healthy && o.spec.healthEndpoint != "" ==>
              forall n :: n in names ==> n !in o.faults.httpDown && n !in o.faults.httpBroken
  {
    if names == [] then Healthy
    else if TerminallyFailed(o.fleet[names[0]]) then Broken
    else if !Connected(o.fleet[names[0]]) then Waiting
    else if o.spec.healthEndpoint != "" && names[0] in o.faults.httpBroken then Broken
    else if o.spec.healthEndpoint != "" && names[0] in o.faults.httpDown then Waiting
    else Probe(o, names[1..])
  }

  function HealthOf(o: Observation, names: seq<Name>, since: Option<Time>): Health
    requires forall n :: n in names ==> n in o.fleet
  {
    if since.Some? && o.now - since.value < SettleDelay(o.spec) then Waiting else Probe(o, names)
  }

  function SettleReference(st: Status): Option<Time> {
    if st.lastDeploy.Some? then st.lastDeploy else st.startTime
  }

  /** Where a set of instances stands that must become healthy before the rollout goes on. */
  datatype Gate = Rejects | NotReady | ChecksBroken | ChecksWaiting | Passed

  function GateOf(o: Observation, st: Status, names: seq<Name>, target: Image, since: Option<Time>): Gate
    requires forall n :: n in names ==> n in o.fleet
  {
    if AnyTerminal(o, names) then Rejects
    else if !AllReady(o, st, names, target, true) then NotReady
    else if !o.spec.healthChecks then Passed
    else match HealthOf(o, names, since)
      case Broken => ChecksBroken
      case Waiting => ChecksWaiting
      case Healthy => Passed
  }

  // Each phase is a decision and an effect. The decision names the branch the phase executor takes; the
  // effect says what that branch has stored.

  // ------------------------------------------------------------------- Idle

  predicate NeedsUpdate(o: Observation, st: Status)
    requires Valid(o)
  {
    exists n :: n in o.order && o.fleet[n].resolved != Expected(o.spec, st, o.fleet[n], o.spec.image)
  }

  function StartRollout(o: Observation, st: Status): Status {
    var tracked := if st.previousImage == "" && o.baseline != "" then st.(previousImage := o.baseline) else st;
    UpdateCounts(o, tracked).(startTime := Some(o.now), phase := if o.spec.canaryEnabled then Canary else Rolling)
  }

  datatype IdleMove = ListingFails | NobodyListed | EverybodyUpToDate | RefusesDowngrade | Starts

  function IdleMoveOf(o: Observation, st: Status): IdleMove
    requires Valid(o)
  {
    if o.faults.list then ListingFails
    else if o.order == [] then NobodyListed
    else if !NeedsUpdate(o, Track(o, st)) then EverybodyUpToDate
    else if o.refused then RefusesDowngrade
    else Starts
  }

  function IdleBy(o: Observation, st: Status, move: IdleMove): Status {
    // Capturing a baseline re-reads the stored object, which brings back a stored batch.
    var tracked := if Captures(o, st) then Track(o, st) else st.(activeBatch := None);
    match move
    case ListingFails => RecordError(o, st.(activeBatch := None))
    case NobodyListed => st.(phase := Idle, activeBatch := None, instances := 0, upToDate := 0)
    case EverybodyUpToDate => UpdateCounts(o, Adopt(o, tracked))
    case RefusesDowngrade => Refuse(o, tracked)
    case Starts => StartRollout(o, tracked)
  }

  function IdleStep(o: Observation, st: Status): Status
    requires Valid(o)
  {
    IdleBy(o, st, IdleMoveOf(o, st))
  }

  // ------------------------------------------------------------- Validating

  /** The next phase is chosen in memory only, so nothing but counts is stored. */
  function ValidatingStep(o: Observation, st: Status): Status
    requires Valid(o)
  {
    if o.spec.image == "" then st
    else if o.faults.list then RecordError(o, st)
    else if o.order == [] then st
    else if o.refused then Refuse(o, st)
    else UpdateCounts(o, st)
  }

  // ----------------------------------------------------------------- Canary

  datatype CanaryMove =
    | CanaryListingFails | CanaryRefuses | CanaryTimesOut
    | CanaryAssignsAll | CanaryAssignmentFails | NoCanaries | CanaryAwaits(gate: Gate)

  function CanaryMoveOf(o: Observation, st: Status): CanaryMove
    requires Valid(o)
  {
    var tracked := Track(o, st);
    if o.faults.list then CanaryListingFails
    else if o.refused then CanaryRefuses
    else if BudgetExceeded(o.spec, st, o.now) && !BreakGlassNeeded(o, st) then CanaryTimesOut
    else if !BreakGlassNeeded(o, tracked) && Canaries(o) == [] then NoCanaries
    else if o.faults.deploy then CanaryAssignmentFails
    else if BreakGlassNeeded(o, tracked) then CanaryAssignsAll
    else
      var deployed := Deploy(o, tracked, o.order);
      CanaryAwaits(GateOf(o, deployed, Canaries(o), o.spec.image, SettleReference(deployed)))
  }

  function CanaryBy(o: Observation, st: Status, move: CanaryMove): Status
    requires Valid(o)
  {
    match move
    case CanaryListingFails => RecordError(o, st)
    case CanaryRefuses => Refuse(o, st)
    case CanaryTimesOut => st.(phase := PhaseOnFailure(o.spec, st), reason := UpgradeTimeout)
    case CanaryAssignsAll => Deploy(o, Track(o, st), o.order)
    case CanaryAssignmentFails => RecordError(o, Track(o, st))
    case NoCanaries => Track(o, st).(phase := Rolling)
    case CanaryAwaits(gate) => AfterCanaryGate(o, Deploy(o, Track(o, st), o.order), gate)
  }

  /** A health check that only has to wait returns before the refreshed counts are stored. */
  function AfterCanaryGate(o: Observation, st: Status, gate: Gate): Status {
    var counted := UpdateCounts(o, st);
    match gate
    case Rejects => counted.(phase := PhaseOnFailure(o.spec, counted), reason := ErrorReason(o))
    case NotReady => counted
    case ChecksBroken => RecordError(o, counted)
    case ChecksWaiting => st
    case Passed => counted.(phase := Rolling)
  }

  function CanaryStep(o: Observation, st: Status): Status
    requires Valid(o)
  {
    CanaryBy(o, st, CanaryMoveOf(o, st))
  }

  // ---------------------------------------------------------------- Rolling

  datatype RollingMove =
    | RollingListingFails | RollingRefuses | RollingTimesOut
    | RollingAssignsAll | RollingAssignmentFails | Recovers
    | BatchIsGone | BatchAwaits(gate: Gate)
    | AssignsNextBatch | NextBatchFails | CompletionAwaits(gate: Gate)

  function RollingMoveOf(o: Observation, st: Status): RollingMove
    requires Valid(o)
  {
    if o.faults.list then RollingListingFails
    else if o.refused then RollingRefuses
    else if BudgetExceeded(o.spec, st, o.now) && !BreakGlassNeeded(o, st) then RollingTimesOut
    else if BreakGlassNeeded(o, Track(o, st)) then
      if o.faults.deploy then RollingAssignmentFails else RollingAssignsAll
    else if st.activeBatch.None? && Unsettled(o, st.instanceImages) != [] then Recovers
    else if st.activeBatch.Some? then
      var batch := st.activeBatch.value;
      var members := Members(o, batch);
      if members == [] then BatchIsGone
      else BatchAwaits(GateOf(o, Track(o, st), members, BatchTarget(o, batch), Some(batch.start)))
    else if Outdated(o) != [] then
      if o.faults.deploy then NextBatchFails else AssignsNextBatch
    else CompletionAwaits(GateOf(o, Track(o, st), o.order, o.spec.image, SettleReference(st)))
  }

  function RollingBy(o: Observation, st: Status, move: RollingMove): Status
    requires Valid(o)
  {
    var counted := UpdateCounts(o, Track(o, st));
    match move
    case RollingListingFails => RecordError(o, st.(activeBatch := None))
    case RollingRefuses => Refuse(o, st)
    case RollingTimesOut => Fail(o, st, UpgradeTimeout)
    case RollingAssignsAll => Deploy(o, Track(o, st), o.order)
    case RollingAssignmentFails => RecordError(o, Track(o, st))
    case Recovers =>
      var unsettled := Unsettled(o, st.instanceImages);
      Track(o, st).(activeBatch := Some(Batch(unsettled, o.spec.image, Or(st.startTime, o.now))))
    case BatchIsGone => counted.(activeBatch := None)
    case BatchAwaits(gate) => AfterGate(o, counted, gate, counted.(activeBatch := None))
    case NextBatchFails => RecordError(o, counted.(activeBatch := None))
    case AssignsNextBatch => Deploy(o, counted, NextBatch(o))
    case CompletionAwaits(gate) => AfterGate(o, counted, gate, counted.(phase := Completed))
  }

  function AfterGate(o: Observation, st: Status, gate: Gate, passed: Status): Status {
    match gate
    case Rejects => Fail(o, st, ErrorReason(o))
    case NotReady => st
    case ChecksBroken => Fail(o, st, ErrorReason(o))
    case ChecksWaiting => st
    case Passed => passed
  }

  function RollingStep(o: Observation, st: Status): Status
    requires Valid(o)
  {
    RollingBy(o, st, RollingMoveOf(o, st))
  }

  function BatchTarget(o: Observation, batch: Batch): Image {
    if batch.target == "" then o.spec.image else batch.target
  }

  function NextBatch(o: Observation): (batch: seq<Name>)
    requires Valid(o)
    ensures |batch| <= BatchLimit(o.spec) && |batch| <= |Outdated(o)|
    ensures |batch| == BatchLimit(o.spec) || |batch| == |Outdated(o)|
  {
    var outdated := Outdated(o);
    outdated[..if |outdated| < BatchLimit(o.spec) then |outdated| else BatchLimit(o.spec)]
  }

  // -------------------------------------------------------------- Completed

  function CompletedStep(st: Status): Status {
    st.(phase := Idle, startTime := None, reason := NoReason, retryCount := 0, lastFailure := None,
        activeBatch := None, failedImage := "", resumeProgress := 0)
  }

  // ----------------------------------------------------------------- Failed

  datatype FailedMove =
    | DropsBatch | FailedListingFails | RetriesBreakGlass | RetriesNewImage | RetriesLargerBudget
    | ResetsProgress | Resumes | MarksFailureTime | RetriesTransient | WaitsBackoff | RollsBackNow | Stays

  function FailedMoveOf(o: Observation, st: Status): FailedMove {
    if st.activeBatch.Some? then DropsBatch
    else if BreakGlass(o.spec) && o.faults.list then FailedListingFails
    else if BreakGlassNeeded(o, st) then RetriesBreakGlass
    else if st.failedImage != "" && o.spec.image != st.failedImage then RetriesNewImage
    else if st.reason == UpgradeTimeout && st.startTime.Some? && !BudgetExceeded(o.spec, st, o.now) then RetriesLargerBudget
    else if st.reason == UpgradeTimeout && st.resumeProgress > st.upToDate then ResetsProgress
    else if st.reason == UpgradeTimeout && st.upToDate > st.resumeProgress then Resumes
    else if st.reason == Transient && st.retryCount < MAX_TRANSIENT_RETRIES then
      if st.lastFailure.None? then MarksFailureTime
      else if o.now - st.lastFailure.value >= TransientBackoff(st.retryCount) then RetriesTransient
      else WaitsBackoff
    else if RollsBack(o.spec) && RollbackTarget(o.spec, st) != "" then RollsBackNow
    else Stays
  }

  function FailedBy(o: Observation, st: Status, move: FailedMove): Status {
    var marked := if st.failedImage == "" then st.(failedImage := o.spec.image) else st;
    match move
    case DropsBatch => st.(activeBatch := None)
    case FailedListingFails => RecordError(o, st)
    case RetriesBreakGlass => RestartFresh(st)
    case RetriesNewImage => st.(phase := Idle, reason := NoReason, failedImage := "", retryCount := 0, lastFailure := None)
    case RetriesLargerBudget => RestartFresh(st)
    case ResetsProgress => RestartFresh(st.(resumeProgress := 0))
    case Resumes =>
      st.(resumeProgress := st.upToDate, phase := Idle, reason := NoReason, failedImage := "", startTime := None)
    case MarksFailureTime => marked.(lastFailure := Some(o.now))
    case RetriesTransient =>
      marked.(retryCount := st.retryCount + 1, phase := Idle, reason := NoReason, lastFailure := None)
    case WaitsBackoff => st
    case RollsBackNow => marked.(phase := RollingBack)
    case Stays => marked
  }

  function FailedStep(o: Observation, st: Status): Status { FailedBy(o, st, FailedMoveOf(o, st)) }

  function RestartFresh(st: Status): Status {
    st.(phase := Idle, reason := NoReason, failedImage := "", retryCount := 0, lastFailure := None, startTime := None)
  }

  // ------------------------------------------------------------ RollingBack

  datatype BackMove = NoTarget | BackListingFails | BackRejects | BackWaits | Restored

  function AssignRollback(o: Observation, st: Status): Status {
    var counted := UpdateCounts(o, st.(activeBatch := None));
    counted.(instanceImages := counted.instanceImages + map n | n in o.fleet :: RollbackTarget(o.spec, st))
  }

  function BackMoveOf(o: Observation, st: Status): BackMove
    requires Valid(o)
  {
    if RollbackTarget(o.spec, st) == "" then NoTarget
    else if o.faults.list then BackListingFails
    else if AnyTerminal(o, o.order) then BackRejects
    else if !AllReady(o, AssignRollback(o, st), o.order, RollbackTarget(o.spec, st), false) then BackWaits
    else Restored
  }

  function BackBy(o: Observation, st: Status, move: BackMove): Status {
    match move
    case NoTarget => st.(phase := Failed, activeBatch := None, reason := Other)
    case BackListingFails => RecordError(o, st.(activeBatch := None))
    case BackRejects => AssignRollback(o, st).(phase := Failed, reason := ErrorReason(o))
    case BackWaits => AssignRollback(o, st)
    case Restored =>
      AssignRollback(o, st).(previousImage := "", phase := Idle, retryCount := 0, lastFailure := None)
  }

  function RollingBackStep(o: Observation, st: Status): Status
    requires Valid(o)
  {
    BackBy(o, st, BackMoveOf(o, st))
  }

  // --------------------------------------------------------------- dispatch

  function ChannelStep(o: Observation, st: Status): Status
    requires Valid(o)
  {
    match st.phase
    case Idle => IdleStep(o, st)
    case Validating => ValidatingStep(o, st)
    case Canary => CanaryStep(o, st)
    case Rolling => RollingStep(o, st)
    case Completed => CompletedStep(st)
    case Failed => FailedStep(o, st)
    case RollingBack => RollingBackStep(o, st)
  }
}
