/** One reconcile of an Unleash instance, cut at the points where another controller may run in between
    (internal/controller/unleash_controller.go): start, resolve the image and mark it pending, move the
    Deployment, observe the Deployment, test the connection. */
module UnleashSteps {
  import opened Wrappers
  import opened ChannelModel
  import opened ImageVersions

  /** Begin captures the generation the rest of the reconcile speaks for. */
  function Begin(i: Instance): Instance {
    var started := i.(worker := Started(i.generation));
    if i.reconciled.verdict == Absent && i.connected.verdict == Absent
    then started.(reconciled := Condition(Pending, i.generation)) else started
  }

  /** A new assignment is published together with the loss of readiness. */
  function MarkPending(i: Instance, generation: int, image: Image): Instance {
    i.(resolved := image, marked := true,
       reconciled := Condition(Pending, generation), connected := Condition(Pending, generation))
  }

  function ResolveImage(spec: Spec, st: Status, n: Name, i: Instance): Instance
    requires i.worker.Started?
  {
    var generation := i.worker.generation;
    match Resolve(spec, st, n, i)
    case None => i.(worker := Resting)
    case Some(image) =>
      if i.resolved == image && i.marked then i.(worker := Assigned(generation, image))
      else if i.generation != generation then i.(worker := Resting)
      else MarkPending(i, generation, image).(worker := Assigned(generation, image))
  }

  /** Creating or updating the Deployment ends the reconcile; only an unchanged one is looked at. */
  function MoveDeployment(i: Instance, specChanged: bool, replicas: Option<int>): Instance
    requires i.worker.Assigned?
  {
    var image := i.worker.image;
    match i.deployment
    case None =>
      i.(deployment := Some(Deployment(image, 1, 0, replicas, 0, 0, 0, 0, 0, false, false)), worker := Resting)
    case Some(d) =>
      if d.image != image || specChanged then
        i.(deployment := Some(d.(image := image, generation := d.generation + 1, replicas := replicas)), worker := Resting)
      else i.(worker := Deployed(i.worker.generation, image))
  }

  /** A true condition is refused once the generation has moved on; any other is written as it is. */
  function ObserveDeployment(i: Instance): Instance
    requires i.worker.Deployed?
  {
    var generation := i.worker.generation;
    if i.deployment.None? then i.(reconciled := Condition(Negative, generation), worker := Resting)
    else if DeploymentFailed(i.deployment.value) then i.(reconciled := Condition(Rejected, generation), worker := Resting)
    else if !DeploymentIsReady(i.deployment.value) then i.(reconciled := Condition(Pending, generation), worker := Resting)
    else if i.generation != generation then i.(worker := Resting)
    else i.(reconciled := Condition(Positive, generation), worker := Verified(generation, i.worker.image))
  }

  function TestConnection(i: Instance, reachable: bool): Instance
    requires i.worker.Verified?
  {
    var generation := i.worker.generation;
    if !reachable then i.(connected := Condition(Negative, generation), worker := Resting)
    else if i.generation != generation then i.(worker := Resting)
    else i.(connected := Condition(Positive, generation), worker := Resting)
  }

  /** Any failing API call in between reports a non-terminal failure and ends the reconcile. */
  function Abort(i: Instance): Instance
    requires !i.worker.Resting?
  {
    i.(reconciled := Condition(Negative, i.worker.generation), worker := Resting)
  }
}
