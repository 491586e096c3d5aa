/** The loops of the ReleaseChannel controller that only read: who needs an update, who is a canary, who is still in
    the batch, whether a group is ready, failed or healthy. */
module FleetScans {
  import opened Wrappers
  import opened ImageVersions
  import opened ChannelModel
  import opened ChannelSteps
  import FleetImages

  // ---------------------------------------------------------- reading the fleet

  method RollbackBaselineOf(images: seq<Image>) returns (baseline: Image)
    ensures baseline == FleetImages.RollbackBaseline(images)
  {
    var deployed := FleetImages.CollectDeployedImages(images);
    if |deployed| != 1 {
      return "";
    }
    return deployed[0];
  }

  /** Whether the target is refused, and from which image run by how many instances. */
  method DowngradeFrom(spec: Spec, images: seq<Image>) returns (deployed: Image, count: nat, refused: bool)
    ensures refused <==> FleetImages.DowngradeRefused(spec.allowDowngrade, spec.image, images)
    ensures FleetImages.Modal(deployed, count) ==
              if refused then FleetImages.FleetImage(images) else FleetImages.Modal("", 0)
    ensures refused ==> deployed in images && count == multiset(images)[deployed]
  {
    if spec.allowDowngrade {
      return "", 0, false;
    }
    deployed, count := FleetImages.ComputeFleetImage(ImageVersion, images);
    if deployed == "" {
      return "", 0, false;
    }
    FleetImages.FleetImageIsModalAndNewest(images);
    if CompareImages(deployed, spec.image) == Some(-1) {
      return deployed, count, true;
    }
    return "", 0, false;
  }

  method ListResolvedImages(fleet: Fleet, order: seq<Name>) returns (images: seq<Image>)
    requires forall n :: n in order ==> n in fleet
    ensures images == ResolvedImages(fleet, order)
  {
    images := [];
    for i := 0 to |order|
      invariant |images| == i && forall j :: 0 <= j < i ==> images[j] == fleet[order[j]].resolved
    {
      images := images + [fleet[order[i]].resolved];
    }
  }

  lemma {:induction false} SelectAppends(names: seq<Name>, keep: Name --> bool, i: nat)
    requires i < |names| && forall n :: n in names ==> keep.requires(n)
    ensures Select(names[..i + 1], keep) ==
              Select(names[..i], keep) + if keep(names[i]) then [names[i]] else []
  {
    if i == 0 {
      assert names[..1] == [names[0]] && names[..0] == [];
    } else {
      var rest := names[1..];
      assert rest[i - 1] == names[i];
      assert names[..i + 1] == [names[0]] + rest[..i] && names[..i] == [names[0]] + rest[..i - 1];
      SelectAppends(rest, keep, i - 1);
    }
  }

  method GetInstancesToUpdate(o: Observation) returns (names: seq<Name>)
    requires Valid(o)
    ensures names == Outdated(o)
  {
    ghost var keep := n requires n in o.fleet => o.fleet[n].resolved != o.spec.image;
    names := [];
    for i := 0 to |o.order|
      invariant names == Select(o.order[..i], keep)
    {
      SelectAppends(o.order, keep, i);
      if o.fleet[o.order[i]].resolved != o.spec.image {
        names := names + [o.order[i]];
      }
    }
    assert o.order[..|o.order|] == o.order;
  }

  method GetCanaryInstances(o: Observation) returns (names: seq<Name>)
    requires Valid(o)
    ensures names == Canaries(o)
  {
    ghost var keep := n requires n in o.fleet => IsCanary(o.spec, o.fleet[n]);
    names := [];
    for i := 0 to |o.order|
      invariant names == Select(o.order[..i], keep)
    {
      SelectAppends(o.order, keep, i);
      if IsCanary(o.spec, o.fleet[o.order[i]]) {
        names := names + [o.order[i]];
      }
    }
    assert o.order[..|o.order|] == o.order;
  }

  method ActiveBatchInstances(o: Observation, batch: Batch) returns (names: seq<Name>)
    requires Valid(o)
    ensures names == Members(o, batch)
  {
    ghost var keep := n => n in batch.names;
    names := [];
    for i := 0 to |o.order|
      invariant names == Select(o.order[..i], keep)
    {
      SelectAppends(o.order, keep, i);
      if o.order[i] in batch.names {
        names := names + [o.order[i]];
      }
    }
    assert o.order[..|o.order|] == o.order;
  }

  method CollectUnsettled(o: Observation, images: map<Name, Image>) returns (names: seq<Name>)
    requires Valid(o)
    ensures names == Unsettled(o, images)
  {
    ghost var keep := n requires n in o.fleet => Lags(images, n, o.fleet[n], o.spec.image);
    names := [];
    for i := 0 to |o.order|
      invariant names == Select(o.order[..i], keep)
    {
      SelectAppends(o.order, keep, i);
      if Lags(images, o.order[i], o.fleet[o.order[i]], o.spec.image) {
        names := names + [o.order[i]];
      }
    }
    assert o.order[..|o.order|] == o.order;
  }

  /** The assigned instances an interrupted batch would still be waiting for. */
  method RecoverActiveBatch(o: Observation, st: Status) returns (batch: Option<Batch>)
    requires Valid(o)
    ensures batch == if Unsettled(o, st.instanceImages) == [] then None
                     else Some(Batch(Unsettled(o, st.instanceImages), o.spec.image, Or(st.startTime, o.now)))
  {
    var names := CollectUnsettled(o, st.instanceImages);
    if |names| == 0 {
      return None;
    }
    var start := if st.startTime.Some? then st.startTime.value else o.now;
    return Some(Batch(names, o.spec.image, start));
  }

  method BreakGlassAssignmentsNeeded(o: Observation, st: Status) returns (needed: bool)
    ensures needed <==> BreakGlassNeeded(o, st)
  {
    if o.spec.breakGlassImage == "" || o.spec.breakGlassImage != o.spec.image {
      return false;
    }
    for i := 0 to |o.order|
      invariant forall n :: n in o.order[..i] ==> ImageOf(st, n) == o.spec.image
    {
      if ImageOf(st, o.order[i]) != o.spec.image {
        return true;
      }
    }
    assert o.order[..|o.order|] == o.order;
    return false;
  }

  method AreUpToDate(o: Observation, st: Status) returns (current: bool)
    requires Valid(o)
    ensures current <==> !NeedsUpdate(o, st)
  {
    var outdated := [];
    for i := 0 to |o.order|
      invariant outdated == [] <==>
                  forall n :: n in o.order[..i] ==> o.fleet[n].resolved == Expected(o.spec, st, o.fleet[n], o.spec.image)
    {
      assert o.order[..i + 1] == o.order[..i] + [o.order[i]];
      if o.fleet[o.order[i]].resolved != Expected(o.spec, st, o.fleet[o.order[i]], o.spec.image) {
        outdated := outdated + [o.order[i]];
      }
    }
    assert o.order[..|o.order|] == o.order;
    return |outdated| == 0;
  }

  method AreInstancesReady(o: Observation, st: Status, names: seq<Name>, target: Image, requireConnected: bool)
    returns (ready: bool)
    requires forall n :: n in names ==> n in o.fleet
    ensures ready <==> AllReady(o, st, names, target, requireConnected)
  {
    for i := 0 to |names|
      invariant AllReady(o, st, names[..i], target, requireConnected)
    {
      var instance := o.fleet[names[i]];
      if instance.resolved != Expected(o.spec, st, instance, target) {
        return false;
      }
      if !Ready(instance) {
        return false;
      }
      if requireConnected && !Connected(instance) {
        return false;
      }
    }
    assert names[..|names|] == names;
    return true;
  }

  method TerminalInstanceFailure(o: Observation, names: seq<Name>) returns (failed: bool)
    requires forall n :: n in names ==> n in o.fleet
    ensures failed <==> AnyTerminal(o, names)
  {
    for i := 0 to |names|
      invariant !AnyTerminal(o, names[..i])
    {
      if TerminallyFailed(o.fleet[names[i]]) {
        return true;
      }
    }
    assert names[..|names|] == names;
    return false;
  }

  method PerformHealthChecks(o: Observation, names: seq<Name>, since: Option<Time>) returns (health: Health)
    requires forall n :: n in names ==> n in o.fleet
    ensures health == HealthOf(o, names, since)
  {
    var initialDelay := DEFAULT_SETTLE;
    if o.spec.initialDelay.Some? {
      initialDelay := o.spec.initialDelay.value;
    }
    if since.Some? {
      var elapsed := o.now - since.value;
      if elapsed < initialDelay {
        return Waiting;
      }
    }
    for i := 0 to |names|
      invariant Probe(o, names[i..]) == Probe(o, names)
    {
      var instance := o.fleet[names[i]];
      if TerminallyFailed(instance) {
        return Broken;
      }
      if !Connected(instance) {
        return Waiting;
      }
      if o.spec.healthEndpoint != "" {
        if names[i] in o.faults.httpBroken {
          return Broken;
        }
        if names[i] in o.faults.httpDown {
          return Waiting;
        }
      }
    }
    return Healthy;
  }

  /** The three checks every group of instances passes, in the order the phases make them. */
  method CheckGate(o: Observation, st: Status, names: seq<Name>, target: Image, since: Option<Time>) returns (gate: Gate)
    requires forall n :: n in names ==> n in o.fleet
    ensures gate == GateOf(o, st, names, target, since)
  {
    var failed := TerminalInstanceFailure(o, names);
    if failed {
      return Rejects;
    }
    var ready := AreInstancesReady(o, st, names, target, true);
    if !ready {
      return NotReady;
    }
    if o.spec.healthChecks {
      var health := PerformHealthChecks(o, names, since);
      if health == Broken {
        return ChecksBroken;
      }
      if health == Waiting {
        return ChecksWaiting;
      }
    }
    return Passed;
  }
}
