/** Both controllers, the cluster and the operators interleaved over one store, and what a run is. */
module Rollout {
  import opened Wrappers
  import opened ChannelModel
  import opened ChannelSteps
  import opened UnleashSteps

  datatype World = World(spec: Spec, status: Status, fleet: Fleet, now: Time)

  datatype Action =
    | Reconcile(order: seq<Name>, faults: Faults)
    | Start(n: Name)
    | Pull(n: Name)
    | Move(n: Name, specChanged: bool, replicas: Option<int>)
    | Look(n: Name)
    | Connect(n: Name, reachable: bool)
    | GiveUp(n: Name)
    | Crash(n: Name)
    | ClusterReports(n: Name, deployment: Deployment)
    | EditInstance(n: Name)
    | Relabel(n: Name, matchesCanary: bool)
    | Join(n: Name, instance: Instance)
    | Leave(n: Name)
    | EditSpec(spec: Spec)
    | Tick(seconds: nat)

  /** An instance that starts to reference the channel has no condition and no reconcile for its new generation. */
  predicate Newcomer(i: Instance) {
    && i.reconciled.observed < i.generation
    && i.connected.observed < i.generation
    && (i.worker.Resting? || i.worker.generation < i.generation)
  }

  predicate Enabled(w: World, a: Action) {
    match a
    case Reconcile(order, _) => Lists(w.fleet, order)
    case Join(n, i) => n !in w.fleet && Newcomer(i)
    case EditSpec(_) => true
    case Tick(_) => true
    case ClusterReports(n, d) =>
      && n in w.fleet && w.fleet[n].deployment.Some?
      && d.image == w.fleet[n].deployment.value.image
      && d.generation == w.fleet[n].deployment.value.generation
      && d.replicas == w.fleet[n].deployment.value.replicas
    case Start(n) => n in w.fleet && w.fleet[n].worker.Resting?
    case Pull(n) => n in w.fleet && w.fleet[n].worker.Started?
    case Move(n, _, _) => n in w.fleet && w.fleet[n].worker.Assigned?
    case Look(n) => n in w.fleet && w.fleet[n].worker.Deployed?
    case Connect(n, _) => n in w.fleet && w.fleet[n].worker.Verified?
    case GiveUp(n) => n in w.fleet && !w.fleet[n].worker.Resting? && !w.fleet[n].worker.Verified?
    case Crash(n) => n in w.fleet
    case EditInstance(n) => n in w.fleet
    case Relabel(n, _) => n in w.fleet
    case Leave(n) => n in w.fleet
  }

  /** The actions that change one instance and nothing else. */
  predicate AboutOne(a: Action) { !a.Reconcile? && !a.Join? && !a.EditSpec? && !a.Tick? && !a.Leave? }

  /** What an action makes of the one instance it is about. */
  function InstanceAfter(w: World, a: Action): Instance
    requires Enabled(w, a) && AboutOne(a)
  {
    var i := w.fleet[a.n];
    match a
    case Start(_) => Begin(i)
    case Pull(n) => ResolveImage(w.spec, w.status, n, i)
    case Move(_, specChanged, replicas) => MoveDeployment(i, specChanged, replicas)
    case Look(_) => ObserveDeployment(i)
    case Connect(_, reachable) => TestConnection(i, reachable)
    case GiveUp(_) => Abort(i)
    case Crash(_) => i.(worker := Resting)
    case ClusterReports(_, d) => i.(deployment := Some(d))
    case EditInstance(_) => i.(generation := i.generation + 1)
    case Relabel(_, matchesCanary) => i.(matchesCanary := matchesCanary)
  }

  function ReconcileStatus(w: World, a: Action): Status
    requires Enabled(w, a) && a.Reconcile?
  {
    ChannelStep(Observe(w.spec, w.fleet, a.order, w.now, a.faults), w.status)
  }

  function Step(w: World, a: Action): World
    requires Enabled(w, a)
  {
    match a
    case Reconcile(_, _) => w.(status := ReconcileStatus(w, a))
    case Join(n, i) => w.(fleet := w.fleet[n := i])
    case Leave(n) => w.(fleet := w.fleet - {n})
    case EditSpec(spec) => w.(spec := spec)
    case Tick(seconds) => w.(now := w.now + seconds)
    case _ => w.(fleet := w.fleet[a.n := InstanceAfter(w, a)])
  }

  /** worlds[k] becomes worlds[k + 1] by actions[k]. */
  predicate Run(worlds: seq<World>, actions: seq<Action>) {
    && |worlds| == |actions| + 1
    && forall k {:trigger actions[k]} :: 0 <= k < |actions| ==>
         Enabled(worlds[k], actions[k]) && worlds[k + 1] == Step(worlds[k], actions[k])
  }

  function Observed(w: World, a: Action): (o: Observation)
    requires Enabled(w, a) && a.Reconcile?
    ensures Valid(o) && o.spec == w.spec && o.fleet == w.fleet && o.now == w.now
    ensures ReconcileStatus(w, a) == ChannelStep(o, w.status)
  {
    Observe(w.spec, w.fleet, a.order, w.now, a.faults)
  }
}
