/** Federation over time: replayed and reordered messages never undo newer ones. */
module FederationRuns {
  import opened Wrappers
  import opened FederationModel
  import opened FederationBuild
  import opened FederationReceive

  // ----------------------------------------------------------- replay safety

  /** The delivery provisions k: it is admitted and written. */
  predicate Applies(op: Operator, c: Cluster, d: Delivery, f: Faults, k: Key) {
    && d.remotes != [] && Paired(d) && !f.reading && Effective(op, d) == Provisioned
    && Aborts !in Admissions(op, c, d)
    && !SecretFails(Admissions(op, c, d), f)
    && exists i :: 0 <= i < |d.remotes| && d.remotes[i].key == k && Admissions(op, c, d)[i].Admitted? && !Fails(f, k)
  }

  lemma AppliedIsStamped(op: Operator, c: Cluster, d: Delivery, f: Faults, k: Key)
    requires Applies(op, c, d, f, k)
    ensures k in Deliver(op, c, d, f).remotes && AtMost(d.time, Deliver(op, c, d, f).remotes[k].published)
  {
    var entries := Admissions(op, c, d);
    assert entries[..|d.remotes|] == entries;
    WritingRemotes(op, c, d, f, |d.remotes|);
  }

  /** A delivery, or anything else that happens to the cluster without turning a stamp back. */
  datatype Event = Delivered(delivery: Delivery, faults: Faults) | Elsewhere(result: Cluster)

  predicate Follows(op: Operator, c: Cluster, e: Event, after: Cluster) {
    match e
    case Delivered(d, f) => after == Deliver(op, c, d, f)
    case Elsewhere(result) => after == result && StampsKept(c, result)
  }

  predicate History(op: Operator, clusters: seq<Cluster>, events: seq<Event>) {
    && |clusters| == |events| + 1
    && forall i {:trigger events[i]} :: 0 <= i < |events| ==> Follows(op, clusters[i], events[i], clusters[i + 1])
  }

  predicate Present(clusters: seq<Cluster>, k: Key, from: nat, to: nat)
    requires to < |clusters|
  {
    forall i :: from <= i <= to ==> k in clusters[i].remotes
  }

  /** While a resource exists, its recorded publish time never decreases. */
  lemma {:induction false} StampsNeverFall(op: Operator, clusters: seq<Cluster>, events: seq<Event>, k: Key, j: nat, i: nat)
    requires History(op, clusters, events) && j <= i < |clusters| && Present(clusters, k, j, i)
    ensures AtMost(clusters[j].remotes[k].published, clusters[i].remotes[k].published)
  {
    if j < i {
      StampsNeverFall(op, clusters, events, k, j, i - 1);
      assert Follows(op, clusters[i - 1], events[i - 1], clusters[i]);
      if events[i - 1].Delivered? {
        DeliveryKeepsStamps(op, clusters[i - 1], events[i - 1].delivery, events[i - 1].faults);
      }
    }
  }

  lemma FirstStamp(op: Operator, clusters: seq<Cluster>, events: seq<Event>, k: Key, j: nat, t: int)
    requires History(op, clusters, events) && j < |events|
    requires events[j].Delivered? && events[j].delivery.time == Some(t)
    requires Applies(op, clusters[j], events[j].delivery, events[j].faults, k)
    ensures k in clusters[j + 1].remotes && AtMost(Some(t), clusters[j + 1].remotes[k].published)
  {
    assert Follows(op, clusters[j], events[j], clusters[j + 1]);
    AppliedIsStamped(op, clusters[j], events[j].delivery, events[j].faults, k);
  }

  lemma DeletionAt(op: Operator, clusters: seq<Cluster>, events: seq<Event>, k: Key, i: nat)
    requires History(op, clusters, events) && i < |events| && events[i].Delivered?
    requires k in clusters[i].remotes && k !in clusters[i + 1].remotes
    ensures StatedRemoval(op, clusters[i], events[i].delivery, k)
    ensures clusters[i].remotes[k].published.Some? ==>
              events[i].delivery.time.Some? && events[i].delivery.time.value > clusters[i].remotes[k].published.value
  {
    assert Follows(op, clusters[i], events[i], clusters[i + 1]);
    DestructionIsStatedAndAuthenticated(op, clusters[i], events[i].delivery, events[i].faults, k);
  }

  /** Once a message published at t has provisioned a resource, no delivery of a message published at or before t, nor
      one without a time, deletes it, however often and in whatever order messages are delivered. */
  lemma NoStaleDeletion(
    op: Operator, clusters: seq<Cluster>, events: seq<Event>, k: Key, j: nat, i: nat, t: int)
    requires History(op, clusters, events) && j < i < |events| && Present(clusters, k, j + 1, i)
    requires events[j].Delivered? && events[j].delivery.time == Some(t)
    requires Applies(op, clusters[j], events[j].delivery, events[j].faults, k)
    requires events[i].Delivered? && k !in clusters[i + 1].remotes
    ensures events[i].delivery.time.Some? && events[i].delivery.time.value > t
    ensures StatedRemoval(op, clusters[i], events[i].delivery, k)
  {
    FirstStamp(op, clusters, events, k, j, t);
    StampsNeverFall(op, clusters, events, k, j + 1, i);
    DeletionAt(op, clusters, events, k, i);
  }
}
