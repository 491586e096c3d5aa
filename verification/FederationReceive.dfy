/** What one federation message does to a cluster (internal/controller/remoteunleash_controller.go:560-860): whether it
    provisions, removes or does nothing, which resources it may touch, and what is left when API calls fail. */
module FederationReceive {
  import opened Wrappers
  import opened ClusterList
  import opened FederationModel
  import opened FederationBuild

  datatype Cluster = Cluster(remotes: map<Key, Remote>, secrets: map<Key, Secret>)

  /** Which API calls fail: a read, writes of single secrets and resources, deletions of replaced secrets. A resource
      whose namespace does not exist cannot be written either, but that is tolerated. */
  datatype Faults = Faults(
    reading: bool, secretWrites: set<Key>, remoteWrites: set<Key>, missingNamespaces: set<string>, cleanups: set<Key>)

  // ----------------------------------------------------------------- removal

  /** No basis to trust the message over what has been applied already. */
  predicate Stale(existing: Remote, time: Option<int>) {
    existing.published.Some? && !(time.Some? && time.value > existing.published.value)
  }

  /** The stored resource agrees with the message on server and credential, and the message is not a replay. */
  predicate Removable(c: Cluster, r: Remote, s: Secret, time: Option<int>) {
    r.key in c.remotes &&
    var existing := c.remotes[r.key];
    && !Stale(existing, time) && existing.url == r.url
    && SecretRef(existing) in c.secrets && TokensEqual(existing, c.secrets[SecretRef(existing)], s)
  }

  predicate Paired(d: Delivery) { |d.remotes| == |d.secrets| }

  function Removals(c: Cluster, d: Delivery): (r: set<Key>)
    requires Paired(d)
    ensures r <= c.remotes.Keys
  {
    set i | 0 <= i < |d.remotes| && Removable(c, d.remotes[i], d.secrets[i], d.time) :: d.remotes[i].key
  }

  function ReferencedBy(c: Cluster, keys: set<Key>): set<Key>
    requires keys <= c.remotes.Keys
  {
    set k | k in keys :: SecretRef(c.remotes[k])
  }

  /** Secrets follow only when every resource could be deleted. */
  function AfterRemoval(c: Cluster, d: Delivery, f: Faults): Cluster
    requires Paired(d)
  {
    var gone := Removals(c, d);
    Cluster(c.remotes - (gone - f.remoteWrites),
            if gone !! f.remoteWrites then c.secrets - (ReferencedBy(c, gone) - f.secretWrites) else c.secrets)
  }

  // ------------------------------------------------------------ provisioning

  datatype Entry = Skipped | Aborts | Admitted(remote: Remote, secret: Secret, superseded: set<Key>)

  predicate Referenced(c: Cluster, k: Key) { exists r :: r in c.remotes && SecretRef(c.remotes[r]) == k }

  predicate ReferencedByOther(c: Cluster, k: Key, own: Key) {
    exists r :: r in c.remotes && r != own && SecretRef(c.remotes[r]) == k
  }

  /** Older secrets of the same instance that hold the credential of the incoming one. */
  function Discovered(op: Operator, c: Cluster, r: Remote, s: Secret): set<Key> {
    set k | k in c.secrets && k.namespace in {r.key.namespace, op.namespace} && k != s.key
            && Owned(c.secrets[k], r.key.name)
            && (k.namespace == op.namespace ==>
                  && (c.secrets[k].authorized.Some? ==> c.secrets[k].authorized.value == r.key.namespace)
                  && (c.secrets[k].authorized.None? ==> !Referenced(c, k)))
            && TokensEqual(r, c.secrets[k], s)
  }

  function Replaced(c: Cluster, own: Key, existing: Remote, s: Secret): set<Key> {
    var k := SecretRef(existing);
    if k != s.key && !ReferencedByOther(c, k, own) then {k} else {}
  }

  /** The stamp only moves forward, and a message without a time leaves it alone. */
  function Later(applied: Option<int>, time: Option<int>): Option<int> {
    if applied.Some? && (time.None? || applied.value > time.value) then applied else time
  }

  function Admit(op: Operator, c: Cluster, r: Remote, s: Secret, time: Option<int>): Entry {
    if !op.secure(r.url) then Skipped
    else if r.key !in c.remotes then Admitted(r.(published := time), s, Discovered(op, c, r, s))
    else
      var existing := c.remotes[r.key];
      if existing.url != r.url then Skipped
      else if SecretRef(existing) !in c.secrets then Aborts
      else if !TokensEqual(existing, c.secrets[SecretRef(existing)], s) then Skipped
      else Admitted(r.(published := Later(existing.published, time)), s,
                    Discovered(op, c, r, s) + Replaced(c, r.key, existing, s))
  }

  function Admissions(op: Operator, c: Cluster, d: Delivery): (entries: seq<Entry>)
    requires Paired(d)
    ensures |entries| == |d.remotes|
  {
    seq(|d.remotes|, i requires 0 <= i < |d.remotes| => Admit(op, c, d.remotes[i], d.secrets[i], d.time))
  }

  predicate Fails(f: Faults, k: Key) { k in f.remoteWrites || k.namespace in f.missingNamespaces }

  function WriteSecrets(secrets: map<Key, Secret>, entries: seq<Entry>, f: Faults): map<Key, Secret> {
    if entries == [] then secrets
    else
      var rest, last := WriteSecrets(secrets, entries[..|entries| - 1], f), entries[|entries| - 1];
      if last.Admitted? && last.secret.key !in f.secretWrites then rest[last.secret.key := last.secret] else rest
  }

  function WriteRemotes(remotes: map<Key, Remote>, entries: seq<Entry>, f: Faults): map<Key, Remote> {
    if entries == [] then remotes
    else
      var rest, last := WriteRemotes(remotes, entries[..|entries| - 1], f), entries[|entries| - 1];
      if last.Admitted? && !Fails(f, last.remote.key) then rest[last.remote.key := last.remote] else rest
  }

  predicate SecretFails(entries: seq<Entry>, f: Faults) {
    exists i :: 0 <= i < |entries| && entries[i].Admitted? && entries[i].secret.key in f.secretWrites
  }

  predicate RemoteFails(entries: seq<Entry>, f: Faults) {
    exists i :: 0 <= i < |entries| && entries[i].Admitted? && entries[i].remote.key in f.remoteWrites
  }

  function Superseded(entries: seq<Entry>): set<Key> {
    set e, k | e in entries && e.Admitted? && k in e.superseded :: k
  }

  /** Secrets first, then resources, then the secrets they replace; each group only after the one before went through. */
  function AfterProvision(op: Operator, c: Cluster, d: Delivery, f: Faults): Cluster
    requires Paired(d)
  {
    var entries := Admissions(op, c, d);
    if Aborts in entries then c
    else
      var secrets := WriteSecrets(c.secrets, entries, f);
      if SecretFails(entries, f) then Cluster(c.remotes, secrets)
      else
        var remotes := WriteRemotes(c.remotes, entries, f);
        if RemoteFails(entries, f) then Cluster(remotes, secrets)
        else Cluster(remotes, secrets - (Superseded(entries) - f.cleanups))
  }

  // ----------------------------------------------------------------- delivery

  /** A provisioning message that names other clusters only is a removal here. */
  function Effective(op: Operator, d: Delivery): State {
    if d.state != Provisioned then d.state
    else match Placement(op.fold, op.cluster, d.clusters)
      case Named => Provisioned
      case Excluded => Removed
      case _ => Unknown
  }

  function Deliver(op: Operator, c: Cluster, d: Delivery, f: Faults): Cluster {
    if d.remotes == [] || !Paired(d) || f.reading then c
    else match Effective(op, d)
      case Removed => AfterRemoval(c, d, f)
      case Provisioned => AfterProvision(op, c, d, f)
      case Unknown => c
  }

  // -------------------------------------------------------------- one delivery

  predicate AtMost(a: Option<int>, b: Option<int>) { a.None? || (b.Some? && a.value <= b.value) }

  predicate StampsKept(c: Cluster, after: Cluster) {
    forall k :: k in c.remotes && k in after.remotes ==> AtMost(c.remotes[k].published, after.remotes[k].published)
  }

  lemma {:induction false} WritingRemotes(op: Operator, c: Cluster, d: Delivery, f: Faults, n: nat)
    requires Paired(d) && n <= |d.remotes|
    ensures var written := WriteRemotes(c.remotes, Admissions(op, c, d)[..n], f);
            && c.remotes.Keys <= written.Keys
            && StampsKept(c, Cluster(written, c.secrets))
            && (forall i :: 0 <= i < n && Admissions(op, c, d)[i].Admitted? && !Fails(f, d.remotes[i].key) ==>
                  && d.remotes[i].key in written
                  && AtMost(d.time, written[d.remotes[i].key].published))
  {
    if n > 0 {
      var entries := Admissions(op, c, d);
      assert entries[..n][..n - 1] == entries[..n - 1];
      WritingRemotes(op, c, d, f, n - 1);
    }
  }

  lemma ProvisioningKeepsResources(op: Operator, c: Cluster, d: Delivery, f: Faults)
    requires Paired(d)
    ensures c.remotes.Keys <= AfterProvision(op, c, d, f).remotes.Keys
    ensures StampsKept(c, AfterProvision(op, c, d, f))
  {
    var entries := Admissions(op, c, d);
    assert entries[..|d.remotes|] == entries;
    WritingRemotes(op, c, d, f, |d.remotes|);
  }

  lemma DeliveryKeepsStamps(op: Operator, c: Cluster, d: Delivery, f: Faults)
    ensures StampsKept(c, Deliver(op, c, d, f))
  {
    if Paired(d) { ProvisioningKeepsResources(op, c, d, f); }
  }

  /** Why a delivery may delete a resource: the message says so, for the server and with the credential stored, and
      it is newer than everything applied to the resource. */
  predicate StatedRemoval(op: Operator, c: Cluster, d: Delivery, k: Key) {
    && Paired(d)
    && (d.state == Removed || (d.state == Provisioned && Placement(op.fold, op.cluster, d.clusters) == Excluded))
    && exists i :: 0 <= i < |d.remotes| && d.remotes[i].key == k && Removable(c, d.remotes[i], d.secrets[i], d.time)
  }

  lemma RemovalDeletes(c: Cluster, d: Delivery, f: Faults, k: Key)
    requires Paired(d) && k in c.remotes
    ensures k !in AfterRemoval(c, d, f).remotes <==>
              && k !in f.remoteWrites
              && exists i :: 0 <= i < |d.remotes| && d.remotes[i].key == k && Removable(c, d.remotes[i], d.secrets[i], d.time)
  {}

  /** A delivery deletes a resource exactly when its removal is stated and authenticated and no API call for it fails. */
  lemma DestructionIsStatedAndAuthenticated(op: Operator, c: Cluster, d: Delivery, f: Faults, k: Key)
    requires k in c.remotes
    ensures k !in Deliver(op, c, d, f).remotes <==> StatedRemoval(op, c, d, k) && !f.reading && k !in f.remoteWrites
  {
    if Paired(d) {
      ProvisioningKeepsResources(op, c, d, f);
      RemovalDeletes(c, d, f, k);
    }
  }
}
