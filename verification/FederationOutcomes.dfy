/** Exactly what one delivered message adds, changes and deletes, in terms of the message and the cluster it finds. */
module FederationOutcomes {
  import opened Wrappers
  import opened ClusterList
  import opened FederationModel
  import opened FederationBuild
  import opened FederationReceive
  import opened FederationSecrets

  // ----------------------------------------------------- what a message asks for

  /** Some entry is the operator's own cluster name, white space aside. */
  predicate NamedHere(op: Operator, clusters: seq<string>) {
    Trim(op.cluster) != "" && exists c :: c in clusters && Trim(c) == Trim(op.cluster)
  }

  /** The list names somebody, and nobody who could be this cluster. */
  predicate NamedElsewhere(op: Operator, clusters: seq<string>) {
    && Trim(op.cluster) != "" && (exists c :: c in clusters && Trim(c) != "")
    && forall c :: c in clusters && Trim(c) != "" ==> !EqualFold(op.fold, Trim(c), Trim(op.cluster))
  }

  /** A provisioning message provisions exactly the clusters it names and removes from those it leaves out; a removal removes
      everywhere; any other message does nothing. */
  lemma WhatIsAskedFor(op: Operator, d: Delivery)
    ensures Effective(op, d) == Provisioned <==> d.state == Provisioned && NamedHere(op, d.clusters)
    ensures Effective(op, d) == Removed <==> d.state == Removed || (d.state == Provisioned && NamedElsewhere(op, d.clusters))
  {
    ExcludedExactlyWhenOthersAreNamed(op.fold, op.cluster, d.clusters);
    if c :| c in d.clusters && Names(op.cluster, c) { assert Trim(c) == Trim(op.cluster); }
    if c :| c in d.clusters && Trim(op.cluster) != "" && Trim(c) == Trim(op.cluster) { assert Names(op.cluster, c); }
    if c :| c in d.clusters && Trim(c) != "" { assert States(c); }
  }

  // ----------------------------------------------------------------- removal

  /** The message tells of k what is stored of it, server and credential, and is not older than what was last applied. */
  predicate Condemned(c: Cluster, d: Delivery, k: Key)
    requires Paired(d) && k in c.remotes
  {
    var stored := c.remotes[k];
    var secret := Key(if stored.secretNamespace == "" then stored.key.namespace else stored.secretNamespace, stored.secretName);
    && secret in c.secrets && HoldsToken(c.secrets[secret], stored.secretKey)
    && (stored.published.Some? ==> d.time.Some? && d.time.value > stored.published.value)
    && exists i :: 0 <= i < |d.remotes| && d.remotes[i].key == k && d.remotes[i].url == stored.url
                   && TOKEN in d.secrets[i].data && d.secrets[i].data[TOKEN] == c.secrets[secret].data[stored.secretKey]
  }

  lemma RemovableIsCondemned(c: Cluster, d: Delivery, k: Key)
    requires Paired(d) && k in c.remotes
    ensures k in Removals(c, d) <==> Condemned(c, d, k)
  {
    if k in Removals(c, d) {
      var i :| 0 <= i < |d.remotes| && Removable(c, d.remotes[i], d.secrets[i], d.time) && d.remotes[i].key == k;
      assert TOKEN in d.secrets[i].data;
    }
    if Condemned(c, d, k) {
      var stored := c.remotes[k];
      var i :| 0 <= i < |d.remotes| && d.remotes[i].key == k && d.remotes[i].url == stored.url
               && TOKEN in d.secrets[i].data && d.secrets[i].data[TOKEN] == c.secrets[SecretRef(stored)].data[stored.secretKey];
      assert Removable(c, d.remotes[i], d.secrets[i], d.time);
    }
  }

  /** Every condemned resource could be deleted, and one of them referenced the secret. */
  predicate Freed(c: Cluster, d: Delivery, f: Faults, s: Key)
    requires Paired(d)
  {
    && (forall k :: k in c.remotes && Condemned(c, d, k) ==> k !in f.remoteWrites)
    && exists k :: k in c.remotes && Condemned(c, d, k) && SecretRef(c.remotes[k]) == s
  }

  /** A removal deletes exactly the condemned resources whose deletion does not fail and, once all of them are gone, exactly
      the secrets they referenced whose deletion does not fail. Nothing else changes. */
  lemma RemovalDeletesExactly(op: Operator, c: Cluster, d: Delivery, f: Faults)
    requires d.remotes != [] && Paired(d) && !f.reading && Effective(op, d) == Removed
    ensures var after := Deliver(op, c, d, f);
            && (forall k :: k in after.remotes <==> k in c.remotes && (k in f.remoteWrites || !Condemned(c, d, k)))
            && (forall k :: k in after.remotes ==> after.remotes[k] == c.remotes[k])
            && (forall s :: s in after.secrets <==> s in c.secrets && (s in f.secretWrites || !Freed(c, d, f, s)))
            && (forall s :: s in after.secrets ==> after.secrets[s] == c.secrets[s])
  {
    forall k | k in c.remotes ensures k in Removals(c, d) <==> Condemned(c, d, k) { RemovableIsCondemned(c, d, k); }
    RemovedSecrets(c, d, f);
  }

  lemma RemovedSecrets(c: Cluster, d: Delivery, f: Faults)
    requires Paired(d)
    requires forall k :: k in c.remotes ==> (k in Removals(c, d) <==> Condemned(c, d, k))
    ensures forall s :: s in AfterRemoval(c, d, f).secrets <==> s in c.secrets && (s in f.secretWrites || !Freed(c, d, f, s))
  {
    var gone := Removals(c, d);
    assert gone !! f.remoteWrites <==> forall k :: k in c.remotes && Condemned(c, d, k) ==> k !in f.remoteWrites;
    assert forall s :: s in ReferencedBy(c, gone) <==> exists k :: k in c.remotes && Condemned(c, d, k) && SecretRef(c.remotes[k]) == s;
  }

  // ------------------------------------------------------------ provisioning

  predicate Writable(op: Operator, c: Cluster, d: Delivery, i: int)
    requires Paired(d)
  {
    0 <= i < |d.remotes| && Admissible(op, c, d.remotes[i], d.secrets[i])
  }

  /** The time recorded after a message is applied: the later of the two that are known. */
  function Latest(stored: Option<int>, time: Option<int>): Option<int> {
    if stored.None? then time else if time.None? then stored
    else Some(if stored.value > time.value then stored.value else time.value)
  }

  function StampOf(c: Cluster, d: Delivery, i: nat): Option<int>
    requires i < |d.remotes|
  {
    if d.remotes[i].key in c.remotes then Latest(c.remotes[d.remotes[i].key].published, d.time) else d.time
  }

  /** An entry is written as the message has it, with the stamp. */
  lemma AdmittedEntry(op: Operator, c: Cluster, d: Delivery, i: nat)
    requires Paired(d) && Writable(op, c, d, i)
    ensures var e := Admissions(op, c, d)[i];
            e.Admitted? && e.remote == d.remotes[i].(published := StampOf(c, d, i)) && e.secret == d.secrets[i]
  {}

  /** The i-th resource is written under k. */
  predicate WritesTo(op: Operator, c: Cluster, d: Delivery, f: Faults, i: int, k: Key)
    requires Paired(d)
  {
    Writable(op, c, d, i) && d.remotes[i].key == k && k !in f.remoteWrites && k.namespace !in f.missingNamespaces
  }

  lemma LastWrite(op: Operator, c: Cluster, d: Delivery, f: Faults, n: nat)
    requires Paired(d) && 0 < n <= |d.remotes|
    ensures var entries := Admissions(op, c, d);
            var k, before := d.remotes[n - 1].key, WriteRemotes(c.remotes, entries[..n - 1], f);
            WriteRemotes(c.remotes, entries[..n], f) ==
              if WritesTo(op, c, d, f, n - 1, k) then before[k := d.remotes[n - 1].(published := StampOf(c, d, n - 1))] else before
  {
    var entries := Admissions(op, c, d);
    assert entries[..n][..n - 1] == entries[..n - 1];
    AdmittedIffAdmissible(op, c, d);
    if Writable(op, c, d, n - 1) { AdmittedEntry(op, c, d, n - 1); }
  }

  lemma {:induction false} WrittenResources(op: Operator, c: Cluster, d: Delivery, f: Faults, n: nat, k: Key)
    requires Paired(d) && n <= |d.remotes|
    ensures var written := WriteRemotes(c.remotes, Admissions(op, c, d)[..n], f);
            if exists i :: i < n && WritesTo(op, c, d, f, i, k) then
              k in written && exists i: nat :: i < n && WritesTo(op, c, d, f, i, k)
                                             && written[k] == d.remotes[i].(published := StampOf(c, d, i))
            else (k in written <==> k in c.remotes) && (k in written ==> written[k] == c.remotes[k])
  {
    if n > 0 {
      LastWrite(op, c, d, f, n);
      WrittenResources(op, c, d, f, n - 1, k);
    }
  }

  /** The message is read through and every secret it brings is written. */
  ghost predicate SecretsGoIn(op: Operator, c: Cluster, d: Delivery, f: Faults)
    requires Paired(d)
  {
    Readable(op, c, d) && forall i :: Writable(op, c, d, i) ==> d.secrets[i].key !in f.secretWrites
  }

  lemma SecretsGoInIff(op: Operator, c: Cluster, d: Delivery, f: Faults)
    requires Paired(d)
    ensures SecretsGoIn(op, c, d, f) <==> Aborts !in Admissions(op, c, d) && !SecretFails(Admissions(op, c, d), f)
  {
    AdmittedIffAdmissible(op, c, d);
    if i :| Writable(op, c, d, i) && d.secrets[i].key in f.secretWrites {
      AdmittedEntry(op, c, d, i);
      assert SecretFails(Admissions(op, c, d), f);
    }
    var entries := Admissions(op, c, d);
    if SecretFails(entries, f) {
      var i :| 0 <= i < |entries| && entries[i].Admitted? && entries[i].secret.key in f.secretWrites;
      assert Writable(op, c, d, i);
      AdmittedEntry(op, c, d, i);
    }
  }

  /** A provisioning message writes a resource exactly when it may be written, all secrets are in and the write goes through,
      and writes it as the message has it, under the later of the two times; every other resource stays what it was. A
      resource with another server or credential, or for a server that is not secure, is never touched. */
  lemma ProvisioningWritesExactly(op: Operator, c: Cluster, d: Delivery, f: Faults, k: Key)
    requires d.remotes != [] && Paired(d) && !f.reading && Effective(op, d) == Provisioned
    ensures var after := Deliver(op, c, d, f).remotes;
            if SecretsGoIn(op, c, d, f) && exists i :: WritesTo(op, c, d, f, i, k) then
              k in after && exists i: nat :: WritesTo(op, c, d, f, i, k) && after[k] == d.remotes[i].(published := StampOf(c, d, i))
            else (k in after <==> k in c.remotes) && (k in after ==> after[k] == c.remotes[k])
  {
    var entries := Admissions(op, c, d);
    assert entries[..|d.remotes|] == entries;
    SecretsGoInIff(op, c, d, f);
    WrittenResources(op, c, d, f, |d.remotes|, k);
  }

  // ------------------------------------------------- secrets of a provisioning

  /** The i-th secret is written under k. */
  predicate WritesSecret(op: Operator, c: Cluster, d: Delivery, f: Faults, i: int, k: Key)
    requires Paired(d)
  {
    Writable(op, c, d, i) && d.secrets[i].key == k && k !in f.secretWrites
  }

  lemma LastSecretWrite(op: Operator, c: Cluster, d: Delivery, f: Faults, n: nat)
    requires Paired(d) && 0 < n <= |d.secrets|
    ensures var entries := Admissions(op, c, d);
            var k, before := d.secrets[n - 1].key, WriteSecrets(c.secrets, entries[..n - 1], f);
            WriteSecrets(c.secrets, entries[..n], f) ==
              if WritesSecret(op, c, d, f, n - 1, k) then before[k := d.secrets[n - 1]] else before
  {
    var entries := Admissions(op, c, d);
    assert entries[..n][..n - 1] == entries[..n - 1];
    AdmittedIffAdmissible(op, c, d);
    if Writable(op, c, d, n - 1) { AdmittedEntry(op, c, d, n - 1); }
  }

  lemma {:induction false} WrittenSecrets(op: Operator, c: Cluster, d: Delivery, f: Faults, n: nat, k: Key)
    requires Paired(d) && n <= |d.secrets|
    ensures var written := WriteSecrets(c.secrets, Admissions(op, c, d)[..n], f);
            if exists i :: i < n && WritesSecret(op, c, d, f, i, k) then
              k in written && exists i: nat :: i < n && WritesSecret(op, c, d, f, i, k) && written[k] == d.secrets[i]
            else (k in written <==> k in c.secrets) && (k in written ==> written[k] == c.secrets[k])
  {
    if n > 0 {
      LastSecretWrite(op, c, d, f, n);
      WrittenSecrets(op, c, d, f, n - 1, k);
    }
  }

  /** The stored secret was made for the instance, holds the credential that comes in, and is nobody else's. */
  predicate Outlived(op: Operator, c: Cluster, r: Remote, s: Secret, k: Key) {
    && k in c.secrets && k.namespace in {r.key.namespace, op.namespace}
    && c.secrets[k].managed && c.secrets[k].instance == r.key.name && StartsWith(c.secrets[k].key.name, "unleasherator-")
    && HoldsToken(c.secrets[k], r.secretKey) && TOKEN in s.data && c.secrets[k].data[r.secretKey] == s.data[TOKEN]
    && (k.namespace == op.namespace ==>
          || c.secrets[k].authorized == Some(r.key.namespace)
          || (c.secrets[k].authorized == None && forall o :: o in c.remotes ==> SecretRef(c.remotes[o]) != k))
  }

  /** The i-th resource turns its back on k: it alone referenced it so far, or k is outlived. */
  predicate Supersedes(op: Operator, c: Cluster, d: Delivery, i: int, k: Key)
    requires Paired(d)
  {
    && Writable(op, c, d, i) && k != d.secrets[i].key
    && (SoleReference(c, d.remotes[i].key, k) || Outlived(op, c, d.remotes[i], d.secrets[i], k))
  }

  lemma DiscoveredIsOutlived(op: Operator, c: Cluster, r: Remote, s: Secret, k: Key)
    ensures k in Discovered(op, c, r, s) <==> k != s.key && Outlived(op, c, r, s, k)
  {}

  lemma SupersededByOne(op: Operator, c: Cluster, d: Delivery, i: nat, k: Key)
    requires Paired(d) && i < |d.remotes|
    ensures var e := Admissions(op, c, d)[i];
            e.Admitted? && k in e.superseded <==> Supersedes(op, c, d, i, k)
  {
    var r, s := d.remotes[i], d.secrets[i];
    AdmittedIffAdmissible(op, c, d);
    DiscoveredIsOutlived(op, c, r, s, k);
    if Admit(op, c, r, s, d.time).Admitted? { AdmittedSupersedes(op, c, r, s, d.time, k); }
  }

  lemma SupersededBySome(op: Operator, c: Cluster, d: Delivery, k: Key)
    requires Paired(d)
    ensures k in Superseded(Admissions(op, c, d)) <==> exists i :: Supersedes(op, c, d, i, k)
  {
    var entries := Admissions(op, c, d);
    if k in Superseded(entries) {
      var e :| e in entries && e.Admitted? && k in e.superseded;
      var i :| 0 <= i < |entries| && entries[i] == e;
      SupersededByOne(op, c, d, i, k);
    }
    if i :| Supersedes(op, c, d, i, k) {
      SupersededByOne(op, c, d, i, k);
      assert entries[i] in entries;
    }
  }

  /** Everything is in, so that what was replaced may go. */
  ghost predicate CleansUp(op: Operator, c: Cluster, d: Delivery, f: Faults)
    requires Paired(d)
  {
    SecretsGoIn(op, c, d, f) && forall i :: Writable(op, c, d, i) ==> d.remotes[i].key !in f.remoteWrites
  }

  lemma CleansUpIff(op: Operator, c: Cluster, d: Delivery, f: Faults)
    requires Paired(d) && SecretsGoIn(op, c, d, f)
    ensures CleansUp(op, c, d, f) <==> !RemoteFails(Admissions(op, c, d), f)
  {
    var entries := Admissions(op, c, d);
    AdmittedIffAdmissible(op, c, d);
    if i :| Writable(op, c, d, i) && d.remotes[i].key in f.remoteWrites {
      AdmittedEntry(op, c, d, i);
      assert RemoteFails(entries, f);
    }
    if RemoteFails(entries, f) {
      var i :| 0 <= i < |entries| && entries[i].Admitted? && entries[i].remote.key in f.remoteWrites;
      assert Writable(op, c, d, i);
      AdmittedEntry(op, c, d, i);
    }
  }

  /** The secret is superseded by a message that is through with everything else, and its deletion does not fail. */
  ghost predicate IsCleanedUp(op: Operator, c: Cluster, d: Delivery, f: Faults, k: Key)
    requires Paired(d)
  {
    CleansUp(op, c, d, f) && k !in f.cleanups && exists i :: Supersedes(op, c, d, i, k)
  }

  /** The secrets after a provisioning message: a message that cannot be read through changes none; otherwise each secret of
      a resource that may be written is written unless that fails, and one that is superseded goes only after all other
      writes went through. */
  lemma ProvisioningSecretsExactly(op: Operator, c: Cluster, d: Delivery, f: Faults, k: Key)
    requires d.remotes != [] && Paired(d) && !f.reading && Effective(op, d) == Provisioned
    ensures var after := Deliver(op, c, d, f).secrets;
            var written := Readable(op, c, d) && exists i :: WritesSecret(op, c, d, f, i, k);
            && (k in after <==> (written || k in c.secrets) && !IsCleanedUp(op, c, d, f, k))
            && (k in after ==>
                  if written then exists i: nat :: WritesSecret(op, c, d, f, i, k) && after[k] == d.secrets[i]
                  else after[k] == c.secrets[k])
  {
    var entries := Admissions(op, c, d);
    assert entries[..|d.secrets|] == entries;
    AdmittedIffAdmissible(op, c, d);
    SecretsGoInIff(op, c, d, f);
    WrittenSecrets(op, c, d, f, |d.secrets|, k);
    SupersededBySome(op, c, d, k);
    if SecretsGoIn(op, c, d, f) { CleansUpIff(op, c, d, f); }
  }

  // ------------------------------------------------------------- what is built

  /** A delivery says what the message says, and every secret in it is one the operator recognizes as its own. */
  lemma DeliveryCarriesMessage(op: Operator, m: Message, nonce: string, i: nat)
    requires i < |Built(op, m, nonce).remotes|
    ensures var d := Built(op, m, nonce);
            && d.clusters == m.clusters && d.state == m.state && d.time == m.time
            && d.remotes[i].key.name == m.name && d.remotes[i].url == m.url && d.remotes[i].published.None?
            && d.secrets[i].managed && d.secrets[i].instance == m.name && StartsWith(d.secrets[i].key.name, "unleasherator-")
            && d.secrets[i].data == map["token" := m.token, "url" := m.url]
            && d.remotes[i].secretKey == "token"
  {}

  /** Another nonce makes another secret for the same tenant, so a new credential never overwrites the one in use. */
  lemma NoncesSeparateSecrets(op: Operator, m: Message, nonce: string, other: string, i: nat, j: nat)
    requires nonce != other && i < |Built(op, m, nonce).remotes| && j < |Built(op, m, other).remotes|
    requires Built(op, m, nonce).remotes[i].key == Built(op, m, other).remotes[j].key
    ensures Built(op, m, nonce).secrets[i].key != Built(op, m, other).secrets[j].key
  {
    var namespace := Built(op, m, nonce).remotes[i].key.namespace;
    EndsApart(SECRET_PREFIX + m.name + "-" + namespace + "-admin-key-", nonce, other);
    EndsApart(SECRET_PREFIX + m.name + "-", nonce, other);
  }

  lemma EndsApart(start: string, a: string, b: string)
    requires a != b
    ensures start + a != start + b
  {
    assert (start + a)[|start|..] == a && (start + b)[|start|..] == b;
  }
}
