/** What a provisioning message leaves of credentials: whether each resource it writes can use its secret, and which
    secrets it deletes. */
module FederationSecrets {
  import opened Wrappers
  import opened ClusterList
  import opened FederationModel
  import opened FederationBuild
  import opened FederationReceive

  lemma {:induction false} WrittenSecretStays(secrets: map<Key, Secret>, entries: seq<Entry>, f: Faults, i: nat)
    requires i < |entries| && entries[i].Admitted? && entries[i].secret.key !in f.secretWrites
    requires forall j :: 0 <= j < |entries| && entries[j].Admitted? && entries[j].secret.key == entries[i].secret.key ==>
               entries[j].secret == entries[i].secret
    ensures var written := WriteSecrets(secrets, entries, f);
            entries[i].secret.key in written && written[entries[i].secret.key] == entries[i].secret
  {
    var last := |entries| - 1;
    if i < last {
      assert forall j :: 0 <= j < last ==> entries[..last][j] == entries[j];
      WrittenSecretStays(secrets, entries[..last], f, i);
    }
  }

  lemma {:induction false} WrittenRemoteStays(remotes: map<Key, Remote>, entries: seq<Entry>, f: Faults, i: nat)
    requires i < |entries| && entries[i].Admitted? && !Fails(f, entries[i].remote.key)
    requires forall j :: 0 <= j < |entries| && entries[j].Admitted? && entries[j].remote.key == entries[i].remote.key ==>
               entries[j].remote == entries[i].remote
    ensures var written := WriteRemotes(remotes, entries, f);
            entries[i].remote.key in written && written[entries[i].remote.key] == entries[i].remote
  {
    var last := |entries| - 1;
    if i < last {
      assert forall j :: 0 <= j < last ==> entries[..last][j] == entries[j];
      WrittenRemoteStays(remotes, entries[..last], f, i);
    }
  }

  const NO_FAULTS := Faults(false, {}, {}, {}, {})

  lemma BuiltEntriesAgree(op: Operator, c: Cluster, m: Message, nonce: string, i: nat, j: nat)
    requires var d := Built(op, m, nonce);
             && op.namespace != "" && i < |d.remotes| && j < |d.remotes|
             && Admissions(op, c, d)[i].Admitted? && Admissions(op, c, d)[j].Admitted?
             && (d.remotes[i].key == d.remotes[j].key || d.secrets[i].key == d.secrets[j].key)
    ensures var e := Admissions(op, c, Built(op, m, nonce));
            e[i].secret == e[j].secret && e[i].remote == e[j].remote
  {
    if Built(op, m, nonce).secrets[i].key == Built(op, m, nonce).secrets[j].key {
      SecretNamesAreDistinct(op, m, nonce, i, j);
    }
  }

  lemma FaultlessProvision(op: Operator, c: Cluster, d: Delivery)
    requires d.remotes != [] && Paired(d) && Effective(op, d) == Provisioned && Aborts !in Admissions(op, c, d)
    ensures var entries := Admissions(op, c, d);
            Deliver(op, c, d, NO_FAULTS) ==
              Cluster(WriteRemotes(c.remotes, entries, NO_FAULTS), WriteSecrets(c.secrets, entries, NO_FAULTS) - Superseded(entries))
  {
    var entries := Admissions(op, c, d);
    assert Superseded(entries) - NO_FAULTS.cleanups == Superseded(entries);
  }

  lemma WrittenEntries(op: Operator, c: Cluster, m: Message, nonce: string, i: nat)
    requires var d := Built(op, m, nonce);
             op.namespace != "" && i < |d.remotes| && Admissions(op, c, d)[i].Admitted?
    ensures var d := Built(op, m, nonce);
            var entries := Admissions(op, c, d);
            var remotes, secrets := WriteRemotes(c.remotes, entries, NO_FAULTS), WriteSecrets(c.secrets, entries, NO_FAULTS);
            && d.remotes[i].key in remotes && remotes[d.remotes[i].key] == entries[i].remote
            && d.secrets[i].key in secrets && secrets[d.secrets[i].key] == d.secrets[i]
  {
    var d := Built(op, m, nonce);
    var entries := Admissions(op, c, d);
    forall j | 0 <= j < |entries| && entries[j].Admitted?
      ensures entries[j].secret.key == entries[i].secret.key ==> entries[j].secret == entries[i].secret
      ensures entries[j].remote.key == entries[i].remote.key ==> entries[j].remote == entries[i].remote
    {
      if entries[j].secret.key == entries[i].secret.key || entries[j].remote.key == entries[i].remote.key {
        BuiltEntriesAgree(op, c, m, nonce, i, j);
      }
    }
    WrittenSecretStays(c.secrets, entries, NO_FAULTS, i);
    WrittenRemoteStays(c.remotes, entries, NO_FAULTS, i);
  }

  lemma AuthorizedWhileItsSecretStays(
    op: Operator, m: Message, nonce: string, r: Remote, secrets: map<Key, Secret>, allowLegacy: bool, i: nat)
    requires var d := Built(op, m, nonce);
             && op.namespace != "" && i < |d.remotes| && m.url != "" && m.token != ""
             && r == d.remotes[i].(published := r.published)
             && (d.secrets[i].key in secrets ==> secrets[d.secrets[i].key] == d.secrets[i])
    ensures Authorize(op.namespace, allowLegacy, secrets, r) == Ok(m.token) <==> Built(op, m, nonce).secrets[i].key in secrets
  {
    EachRemoteReferencesItsSecret(op, m, nonce, i);
  }

  // What a message does to its own secrets, read off the cluster it finds.

  /** The resource may be written: it is new, or agrees with the stored one on server and credential. */
  predicate Admissible(op: Operator, c: Cluster, r: Remote, s: Secret) {
    op.secure(r.url) &&
    (r.key in c.remotes ==>
       var existing := c.remotes[r.key];
       existing.url == r.url && SecretRef(existing) in c.secrets && TokensEqual(existing, c.secrets[SecretRef(existing)], s))
  }

  /** No stored resource of the message references a secret that is gone. */
  predicate Readable(op: Operator, c: Cluster, d: Delivery) {
    forall r :: r in d.remotes && op.secure(r.url) && r.key in c.remotes && c.remotes[r.key].url == r.url ==>
      SecretRef(c.remotes[r.key]) in c.secrets
  }

  lemma AdmittedIffAdmissible(op: Operator, c: Cluster, d: Delivery)
    requires Paired(d)
    ensures Aborts !in Admissions(op, c, d) <==> Readable(op, c, d)
    ensures forall i :: 0 <= i < |d.remotes| ==>
              (Admissions(op, c, d)[i].Admitted? <==> Admissible(op, c, d.remotes[i], d.secrets[i]))
  {
    var entries := Admissions(op, c, d);
    if !Readable(op, c, d) {
      var r :| r in d.remotes && op.secure(r.url) && r.key in c.remotes && c.remotes[r.key].url == r.url
               && SecretRef(c.remotes[r.key]) !in c.secrets;
      var i :| 0 <= i < |d.remotes| && d.remotes[i] == r;
      assert entries[i] == Aborts;
    }
  }

  /** Only this stored resource references the secret. */
  predicate SoleReference(c: Cluster, r: Key, k: Key) {
    r in c.remotes && SecretRef(c.remotes[r]) == k && !ReferencedByOther(c, k, r)
  }

  /** The stored secret passes for an older one of the message's instance in the namespace. */
  predicate PassesForOlder(c: Cluster, m: Message, k: Key, namespace: string) {
    && k in c.secrets && Owned(c.secrets[k], m.name) && Value(c.secrets[k], TOKEN) == m.token
    && (c.secrets[k].authorized == Some(namespace) || (c.secrets[k].authorized == None && !Referenced(c, k)))
  }

  /** The j-th resource of the message takes the i-th secret for one that its own replaces. */
  predicate TakesSecret(op: Operator, c: Cluster, m: Message, nonce: string, i: nat, j: nat)
    requires i < |Built(op, m, nonce).remotes| && j < |Built(op, m, nonce).remotes|
  {
    var d := Built(op, m, nonce);
    var k, r := d.secrets[i].key, d.remotes[j].key;
    && r.namespace != d.remotes[i].key.namespace && Admissible(op, c, d.remotes[j], d.secrets[j])
    && (SoleReference(c, r, k) || (op.boundSecrets && PassesForOlder(c, m, k, r.namespace)))
  }

  lemma NamespacesDetermineSecrets(op: Operator, m: Message, nonce: string, i: nat, j: nat)
    requires op.namespace != "" && i < |Built(op, m, nonce).remotes| && j < |Built(op, m, nonce).remotes|
    ensures var d := Built(op, m, nonce);
            d.secrets[i].key == d.secrets[j].key <==> d.remotes[i].key.namespace == d.remotes[j].key.namespace
  {
    if Built(op, m, nonce).secrets[i].key == Built(op, m, nonce).secrets[j].key { SecretNamesAreDistinct(op, m, nonce, i, j); }
  }

  lemma DiscoveredIff(op: Operator, c: Cluster, m: Message, nonce: string, i: nat, j: nat)
    requires op.namespace != "" && m.token != ""
    requires i < |Built(op, m, nonce).remotes| && j < |Built(op, m, nonce).remotes|
    ensures var d := Built(op, m, nonce);
            d.secrets[i].key in Discovered(op, c, d.remotes[j], d.secrets[j]) <==>
              && d.remotes[j].key.namespace != d.remotes[i].key.namespace && op.boundSecrets
              && PassesForOlder(c, m, d.secrets[i].key, d.remotes[j].key.namespace)
  {
    EachRemoteReferencesItsSecret(op, m, nonce, i);
    EachRemoteReferencesItsSecret(op, m, nonce, j);
    NamespacesDetermineSecrets(op, m, nonce, i, j);
  }

  lemma ReplacedIff(op: Operator, c: Cluster, m: Message, nonce: string, i: nat, j: nat)
    requires op.namespace != "" && i < |Built(op, m, nonce).remotes| && j < |Built(op, m, nonce).remotes|
    requires Built(op, m, nonce).remotes[j].key in c.remotes
    ensures var d := Built(op, m, nonce);
            var r := d.remotes[j].key;
            d.secrets[i].key in Replaced(c, r, c.remotes[r], d.secrets[j]) <==>
              r.namespace != d.remotes[i].key.namespace && SoleReference(c, r, d.secrets[i].key)
  {
    NamespacesDetermineSecrets(op, m, nonce, i, j);
  }

  lemma AdmittedSupersedes(op: Operator, c: Cluster, r: Remote, s: Secret, time: Option<int>, k: Key)
    requires Admit(op, c, r, s, time).Admitted?
    ensures k in Admit(op, c, r, s, time).superseded <==>
              k in Discovered(op, c, r, s) || (r.key in c.remotes && k in Replaced(c, r.key, c.remotes[r.key], s))
  {}

  lemma SupersedesIffTakes(op: Operator, c: Cluster, m: Message, nonce: string, i: nat, j: nat)
    requires op.namespace != "" && m.token != ""
    requires i < |Built(op, m, nonce).remotes| && j < |Built(op, m, nonce).remotes|
    ensures var d := Built(op, m, nonce);
            var e := Admissions(op, c, d)[j];
            e.Admitted? && d.secrets[i].key in e.superseded <==> TakesSecret(op, c, m, nonce, i, j)
  {
    var d := Built(op, m, nonce);
    var r, s, k := d.remotes[j], d.secrets[j], d.secrets[i].key;
    AdmittedIffAdmissible(op, c, d);
    DiscoveredIff(op, c, m, nonce, i, j);
    if r.key in c.remotes { ReplacedIff(op, c, m, nonce, i, j); }
    if Admit(op, c, r, s, d.time).Admitted? { AdmittedSupersedes(op, c, r, s, d.time, k); }
  }

  /** Some resource of the message takes the secret away. */
  predicate LosesSecret(op: Operator, c: Cluster, m: Message, nonce: string, i: nat)
    requires i < |Built(op, m, nonce).remotes|
  {
    exists j: nat :: j < |Built(op, m, nonce).remotes| && TakesSecret(op, c, m, nonce, i, j)
  }

  lemma SupersededIffLost(op: Operator, c: Cluster, m: Message, nonce: string, i: nat)
    requires op.namespace != "" && m.token != "" && i < |Built(op, m, nonce).remotes|
    ensures var d := Built(op, m, nonce);
            d.secrets[i].key in Superseded(Admissions(op, c, d)) <==> LosesSecret(op, c, m, nonce, i)
  {
    var d := Built(op, m, nonce);
    var entries := Admissions(op, c, d);
    if d.secrets[i].key in Superseded(entries) {
      var e :| e in entries && e.Admitted? && d.secrets[i].key in e.superseded;
      var j :| 0 <= j < |entries| && entries[j] == e;
      SupersedesIffTakes(op, c, m, nonce, i, j);
    }
    if LosesSecret(op, c, m, nonce, i) {
      var j: nat :| j < |d.remotes| && TakesSecret(op, c, m, nonce, i, j);
      SupersedesIffTakes(op, c, m, nonce, i, j);
      assert entries[j] in entries;
    }
  }

  /** A provisioning message carried out without failures leaves each resource it may write authorized, with the message's
      token and under either legacy flag, exactly when no other resource of the message takes its secret away: one that
      alone references that secret, or for whose older secret it passes. */
  lemma ProvisionedResourceWorks(
    op: Operator, c: Cluster, m: Message, nonce: string, allowLegacy: bool, i: nat)
    requires var d := Built(op, m, nonce);
             && op.namespace != "" && i < |d.remotes| && Effective(op, d) == Provisioned && m.url != "" && m.token != ""
             && Readable(op, c, d) && Admissible(op, c, d.remotes[i], d.secrets[i])
    ensures var d := Built(op, m, nonce);
            var after := Deliver(op, c, d, NO_FAULTS);
            && d.remotes[i].key in after.remotes
            && (Authorize(op.namespace, allowLegacy, after.secrets, after.remotes[d.remotes[i].key]) == Ok(m.token) <==>
                  !LosesSecret(op, c, m, nonce, i))
  {
    var d := Built(op, m, nonce);
    var after := Deliver(op, c, d, NO_FAULTS);
    AdmittedIffAdmissible(op, c, d);
    FaultlessProvision(op, c, d);
    WrittenEntries(op, c, m, nonce, i);
    AuthorizedWhileItsSecretStays(op, m, nonce, after.remotes[d.remotes[i].key], after.secrets, allowLegacy, i);
    SupersededIffLost(op, c, m, nonce, i);
  }

  /** The cluster holds the message's secrets, if at all, stamped for their own namespaces, and the message's resources
      reference their own secrets or none of the message's. */
  predicate HoldsOwnSecrets(c: Cluster, d: Delivery) {
    && Paired(d)
    && (forall i :: 0 <= i < |d.secrets| && d.secrets[i].key in c.secrets ==>
          c.secrets[d.secrets[i].key].authorized == d.secrets[i].authorized)
    && (forall i, j :: 0 <= i < |d.remotes| && 0 <= j < |d.secrets| && d.remotes[i].key in c.remotes ==>
          (SecretRef(c.remotes[d.remotes[i].key]) == d.secrets[j].key ==> d.secrets[i].key == d.secrets[j].key))
  }

  /** Then no secret is taken away, so everything that may be written works. */
  lemma OwnSecretsAreNotReplaced(op: Operator, c: Cluster, m: Message, nonce: string, i: nat)
    requires op.namespace != "" && i < |Built(op, m, nonce).remotes| && HoldsOwnSecrets(c, Built(op, m, nonce))
    ensures !LosesSecret(op, c, m, nonce, i)
  {
    EachRemoteReferencesItsSecret(op, m, nonce, i);
    forall j: nat | j < |Built(op, m, nonce).remotes| ensures !TakesSecret(op, c, m, nonce, i, j) {
      EachRemoteReferencesItsSecret(op, m, nonce, j);
      NamespacesDetermineSecrets(op, m, nonce, i, j);
    }
  }

  lemma {:induction false} WritingKeepsSecrets(secrets: map<Key, Secret>, entries: seq<Entry>, f: Faults)
    ensures secrets.Keys <= WriteSecrets(secrets, entries, f).Keys
  {
    if entries != [] { WritingKeepsSecrets(secrets, entries[..|entries| - 1], f); }
  }

  lemma SupersededHoldsCredential(op: Operator, c: Cluster, r: Remote, s: Secret, time: Option<int>, k: Key) returns (x: string)
    requires Admit(op, c, r, s, time).Admitted? && k in Admit(op, c, r, s, time).superseded && k in c.secrets
    ensures Value(s, TOKEN) != "" && Value(c.secrets[k], x) == Value(s, TOKEN)
  {
    AdmittedSupersedes(op, c, r, s, time, k);
    x := if k in Discovered(op, c, r, s) then r.secretKey else c.remotes[r.key].secretKey;
  }

  /** Provisioning deletes a secret only when it holds the very credential an incoming secret brings. */
  lemma OnlySameCredentialIsReplaced(op: Operator, c: Cluster, d: Delivery, f: Faults, k: Key)
    requires k in c.secrets && Effective(op, d) == Provisioned && k !in Deliver(op, c, d, f).secrets
    ensures Paired(d)
    ensures exists i, x :: 0 <= i < |d.secrets| && Value(d.secrets[i], TOKEN) != ""
                           && Value(c.secrets[k], x) == Value(d.secrets[i], TOKEN)
  {
    var entries := Admissions(op, c, d);
    WritingKeepsSecrets(c.secrets, entries, f);
    var e :| e in entries && e.Admitted? && k in e.superseded;
    var i :| 0 <= i < |entries| && entries[i] == e;
    var x := SupersededHoldsCredential(op, c, d.remotes[i], d.secrets[i], d.time, k);
  }

  // One such cluster: the resource of one tenant references the secret meant for another.

  const TWO_TENANTS := Message("app", "https://unleash", ["a", "b"], ["here"], "token", "n", Provisioned, None)

  const HOST := Operator("here", "operator", true, url => url == "https://unleash", c => c)

  lemma TwoTenants()
    ensures Tenants("operator", ["a", "b"]) == ["a", "b"]
  {
    assert Trim("a") == "a" && Trim("b") == "b";
    assert Tenants("operator", []) == [];
    assert ["a", "b"][..1] == ["a"] && ["a"][..0] == [];
    assert Tenants("operator", ["a"]) == ["a"];
  }

  predicate Borrowed(c: Cluster) {
    var d := Built(HOST, TWO_TENANTS, "n");
    && |d.remotes| == 2
    && var borrower := RemoteInstance("app", "https://unleash", "a", d.secrets[1].key.name, "operator");
       c == Cluster(map[borrower.key := borrower], map[d.secrets[1].key := d.secrets[1]])
  }

  lemma BorrowerTakesSecret(c: Cluster)
    requires Borrowed(c)
    ensures var d := Built(HOST, TWO_TENANTS, "n");
            && Readable(HOST, c, d) && Admissible(HOST, c, d.remotes[1], d.secrets[1])
            && LosesSecret(HOST, c, TWO_TENANTS, "n", 1)
  {
    TwoTenants();
    var d := Built(HOST, TWO_TENANTS, "n");
    assert d.remotes[0].key in c.remotes && SecretRef(c.remotes[d.remotes[0].key]) == d.secrets[1].key;
    assert TakesSecret(HOST, c, TWO_TENANTS, "n", 1, 0);
  }

  lemma MessageProvisionsHere()
    ensures Effective(HOST, Built(HOST, TWO_TENANTS, "n")) == Provisioned
  {
    assert Names("here", "here");
  }

  /** The message then deletes the second tenant's secret after writing it, and its resource has no credential. */
  lemma BorrowedSecretIsLost() returns (c: Cluster)
    ensures var d := Built(HOST, TWO_TENANTS, "n");
            var after := Deliver(HOST, c, d, NO_FAULTS);
            && |d.remotes| == 2 && d.remotes[1].key in after.remotes
            && forall allow :: Authorize("operator", allow, after.secrets, after.remotes[d.remotes[1].key]) != Ok("token")
  {
    TwoTenants();
    var d := Built(HOST, TWO_TENANTS, "n");
    var borrower := RemoteInstance("app", "https://unleash", "a", d.secrets[1].key.name, "operator");
    c := Cluster(map[borrower.key := borrower], map[d.secrets[1].key := d.secrets[1]]);
    BorrowerTakesSecret(c);
    MessageProvisionsHere();
    ProvisionedResourceWorks(HOST, c, TWO_TENANTS, "n", true, 1);
    ProvisionedResourceWorks(HOST, c, TWO_TENANTS, "n", false, 1);
  }
}
