/** What a subscriber builds from a federation message (internal/federation/subscriber.go:134-290), and that the
    authorization of the receiving side accepts exactly that. */
module FederationBuild {
  import opened Wrappers
  import opened ClusterList
  import opened FederationModel

  datatype State = Unknown | Provisioned | Removed

  datatype Message = Message(
    name: string, url: string, namespaces: seq<string>, clusters: seq<string>, token: string, nonce: string,
    state: State, time: Option<int>)

  /** What the handler is called with; time is nothing when the transport gave none. */
  datatype Delivery = Delivery(
    remotes: seq<Remote>, secrets: seq<Secret>, clusters: seq<string>, state: State, time: Option<int>)

  datatype Outcome = Ignored | Unnamed | Handled(delivery: Delivery)

  // -------------------------------------------------------- tenant namespaces

  predicate LabelChar(c: char) { 'a' <= c <= 'z' || '0' <= c <= '9' }

  /** RFC 1123 label names, as Kubernetes checks namespaces. */
  predicate ValidLabel(s: string) {
    && 0 < |s| <= 63 && LabelChar(s[0]) && LabelChar(s[|s| - 1])
    && forall i :: 0 <= i < |s| ==> LabelChar(s[i]) || s[i] == '-'
  }

  predicate IsTenant(operator: string, namespace: string) {
    namespace != operator && !StartsWith(namespace, "kube-") && ValidLabel(namespace)
  }

  function Tenants(operator: string, namespaces: seq<string>): (r: seq<string>)
    ensures forall n :: n in r ==> IsTenant(operator, n)
    ensures |r| <= |namespaces|
  {
    if namespaces == [] then []
    else
      var rest, last := Tenants(operator, namespaces[..|namespaces| - 1]), Trim(namespaces[|namespaces| - 1]);
      if IsTenant(operator, last) then rest + [last] else rest
  }

  method TenantNamespaces(operator: string, namespaces: seq<string>) returns (accepted: seq<string>)
    ensures accepted == Tenants(operator, namespaces)
  {
    accepted := [];
    for i := 0 to |namespaces|
      invariant accepted == Tenants(operator, namespaces[..i])
    {
      assert namespaces[..i + 1][..i] == namespaces[..i];
      var namespace := Trim(namespaces[i]);
      if namespace == "" || namespace == operator {
        continue;
      }
      if StartsWith(namespace, "kube-") {
        continue;
      }
      if !ValidLabel(namespace) {
        continue;
      }
      accepted := accepted + [namespace];
    }
    assert namespaces[..|namespaces|] == namespaces;
  }

  /** One to 63 small letters, digits and dashes, no dash at either end, and neither the operator's own nor one that
      Kubernetes reserves. */
  predicate CanBeTenant(operator: string, n: string) {
    && n != operator && !(|n| >= 5 && n[..5] == "kube-")
    && 1 <= |n| <= 63 && n[0] != '-' && n[|n| - 1] != '-'
    && forall i :: 0 <= i < |n| ==> 'a' <= n[i] <= 'z' || '0' <= n[i] <= '9' || n[i] == '-'
  }

  lemma TenantsCanBeTenants(operator: string, n: string)
    ensures IsTenant(operator, n) <==> CanBeTenant(operator, n)
  {
    if CanBeTenant(operator, n) { assert forall i :: 0 <= i < |n| ==> LabelChar(n[i]) || n[i] == '-'; }
  }

  /** A namespace is served exactly when some entry, trimmed, is it and it can be a tenant. */
  lemma {:induction false} ServedExactlyTenants(operator: string, namespaces: seq<string>, n: string)
    ensures n in Tenants(operator, namespaces) <==> CanBeTenant(operator, n) && exists e :: e in namespaces && Trim(e) == n
  {
    TenantsCanBeTenants(operator, n);
    if namespaces != [] {
      var before, last := namespaces[..|namespaces| - 1], namespaces[|namespaces| - 1];
      assert namespaces == before + [last];
      ServedExactlyTenants(operator, before, n);
    }
  }

  // ---------------------------------------------------------------- building

  function AdminSecret(name: string, secretName: string, namespace: string, token: string, url: string, tenant: string): Secret {
    Secret(Key(namespace, secretName), true, name, Some(tenant), map[TOKEN := token, URL := url])
  }

  function RemoteInstance(name: string, url: string, namespace: string, secretName: string, secretNamespace: string): Remote {
    Remote(Key(namespace, name), url, secretName, secretNamespace, TOKEN, None)
  }

  function BoundName(name: string, namespace: string, nonce: string): string {
    SECRET_PREFIX + name + "-" + namespace + "-admin-key-" + nonce
  }

  function LegacyName(name: string, nonce: string): string { SECRET_PREFIX + name + "-" + nonce }

  method HandleMessage(op: Operator, digest: (string, string, string) -> string, m: Message) returns (outcome: Outcome)
    ensures m.state == Removed && m.token == "" ==> outcome == Ignored
    ensures (m.state != Removed || m.token != "") && m.nonce == "" && m.token == "" ==> outcome == Unnamed
    ensures (m.state != Removed || m.token != "") && (m.nonce != "" || m.token != "") ==>
              outcome == Handled(Built(op, m, if m.nonce != "" then m.nonce else digest(m.name, m.url, m.token)))
  {
    if m.state == Removed && m.token == "" {
      return Ignored;
    }
    var nonce := m.nonce;
    if nonce == "" {
      if m.token == "" {
        return Unnamed;
      }
      nonce := digest(m.name, m.url, m.token);
    }
    var namespaces := TenantNamespaces(op.namespace, m.namespaces);
    var remotes, secrets;
    if op.boundSecrets {
      remotes, secrets := BuildBound(op, m, nonce, namespaces);
    } else {
      remotes, secrets := BuildLegacy(op, m, nonce, namespaces);
    }
    return Handled(Delivery(remotes, secrets, m.clusters, m.state, m.time));
  }

  /** Secrets in the operator's namespace, one per tenant, named after it. */
  method BuildBound(op: Operator, m: Message, nonce: string, namespaces: seq<string>)
    returns (remotes: seq<Remote>, secrets: seq<Secret>)
    requires op.boundSecrets
    ensures remotes == RemotesFor(op, m, nonce, namespaces) && secrets == SecretsFor(op, m, nonce, namespaces)
  {
    secrets, remotes := [], [];
    for i := 0 to |namespaces|
      invariant secrets == SecretsFor(op, m, nonce, namespaces)[..i]
      invariant remotes == RemotesFor(op, m, nonce, namespaces)[..i]
    {
      var secretName := BoundName(m.name, namespaces[i], nonce);
      secrets := secrets + [AdminSecret(m.name, secretName, op.namespace, m.token, m.url, namespaces[i])];
      remotes := remotes + [RemoteInstance(m.name, m.url, namespaces[i], secretName, op.namespace)];
    }
  }

  /** Secrets in the tenants' own namespaces, all of one name. */
  method BuildLegacy(op: Operator, m: Message, nonce: string, namespaces: seq<string>)
    returns (remotes: seq<Remote>, secrets: seq<Secret>)
    requires !op.boundSecrets
    ensures remotes == RemotesFor(op, m, nonce, namespaces) && secrets == SecretsFor(op, m, nonce, namespaces)
  {
    var secretName := LegacyName(m.name, nonce);
    secrets, remotes := [], [];
    for i := 0 to |namespaces|
      invariant secrets == SecretsFor(op, m, nonce, namespaces)[..i]
    {
      secrets := secrets + [AdminSecret(m.name, secretName, namespaces[i], m.token, m.url, namespaces[i])];
    }
    for i := 0 to |namespaces|
      invariant remotes == RemotesFor(op, m, nonce, namespaces)[..i]
    {
      remotes := remotes + [RemoteInstance(m.name, m.url, namespaces[i], secretName, "")];
    }
  }

  function SecretFor(op: Operator, m: Message, nonce: string, namespace: string): Secret {
    if op.boundSecrets then
      AdminSecret(m.name, BoundName(m.name, namespace, nonce), op.namespace, m.token, m.url, namespace)
    else AdminSecret(m.name, LegacyName(m.name, nonce), namespace, m.token, m.url, namespace)
  }

  function RemoteFor(op: Operator, m: Message, nonce: string, namespace: string): Remote {
    if op.boundSecrets then RemoteInstance(m.name, m.url, namespace, BoundName(m.name, namespace, nonce), op.namespace)
    else RemoteInstance(m.name, m.url, namespace, LegacyName(m.name, nonce), "")
  }

  function RemotesFor(op: Operator, m: Message, nonce: string, namespaces: seq<string>): (r: seq<Remote>)
    ensures |r| == |namespaces|
  {
    seq(|namespaces|, i requires 0 <= i < |namespaces| => RemoteFor(op, m, nonce, namespaces[i]))
  }

  function SecretsFor(op: Operator, m: Message, nonce: string, namespaces: seq<string>): (r: seq<Secret>)
    ensures |r| == |namespaces|
  {
    seq(|namespaces|, i requires 0 <= i < |namespaces| => SecretFor(op, m, nonce, namespaces[i]))
  }

  /** One secret and one resource for every tenant namespace, in the order of the message. */
  function Built(op: Operator, m: Message, nonce: string): (d: Delivery)
    ensures |d.secrets| == |d.remotes| == |Tenants(op.namespace, m.namespaces)|
  {
    var namespaces := Tenants(op.namespace, m.namespaces);
    Delivery(RemotesFor(op, m, nonce, namespaces), SecretsFor(op, m, nonce, namespaces), m.clusters, m.state, m.time)
  }

  // --------------------------------------------------------------- agreement

  /** In both layouts the i-th resource references the i-th secret, none lives in the operator's namespace, and each
      secret is stamped for the namespace of its resource. */
  lemma EachRemoteReferencesItsSecret(op: Operator, m: Message, nonce: string, i: nat)
    requires op.namespace != "" && i < |Built(op, m, nonce).remotes|
    ensures var d := Built(op, m, nonce);
            && SecretRef(d.remotes[i]) == d.secrets[i].key
            && d.remotes[i].key.namespace != op.namespace
            && d.secrets[i].authorized == Some(d.remotes[i].key.namespace)
            && (op.boundSecrets <==> d.secrets[i].key.namespace == op.namespace)
  {
    assert Tenants(op.namespace, m.namespaces)[i] in Tenants(op.namespace, m.namespaces);
  }

  /** Within a message, two secrets share a name only when they are the same secret. */
  lemma SecretNamesAreDistinct(op: Operator, m: Message, nonce: string, i: nat, j: nat)
    requires i < |Built(op, m, nonce).secrets| && j < |Built(op, m, nonce).secrets|
    requires Built(op, m, nonce).secrets[i].key == Built(op, m, nonce).secrets[j].key
    ensures Built(op, m, nonce).secrets[i] == Built(op, m, nonce).secrets[j]
    ensures Built(op, m, nonce).remotes[i] == Built(op, m, nonce).remotes[j]
  {
    var namespaces := Tenants(op.namespace, m.namespaces);
    if op.boundSecrets {
      var head, tail := SECRET_PREFIX + m.name + "-", "-admin-key-" + nonce;
      assert forall n :: BoundName(m.name, n, nonce) == head + n + tail;
      NameDeterminesNamespace(head, namespaces[i], namespaces[j], tail);
    }
  }

  lemma NameDeterminesNamespace(before: string, a: string, b: string, after: string)
    requires before + a + after == before + b + after
    ensures a == b
  {
    assert |a| == |b|;
    assert (before + a + after)[|before|..|before| + |a|] == a;
    assert (before + b + after)[|before|..|before| + |b|] == b;
  }

  /** Writing objects in turn; the last one under a key stays. */
  function Upserted(secrets: map<Key, Secret>, written: seq<Secret>): map<Key, Secret> {
    if written == [] then secrets
    else Upserted(secrets, written[..|written| - 1])[written[|written| - 1].key := written[|written| - 1]]
  }

  lemma {:induction false} UpsertedHolds(secrets: map<Key, Secret>, written: seq<Secret>, i: nat)
    requires i < |written|
    requires forall j :: 0 <= j < |written| && written[j].key == written[i].key ==> written[j] == written[i]
    ensures written[i].key in Upserted(secrets, written) && Upserted(secrets, written)[written[i].key] == written[i]
  {
    var last := |written| - 1;
    if i < last && written[last].key != written[i].key {
      assert forall j :: 0 <= j < last ==> written[..last][j] == written[j];
      UpsertedHolds(secrets, written[..last], i);
    }
  }

  /** Whatever was there before, once a message's secrets are written each of its resources is authorized and yields
      the message's token, under either legacy flag, exactly when the message carries a URL and a token. */
  lemma ProducerAndValidatorAgree(
    op: Operator, m: Message, nonce: string, before: map<Key, Secret>, allowLegacy: bool, i: nat)
    requires op.namespace != "" && i < |Built(op, m, nonce).remotes|
    ensures var d := Built(op, m, nonce);
            Authorize(op.namespace, allowLegacy, Upserted(before, d.secrets), d.remotes[i]) == Ok(m.token) <==>
              m.url != "" && m.token != ""
  {
    var d := Built(op, m, nonce);
    EachRemoteReferencesItsSecret(op, m, nonce, i);
    forall j | 0 <= j < |d.secrets| && d.secrets[j].key == d.secrets[i].key ensures d.secrets[j] == d.secrets[i] {
      SecretNamesAreDistinct(op, m, nonce, i, j);
    }
    UpsertedHolds(before, d.secrets, i);
  }
}
