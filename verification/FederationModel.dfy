/** Remote Unleash resources and the admin secrets they reference. */
module FederationModel {
  import opened Wrappers

  datatype Key = Key(namespace: string, name: string)

  const TOKEN := "token"
  const URL := "url"
  const SECRET_PREFIX := "unleasherator-"

  /** managed says that both labels naming the operator are set; instance is the label naming the instance. */
  datatype Secret = Secret(key: Key, managed: bool, instance: string, authorized: Option<string>, data: map<string, string>)

  datatype Remote = Remote(
    key: Key, url: string, secretName: string, secretNamespace: string, secretKey: string, published: Option<int>)

  /** The operator's own settings, and the two things about strings it learns from libraries: which URLs are https
      with a host, and which letters differ only in case. */
  datatype Operator = Operator(
    cluster: string, namespace: string, boundSecrets: bool, secure: string -> bool, fold: char -> char)

  /** A reference without a namespace means the namespace of the resource. */
  function SecretRef(r: Remote): Key {
    Key(if r.secretNamespace == "" then r.key.namespace else r.secretNamespace, r.secretName)
  }

  function Value(s: Secret, key: string): string { if key in s.data then s.data[key] else "" }

  predicate Owned(s: Secret, instance: string) {
    s.managed && s.instance == instance && StartsWith(s.key.name, SECRET_PREFIX)
  }

  predicate StartsWith(s: string, prefix: string) { |prefix| <= |s| && s[..|prefix|] == prefix }

  /** Both hold the same credential, under the key each side keeps it. */
  predicate TokensEqual(existing: Remote, stored: Secret, incoming: Secret) {
    Value(stored, existing.secretKey) != "" && Value(stored, existing.secretKey) == Value(incoming, TOKEN)
  }

  // ----------------------------------------------------------- authorization

  datatype Denial = ForeignNamespace | NoSecret | OtherNamespace | NotNameBound | NotBound | NoUrl | OtherUrl | NoToken

  predicate NameBound(secretName: string, instance: string) {
    secretName == SECRET_PREFIX + instance || StartsWith(secretName, SECRET_PREFIX + instance + "-")
  }

  /** Who may use an admin secret, and against which server (remoteunleash_validation.go:21-96). */
  function Authorize(operator: string, allowLegacy: bool, secrets: map<Key, Secret>, r: Remote): Result<string, Denial> {
    var crosses := r.secretNamespace != "" && r.secretNamespace != r.key.namespace;
    if crosses && r.secretNamespace != operator then Err(ForeignNamespace)
    else if SecretRef(r) !in secrets then Err(NoSecret)
    else
      var secret := secrets[SecretRef(r)];
      if crosses && secret.authorized.Some? && secret.authorized.value != r.key.namespace then Err(OtherNamespace)
      else if crosses && secret.authorized.None? && allowLegacy && !NameBound(r.secretName, r.key.name) then Err(NotNameBound)
      else if crosses && secret.authorized.None? && !allowLegacy then Err(NotBound)
      else if (secret.authorized.Some? || !allowLegacy) && Value(secret, URL) == "" then Err(NoUrl)
      else if Value(secret, URL) != "" && Value(secret, URL) != r.url then Err(OtherUrl)
      else if Value(secret, r.secretKey) == "" then Err(NoToken)
      else Ok(Value(secret, r.secretKey))
  }

  /** Exactly the resources that may use a secret of the namespace-bound layout: those in the one namespace it is
      stamped for, pointing at the one server it records. */
  lemma BoundSecretServesItsNamespaceOnly(operator: string, allowLegacy: bool, secrets: map<Key, Secret>, r: Remote)
    requires SecretRef(r) in secrets && r.secretNamespace == operator != "" && r.key.namespace != operator
    requires secrets[SecretRef(r)].authorized.Some? && Value(secrets[SecretRef(r)], r.secretKey) != ""
    ensures Authorize(operator, allowLegacy, secrets, r).Ok? <==>
              && r.key.namespace == secrets[SecretRef(r)].authorized.value
              && r.url == Value(secrets[SecretRef(r)], URL) != ""
  {}

  /** Turning the legacy flag off only ever takes access away. */
  lemma LegacyFlagOnlyWidens(operator: string, secrets: map<Key, Secret>, r: Remote)
    ensures Authorize(operator, false, secrets, r).Ok? ==>
              Authorize(operator, true, secrets, r) == Authorize(operator, false, secrets, r)
  {}

  // ----------------------------------------------------- exactly who may use what

  /** The name of an admin secret made for an instance: the instance's own, or that followed by a dash and anything. */
  ghost predicate MadeFor(secretName: string, instance: string) {
    || secretName == "unleasherator-" + instance
    || exists rest :: secretName == "unleasherator-" + instance + "-" + rest
  }

  lemma NameBoundMeansMadeFor(secretName: string, instance: string)
    ensures NameBound(secretName, instance) <==> MadeFor(secretName, instance)
  {
    var start := "unleasherator-" + instance + "-";
    if StartsWith(secretName, start) { assert secretName == start + secretName[|start|..]; }
    if rest :| secretName == start + rest { assert StartsWith(secretName, start); }
  }

  predicate HoldsToken(s: Secret, key: string) { key in s.data && s.data[key] != "" }

  function RecordedUrl(s: Secret): string { if "url" in s.data then s.data["url"] else "" }

  /** A resource may use a secret of its own namespace exactly when that holds a token and records the resource's URL; only
      an unstamped one, under the legacy flag, may record none. */
  lemma OwnSecretServesIff(operator: string, allowLegacy: bool, secrets: map<Key, Secret>, r: Remote)
    requires r.secretNamespace in {"", r.key.namespace}
    ensures Authorize(operator, allowLegacy, secrets, r).Ok? <==>
              && Key(r.key.namespace, r.secretName) in secrets
              && var s := secrets[Key(r.key.namespace, r.secretName)];
                 && HoldsToken(s, r.secretKey)
                 && (if RecordedUrl(s) == "" then s.authorized.None? && allowLegacy else RecordedUrl(s) == r.url)
  {}

  /** An unstamped secret outside the resource's namespace serves it exactly when it lies in the operator's namespace, the
      legacy flag is on, it was named for the resource, it records no other URL, and it holds a token. */
  lemma UnstampedSecretServesIff(operator: string, allowLegacy: bool, secrets: map<Key, Secret>, r: Remote)
    requires r.secretNamespace !in {"", r.key.namespace}
    requires Key(r.secretNamespace, r.secretName) in secrets
             && secrets[Key(r.secretNamespace, r.secretName)].authorized.None?
    ensures var s := secrets[Key(r.secretNamespace, r.secretName)];
            Authorize(operator, allowLegacy, secrets, r).Ok? <==>
              && r.secretNamespace == operator && allowLegacy && MadeFor(r.secretName, r.key.name)
              && RecordedUrl(s) in {"", r.url} && HoldsToken(s, r.secretKey)
  {
    NameBoundMeansMadeFor(r.secretName, r.key.name);
  }

  /** Nobody is ever given anything but the token under the key it names, and nothing from a third namespace. */
  lemma NothingElseIsHandedOut(operator: string, allowLegacy: bool, secrets: map<Key, Secret>, r: Remote)
    requires Authorize(operator, allowLegacy, secrets, r).Ok?
    ensures r.secretNamespace in {"", r.key.namespace, operator}
    ensures var k := Key(if r.secretNamespace == "" then r.key.namespace else r.secretNamespace, r.secretName);
            && k in secrets && HoldsToken(secrets[k], r.secretKey)
            && Authorize(operator, allowLegacy, secrets, r).value == secrets[k].data[r.secretKey]
            && (secrets[k].authorized.Some? && k.namespace != r.key.namespace ==> secrets[k].authorized.value == r.key.namespace)
  {}
}
