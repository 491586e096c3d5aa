/** Exactly which admin secrets a migration moves, what it leaves behind, and that the resource can use what it is given. */
module MigrationOutcomes {
  import opened Wrappers
  import opened FederationModel
  import opened FederationBuild
  import opened SecretMigration

  /** The secret the resource references. */
  function LegacyKey(s: Store): Key {
    Key(if s.remote.secretNamespace == "" then s.remote.key.namespace else s.remote.secretNamespace, s.remote.secretName)
  }

  function ReplacementKey(g: Setting, s: Store): Key
    requires LegacyKey(s) in s.secrets
  {
    var token := Value(s.secrets[LegacyKey(s)].secret, s.remote.secretKey);
    Key(g.op.namespace,
        "unleasherator-" + s.remote.key.name + "-" + s.remote.key.namespace + "-admin-key-"
        + g.digest(s.remote.key.name, s.remote.url, token))
  }

  /** Made by the operator for this instance, with a token, not bound to the resource's namespace yet, and referenced by
      nobody else. */
  predicate IsLegacy(g: Setting, s: Store) {
    var k := LegacyKey(s);
    k in s.secrets &&
    var secret := s.secrets[k].secret;
    && secret.managed && secret.instance == s.remote.key.name && StartsWith(secret.key.name, "unleasherator-")
    && HoldsToken(secret, s.remote.secretKey)
    && !(k.namespace == g.op.namespace && secret.authorized == Some(s.remote.key.namespace))
    && forall o :: o in s.others && o != s.remote.key ==> SecretRef(s.others[o]) != k
  }

  /** The server recorded with it is the resource's; where none is recorded, the secret lies in the resource's namespace. */
  predicate ServerAgrees(s: Store)
    requires LegacyKey(s) in s.secrets
  {
    var recorded := RecordedUrl(s.secrets[LegacyKey(s)].secret);
    if recorded == "" then LegacyKey(s).namespace == s.remote.key.namespace else recorded == s.remote.url
  }

  /** Nothing is stored under the name of the replacement, or just the replacement. */
  predicate RoomForIt(g: Setting, s: Store)
    requires LegacyKey(s) in s.secrets
  {
    ReplacementKey(g, s) in s.secrets ==>
      var found := s.secrets[ReplacementKey(g, s)].secret;
      && found.authorized == Some(s.remote.key.namespace) && RecordedUrl(found) == s.remote.url
      && Value(found, "token") == Value(s.secrets[LegacyKey(s)].secret, s.remote.secretKey)
  }

  lemma ConsidersExactly(g: Setting, s: Store)
    ensures Considers(g, s) <==> IsLegacy(g, s) && ServerAgrees(s)
    ensures IsLegacy(g, s) && ServerAgrees(s) ==> (Migrates(g, s) <==> RoomForIt(g, s)) && Wanted(g, s).key == ReplacementKey(g, s)
  {}

  /** An undisturbed attempt replaces the secret exactly when it is one of the operator's own legacy secrets, not shared and
      agreeing on the server, and nothing else has the replacement's name. An attempt that does not even get to look for the
      replacement leaves everything as it was. */
  lemma ReplacesExactly(g: Setting, s: Store)
    requires Sound(g, s) && LegacyKey(s) in s.secrets
    ensures LegacyKey(s) !in Completed(g, s).secrets <==> IsLegacy(g, s) && ServerAgrees(s) && RoomForIt(g, s)
    ensures !(IsLegacy(g, s) && ServerAgrees(s)) ==> Completed(g, s) == s
  {
    ConsidersExactly(g, s);
    MigratesExactlyWhenEligible(g, s);
    CompletedAttempt(g, s);
  }

  /** Where only the replacement's name is taken, the server is on record afterwards, next to all the secret held before. */
  lemma ServerIsRecorded(g: Setting, s: Store)
    requires Sound(g, s) && IsLegacy(g, s) && ServerAgrees(s) && !RoomForIt(g, s)
    ensures var before, after := s.secrets[LegacyKey(s)].secret, Completed(g, s);
            && LegacyKey(s) in after.secrets && after.remote == s.remote
            && RecordedUrl(after.secrets[LegacyKey(s)].secret) == s.remote.url
            && after.secrets[LegacyKey(s)].secret.data.Keys == before.data.Keys + {"url"}
            && (forall x :: x in before.data && x != "url" ==> after.secrets[LegacyKey(s)].secret.data[x] == before.data[x])
            && after.secrets[LegacyKey(s)].secret == before.(data := after.secrets[LegacyKey(s)].secret.data)
  {
    ConsidersExactly(g, s);
    CompletedAttempt(g, s);
    var before := s.secrets[LegacyKey(s)].secret;
    if "url" in before.data { assert before.data.Keys == before.data.Keys + {"url"}; }
  }

  /** No attempt touches any other secret, any other resource, or what the resource says besides its reference. */
  lemma NothingElseMoves(g: Setting, s: Store, k: Key)
    requires Sound(g, s) && LegacyKey(s) in s.secrets && k !in {LegacyKey(s), ReplacementKey(g, s)}
    ensures var after := Completed(g, s);
            && after.others == s.others
            && (k in after.secrets <==> k in s.secrets) && (k in s.secrets ==> after.secrets[k] == s.secrets[k])
            && after.remote == s.remote.(secretName := after.remote.secretName, secretNamespace := after.remote.secretNamespace,
                                         secretKey := after.remote.secretKey)
  {
    CompletedAttempt(g, s);
    ConsidersExactly(g, s);
    if Considers(g, s) { StampingChangesLittle(g, s); }
  }

  function Plain(s: Store): map<Key, Secret> { map k | k in s.secrets :: s.secrets[k].secret }

  /** A migrated resource may use what it was given, whatever the legacy flag says, and gets the token it had, as long as it
      names a server at all. */
  lemma MigratedResourceWorks(g: Setting, s: Store, allowLegacy: bool)
    requires Sound(g, s) && IsLegacy(g, s) && ServerAgrees(s) && RoomForIt(g, s)
    ensures var after := Completed(g, s);
            Authorize(g.op.namespace, allowLegacy, Plain(after), after.remote) ==
              if s.remote.url == "" then Err(NoUrl) else Ok(s.secrets[LegacyKey(s)].secret.data[s.remote.secretKey])
  {
    ConsidersExactly(g, s);
    CompletedAttempt(g, s);
    StampingChangesLittle(g, s);
    PlacingChangesLittle(g, Prepared(g, s));
    ReplacementIsThere(g, s);
    BoundSecretIsAuthorized(g.op.namespace, allowLegacy, Completed(g, s), TokenIn(s.remote, s.secrets[SecretRef(s.remote)]));
  }

  lemma BoundSecretIsAuthorized(operator: string, allowLegacy: bool, s: Store, token: string)
    requires operator != "" && token != "" && s.remote.secretNamespace == operator && SecretRef(s.remote) in s.secrets
    requires var secret := s.secrets[SecretRef(s.remote)].secret;
             && secret.authorized == Some(s.remote.key.namespace)
             && Value(secret, URL) == s.remote.url && Value(secret, s.remote.secretKey) == token
    ensures Authorize(operator, allowLegacy, Plain(s), s.remote) == if s.remote.url == "" then Err(NoUrl) else Ok(token)
  {}

  lemma ReplacementIsThere(g: Setting, s: Store)
    requires Sound(g, s) && Considers(g, s) && Migrates(g, s)
    ensures var wanted, after := Wanted(g, s), Finished(g, Placed(g, Prepared(g, s)), SecretRef(s.remote), Wanted(g, s).key.name);
            && wanted.key in after.secrets
            && Value(after.secrets[wanted.key].secret, TOKEN) == TokenIn(s.remote, s.secrets[SecretRef(s.remote)])
            && Value(after.secrets[wanted.key].secret, URL) == s.remote.url
            && after.secrets[wanted.key].secret.authorized == Some(s.remote.key.namespace)
  {
    StampingChangesLittle(g, s);
    PlacingChangesLittle(g, Prepared(g, s));
  }
}
