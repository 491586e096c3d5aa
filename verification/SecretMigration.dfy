/** Moving a legacy admin secret to the namespace-bound layout (internal/controller/remoteunleash_migration.go:48-249), one
    API call at a time, and what attempts come to that nobody interferes with, however often they are cut short. */
module SecretMigration {
  import opened Wrappers
  import opened FederationModel
  import opened FederationBuild

  datatype Versioned = Versioned(secret: Secret, version: nat)

  /** The resource being migrated, the other resources, and the secrets with their versions. */
  datatype Store = Store(remote: Remote, others: map<Key, Remote>, secrets: map<Key, Versioned>, clock: nat)

  /** The API call a migration makes next, with what it has in hand. */
  datatype Progress =
    | Done
    | Reading(hand: Remote)
    | Checking(hand: Remote, legacy: Versioned)
    | Stamping(hand: Remote, legacy: Versioned)
    | Looking(hand: Remote, legacy: Versioned)
    | Creating(hand: Remote, legacy: Versioned)
    | Repointing(hand: Remote, legacy: Versioned)
    | Deleting(hand: Remote, legacy: Versioned)

  datatype Setting = Setting(op: Operator, digest: (string, string, string) -> string)

  function Write(s: Store, secret: Secret): Store {
    s.(secrets := s.secrets[secret.key := Versioned(secret, s.clock)], clock := s.clock + 1)
  }

  function TokenIn(hand: Remote, legacy: Versioned): string { Value(legacy.secret, hand.secretKey) }

  /** The replacement carries the credential verbatim, under the name a subscriber without a nonce would choose. */
  function Replacement(g: Setting, hand: Remote, token: string): Secret {
    var nonce := g.digest(hand.key.name, hand.url, token);
    AdminSecret(hand.key.name, BoundName(hand.key.name, hand.key.namespace, nonce), g.op.namespace, token, hand.url, hand.key.namespace)
  }

  predicate IsBound(g: Setting, hand: Remote, s: Secret) {
    SecretRef(hand).namespace == g.op.namespace && s.authorized == Some(hand.key.namespace)
  }

  predicate Matches(existing: Secret, wanted: Secret) {
    existing.authorized == wanted.authorized && Value(existing, URL) == Value(wanted, URL)
    && Value(existing, TOKEN) == Value(wanted, TOKEN)
  }

  function Stamped(hand: Remote, s: Secret): Secret { s.(data := s.data[URL := hand.url]) }

  function Repointed(g: Setting, r: Remote, name: string): Remote {
    r.(secretName := name, secretNamespace := g.op.namespace, secretKey := TOKEN)
  }

  // ------------------------------------------------------------ one API call

  function ReadLegacy(g: Setting, s: Store, hand: Remote): Progress {
    var k := SecretRef(hand);
    if k !in s.secrets then Done
    else
      var legacy := s.secrets[k];
      if IsBound(g, hand, legacy.secret) || !Owned(legacy.secret, hand.key.name) || TokenIn(hand, legacy) == "" then Done
      else Checking(hand, legacy)
  }

  /** Another resource references the secret as well. */
  predicate Shared(s: Store, own: Key, k: Key) {
    exists r :: r in s.others && r != own && SecretRef(s.others[r]) == k
  }

  function CheckShared(s: Store, hand: Remote, legacy: Versioned): Progress {
    var recorded := Value(legacy.secret, URL);
    if Shared(s, hand.key, SecretRef(hand)) then Done
    else if recorded == "" && SecretRef(hand).namespace == hand.key.namespace then Stamping(hand, legacy)
    else if recorded == "" || recorded != hand.url then Done
    else Looking(hand, legacy)
  }

  function LookForReplacement(g: Setting, s: Store, hand: Remote, legacy: Versioned): Progress {
    var wanted := Replacement(g, hand, TokenIn(hand, legacy));
    if wanted.key !in s.secrets then Creating(hand, legacy)
    else if Matches(s.secrets[wanted.key].secret, wanted) then Repointing(hand, legacy)
    else Done
  }

  /** The version read is still the stored one. */
  predicate Current(s: Store, k: Key, legacy: Versioned) { k in s.secrets && s.secrets[k].version == legacy.version }

  function Stamp(s: Store, hand: Remote, legacy: Versioned): (Store, Progress) {
    if !Current(s, SecretRef(hand), legacy) then (s, Done)
    else
      var written := Stamped(hand, legacy.secret);
      (Write(s, written), Looking(hand, Versioned(written, s.clock)))
  }

  function Repoint(g: Setting, s: Store, hand: Remote, legacy: Versioned): (Store, Progress) {
    if SecretRef(s.remote) != SecretRef(hand) || s.remote.url != hand.url then (s, Done)
    else
      var name := Replacement(g, hand, TokenIn(hand, legacy)).key.name;
      (s.(remote := Repointed(g, s.remote, name)), Deleting(hand, legacy))
  }

  function Advance(g: Setting, s: Store, p: Progress): (Store, Progress) {
    match p
    case Done => (s, Done)
    case Reading(hand) => (s, ReadLegacy(g, s, hand))
    case Checking(hand, legacy) => (s, CheckShared(s, hand, legacy))
    case Stamping(hand, legacy) => Stamp(s, hand, legacy)
    case Looking(hand, legacy) => (s, LookForReplacement(g, s, hand, legacy))
    case Creating(hand, legacy) =>
      var wanted := Replacement(g, hand, TokenIn(hand, legacy));
      (if wanted.key in s.secrets then s else Write(s, wanted), Repointing(hand, legacy))
    case Repointing(hand, legacy) => Repoint(g, s, hand, legacy)
    case Deleting(hand, legacy) =>
      (if Current(s, SecretRef(hand), legacy) then s.(secrets := s.secrets - {SecretRef(hand)}) else s, Done)
  }

  predicate WellFormed(s: Store) {
    forall k :: k in s.secrets ==> s.secrets[k].secret.key == k && s.secrets[k].version < s.clock
  }

  // ------------------------------------------------------- undisturbed attempts

  function Calls(g: Setting, s: Store, p: Progress, n: nat): (Store, Progress)
    decreases n
  {
    if n == 0 then (s, p)
    else
      var (after, next) := Advance(g, s, p);
      Calls(g, after, next, n - 1)
  }

  /** An attempt makes at most seven calls. */
  function Attempt(g: Setting, s: Store, n: nat): Store { Calls(g, s, Reading(s.remote), n).0 }

  function Completed(g: Setting, s: Store): Store { Attempt(g, s, 7) }

  predicate AssertsUrl(hand: Remote, legacy: Secret) {
    || (Value(legacy, URL) == "" && SecretRef(hand).namespace == hand.key.namespace)
    || (Value(legacy, URL) != "" && Value(legacy, URL) == hand.url)
  }

  /** Legacy, owned by the operator, not shared, and agreeing on the server. */
  predicate Considers(g: Setting, s: Store) {
    var hand, k := s.remote, SecretRef(s.remote);
    k in s.secrets &&
    var legacy := s.secrets[k];
    && !IsBound(g, hand, legacy.secret) && Owned(legacy.secret, hand.key.name) && TokenIn(hand, legacy) != ""
    && !Shared(s, hand.key, k) && AssertsUrl(hand, legacy.secret)
  }

  function Wanted(g: Setting, s: Store): Secret
    requires SecretRef(s.remote) in s.secrets
  {
    Replacement(g, s.remote, TokenIn(s.remote, s.secrets[SecretRef(s.remote)]))
  }

  /** And no conflicting replacement is in the way. */
  predicate Migrates(g: Setting, s: Store) {
    Considers(g, s) &&
    (Wanted(g, s).key in s.secrets ==> Matches(s.secrets[Wanted(g, s).key].secret, Wanted(g, s)))
  }

  lemma {:induction false} DoneStaysDone(g: Setting, s: Store, n: nat)
    ensures Calls(g, s, Done, n) == (s, Done)
  {
    if n > 0 { DoneStaysDone(g, s, n - 1); }
  }

  /** The store the migration looks for its replacement in: stamped, if it recorded no URL. */
  function Prepared(g: Setting, s: Store): Store
    requires Considers(g, s)
  {
    var legacy := s.secrets[SecretRef(s.remote)].secret;
    if Value(legacy, URL) == "" then Write(s, Stamped(s.remote, legacy)) else s
  }

  function Placed(g: Setting, s: Store): Store
    requires SecretRef(s.remote) in s.secrets
  {
    if Wanted(g, s).key in s.secrets then s else Write(s, Wanted(g, s))
  }

  function Finished(g: Setting, s: Store, k: Key, name: string): Store {
    s.(remote := Repointed(g, s.remote, name), secrets := s.secrets - {k})
  }

  predicate Sound(g: Setting, s: Store) { g.op.namespace != "" && WellFormed(s) }

  lemma StampingChangesLittle(g: Setting, s: Store)
    requires Sound(g, s) && Considers(g, s)
    ensures var ready := Prepared(g, s);
            && Sound(g, ready) && Considers(g, ready) && Wanted(g, ready) == Wanted(g, s)
            && ready.remote == s.remote && ready.secrets.Keys == s.secrets.Keys
            && (Migrates(g, ready) <==> Migrates(g, s))
  {}

  lemma PlacingChangesLittle(g: Setting, s: Store)
    requires Sound(g, s) && Migrates(g, s)
    ensures var placed := Placed(g, s);
            && Sound(g, placed) && Migrates(g, placed) && Wanted(g, placed) == Wanted(g, s)
            && placed.remote == s.remote && placed.secrets.Keys == s.secrets.Keys + {Wanted(g, s).key}
            && placed.secrets[SecretRef(s.remote)] == s.secrets[SecretRef(s.remote)]
  {}

  lemma FromRepointing(g: Setting, s: Store, n: nat)
    requires Sound(g, s) && Migrates(g, s) && n >= 2 && Wanted(g, s).key in s.secrets
    ensures var k := SecretRef(s.remote);
            Calls(g, s, Repointing(s.remote, s.secrets[k]), n).0 == Finished(g, s, k, Wanted(g, s).key.name)
  {
    var hand, k := s.remote, SecretRef(s.remote);
    var moved := s.(remote := Repointed(g, s.remote, Wanted(g, s).key.name));
    assert Repoint(g, s, hand, s.secrets[k]) == (moved, Deleting(hand, s.secrets[k]));
    assert Advance(g, moved, Deleting(hand, s.secrets[k])) == (Finished(g, s, k, Wanted(g, s).key.name), Done);
    DoneStaysDone(g, Finished(g, s, k, Wanted(g, s).key.name), n - 2);
  }

  lemma FromLooking(g: Setting, s: Store, n: nat)
    requires Sound(g, s) && Considers(g, s) && n >= 4
    ensures var k := SecretRef(s.remote);
            Calls(g, s, Looking(s.remote, s.secrets[k]), n).0 ==
              if Migrates(g, s) then Finished(g, Placed(g, s), k, Wanted(g, s).key.name) else s
  {
    var hand, k := s.remote, SecretRef(s.remote);
    var legacy := s.secrets[k];
    if !Migrates(g, s) {
      DoneStaysDone(g, s, n - 1);
    } else if Wanted(g, s).key in s.secrets {
      FromRepointing(g, s, n - 1);
    } else {
      PlacingChangesLittle(g, s);
      assert Advance(g, s, Looking(hand, legacy)) == (s, Creating(hand, legacy));
      assert Advance(g, s, Creating(hand, legacy)) == (Placed(g, s), Repointing(hand, legacy));
      FromRepointing(g, Placed(g, s), n - 2);
    }
  }

  /** What a whole undisturbed attempt comes to. */
  lemma CompletedAttempt(g: Setting, s: Store)
    requires Sound(g, s)
    ensures Completed(g, s) ==
              if !Considers(g, s) then s
              else if !Migrates(g, s) then Prepared(g, s)
              else Finished(g, Placed(g, Prepared(g, s)), SecretRef(s.remote), Wanted(g, s).key.name)
  {
    var hand, k := s.remote, SecretRef(s.remote);
    var p := ReadLegacy(g, s, hand);
    assert Advance(g, s, Reading(hand)) == (s, p);
    if !p.Checking? {
      DoneStaysDone(g, s, 6);
    } else {
      var legacy := s.secrets[k];
      var q := CheckShared(s, hand, legacy);
      assert Advance(g, s, p) == (s, q);
      if q.Done? {
        DoneStaysDone(g, s, 5);
      } else if q.Stamping? {
        StampingChangesLittle(g, s);
        var ready := Prepared(g, s);
        assert Advance(g, s, q) == (ready, Looking(hand, ready.secrets[k]));
        FromLooking(g, ready, 4);
      } else {
        FromLooking(g, s, 5);
      }
    }
  }

  /** An undisturbed attempt moves the resource to the replacement and removes the legacy secret exactly when the secret
      is eligible; otherwise it leaves both in place. */
  lemma MigratesExactlyWhenEligible(g: Setting, s: Store)
    requires Sound(g, s) && SecretRef(s.remote) in s.secrets
    ensures Completed(g, s).remote ==
              if Migrates(g, s) then Repointed(g, s.remote, Wanted(g, s).key.name) else s.remote
    ensures SecretRef(s.remote) in Completed(g, s).secrets <==> !Migrates(g, s)
  {
    CompletedAttempt(g, s);
    if Considers(g, s) {
      StampingChangesLittle(g, s);
      if Migrates(g, s) { PlacingChangesLittle(g, Prepared(g, s)); }
    }
  }

  // ------------------------------------------------------------- convergence

  /** Where an undisturbed attempt that began in s stands. */
  predicate OnTheWay(g: Setting, began: Store, s: Store, p: Progress) {
    var hand, k := began.remote, SecretRef(began.remote);
    match p
    case Reading(h) => s == began && h == hand
    case Checking(h, legacy) =>
      s == began && h == hand && k in s.secrets && legacy == s.secrets[k] && ReadLegacy(g, s, hand) == p
    case Stamping(h, legacy) =>
      s == began && h == hand && Considers(g, s) && legacy == s.secrets[k] && Value(legacy.secret, URL) == ""
    case Looking(h, legacy) => h == hand && Considers(g, began) && s == Prepared(g, began) && legacy == s.secrets[k]
    case Creating(h, legacy) =>
      h == hand && Considers(g, began) && s == Prepared(g, began) && legacy == s.secrets[k] && Migrates(g, s)
      && Wanted(g, s).key !in s.secrets
    case Repointing(h, legacy) =>
      h == hand && Considers(g, began) && Migrates(g, Prepared(g, began)) && s == Placed(g, Prepared(g, began))
    case _ => true
  }

  lemma AdvanceStaysOnTheWay(g: Setting, began: Store, s: Store, p: Progress)
    requires Sound(g, began) && OnTheWay(g, began, s, p)
    ensures var (after, next) := Advance(g, s, p); OnTheWay(g, began, after, next)
  {
    if Considers(g, began) { StampingChangesLittle(g, began); }
  }

  lemma {:induction false} CallsStayOnTheWay(g: Setting, began: Store, s: Store, p: Progress, n: nat)
    requires Sound(g, began) && OnTheWay(g, began, s, p)
    ensures var (after, next) := Calls(g, s, p, n); OnTheWay(g, began, after, next)
    decreases n
  {
    if n > 0 {
      AdvanceStaysOnTheWay(g, began, s, p);
      var (after, next) := Advance(g, s, p);
      CallsStayOnTheWay(g, began, after, next, n - 1);
    }
  }

  /** An attempt that stops anywhere before the repoint leaves a store from which the next attempt comes to the same
      reference, and removes the legacy secret in the same cases. */
  lemma RetryConverges(g: Setting, s: Store, n: nat)
    requires Sound(g, s) && SecretRef(s.remote) in s.secrets
    requires var p := Calls(g, s, Reading(s.remote), n).1; !p.Done? && !p.Deleting?
    ensures var stopped := Attempt(g, s, n);
            && Sound(g, stopped) && stopped.remote == s.remote && SecretRef(s.remote) in stopped.secrets
            && Completed(g, stopped).remote == Completed(g, s).remote
            && (SecretRef(s.remote) in Completed(g, stopped).secrets <==> SecretRef(s.remote) in Completed(g, s).secrets)
  {
    CallsStayOnTheWay(g, s, s, Reading(s.remote), n);
    var (stopped, p) := Calls(g, s, Reading(s.remote), n);
    if Considers(g, s) {
      StampingChangesLittle(g, s);
      if Migrates(g, s) { PlacingChangesLittle(g, Prepared(g, s)); }
    }
    MigratesExactlyWhenEligible(g, s);
    MigratesExactlyWhenEligible(g, stopped);
  }

  /** Attempts that each stop before the repoint, one after the other. */
  function Retried(g: Setting, s: Store, stops: seq<nat>): Store
    decreases |stops|
  {
    if stops == [] then s else Retried(g, Attempt(g, s, stops[0]), stops[1..])
  }

  predicate StopEarly(g: Setting, s: Store, stops: seq<nat>)
    decreases |stops|
  {
    stops != [] ==>
      var p := Calls(g, s, Reading(s.remote), stops[0]).1;
      !p.Done? && !p.Deleting? && StopEarly(g, Attempt(g, s, stops[0]), stops[1..])
  }

  /** However often attempts are cut short, the one that is not ends at the same reference. */
  lemma {:induction false} RetriesConverge(g: Setting, s: Store, stops: seq<nat>)
    requires Sound(g, s) && SecretRef(s.remote) in s.secrets && StopEarly(g, s, stops)
    ensures Completed(g, Retried(g, s, stops)).remote == Completed(g, s).remote
    decreases |stops|
  {
    if stops != [] {
      RetryConverges(g, s, stops[0]);
      RetriesConverge(g, Attempt(g, s, stops[0]), stops[1..]);
    }
  }
}
