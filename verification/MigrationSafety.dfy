/** The migration among others: at every boundary between its API calls the operator may crash or start again,
    federation may deliver to the same resource, and anything else may be written. */
module MigrationSafety {
  import opened Wrappers
  import opened FederationModel
  import opened FederationBuild
  import opened FederationReceive
  import opened SecretMigration

  // ------------------------------------------------------------------- events

  /** The store as a federation delivery sees it. */
  function ClusterOf(s: Store): Cluster {
    Cluster(s.others[s.remote.key := s.remote], map k | k in s.secrets :: s.secrets[k].secret)
  }

  /** What a subscriber of the namespace-bound layout builds for the resource, under a name of the message's choosing. */
  function IncomingRemote(g: Setting, s: Store, name: string): Remote {
    RemoteInstance(s.remote.key.name, s.remote.url, s.remote.key.namespace, name, g.op.namespace)
  }

  function IncomingSecret(g: Setting, s: Store, name: string, token: string): Secret {
    AdminSecret(s.remote.key.name, name, g.op.namespace, token, s.remote.url, s.remote.key.namespace)
  }

  function EntryFor(g: Setting, s: Store, name: string, time: Option<int>, token: string): Entry {
    Admit(g.op, ClusterOf(s), IncomingRemote(g, s, name), IncomingSecret(g, s, name, token), time)
  }

  /** A delivery for the resource, admitted against the store as it is: it writes its secret, repoints the resource, and
      deletes what it supersedes except where a deletion fails. */
  function Federated(g: Setting, s: Store, name: string, time: Option<int>, kept: set<Key>, token: string): Store {
    var entry := EntryFor(g, s, name, time, token);
    if !entry.Admitted? then s
    else Write(s.(secrets := s.secrets - (entry.superseded - kept)), entry.secret).(remote := entry.remote)
  }

  /** A call that succeeds; a call that fails or a crash, either of which ends the migration; a new attempt; a
      federation delivery; anything else that is written. */
  datatype Event =
    | Call
    | Stop
    | Begin
    | Federate(name: string, time: Option<int>, kept: set<Key>)
    | Elsewhere(result: Store)

  function BoundKey(g: Setting, name: string): Key { Key(g.op.namespace, name) }

  function WantedBy(g: Setting, p: Progress): Secret
    requires !p.Done? && !p.Reading?
  {
    Replacement(g, p.hand, TokenIn(p.hand, p.legacy))
  }

  /** Others leave the resource and its credential alone, mark every write with a new version, and put under the name
      of the replacement only the replacement. They do not unstamp a secret that federation stamped under the hands of
      a migration that keeps its credential under another key. */
  predicate LeavesAlone(g: Setting, s: Store, p: Progress, after: Store) {
    && after.remote == s.remote && after.clock >= s.clock && WellFormed(after)
    && (forall k :: k in after.secrets && after.secrets[k].version < s.clock ==>
          k in s.secrets && s.secrets[k] == after.secrets[k])
    && (SecretRef(s.remote) in s.secrets ==>
          && SecretRef(s.remote) in after.secrets
          && Value(after.secrets[SecretRef(s.remote)].secret, s.remote.secretKey) ==
             Value(s.secrets[SecretRef(s.remote)].secret, s.remote.secretKey)
          && (p.Reading? && Fresh(s, p.hand) && p.hand.secretKey != s.remote.secretKey ==>
                after.secrets[SecretRef(s.remote)].secret.authorized == s.secrets[SecretRef(s.remote)].secret.authorized))
    && (p.Creating? || p.Repointing? ==>
          var wanted := WantedBy(g, p);
          && (wanted.key in s.secrets ==> wanted.key in after.secrets)
          && (wanted.key in after.secrets ==>
                after.secrets[wanted.key] == (if wanted.key in s.secrets then s.secrets[wanted.key]
                                              else Versioned(wanted, after.secrets[wanted.key].version))))
  }

  /** A delivery counts the stored secret among those it replaces: it is an older copy of the credential for the resource,
      with the operator's labels, or the resource alone references it. */
  predicate IsReplaced(s: Store, k: Key, token: string)
    requires k in s.secrets
  {
    var secret := s.secrets[k].secret;
    || (&& Owned(secret, s.remote.key.name) && Value(secret, TOKEN) == token
        && (secret.authorized == Some(s.remote.key.namespace)
            || (secret.authorized == None && SecretRef(s.remote) != k && !Shared(s, s.remote.key, k))))
    || (SecretRef(s.remote) == k && !Shared(s, s.remote.key, k))
  }

  /** The stored secret is still there after a delivery under another name: its deletion fails, or it is not replaced. */
  predicate Survives(s: Store, k: Key, kept: set<Key>, token: string) {
    k in s.secrets && (k in kept || !IsReplaced(s, k, token))
  }

  /** Past its checks the migration goes on to look for the replacement, rather than to stamp or to refuse. */
  predicate GoesLooking(hand: Remote, legacy: Versioned) {
    Value(legacy.secret, URL) != "" && Value(legacy.secret, URL) == hand.url
  }

  /** When a delivery may write its secret under the very name a migration under way started from. Before that secret is
      read, while it is stamped and once the resource is repointed: always. In between: if the replacement has that
      very name; or, while the replacement is still looked for, if the migration holds the current credential; or if
      what the migration will find or create under the replacement's name holds it. */
  predicate MayWriteInPlace(g: Setting, s: Store, p: Progress, kept: set<Key>, token: string) {
    if p.Done? || p.Reading? || p.Stamping? || p.Deleting? then true
    else
      var k, held := WantedBy(g, p).key, TokenIn(p.hand, p.legacy) == token;
      k == SecretRef(p.hand) ||
      match p
      case Checking(hand, legacy) => held || !GoesLooking(hand, legacy)
      case Looking(_, _) => held
      case Creating(_, _) => if Survives(s, k, kept, token) then Value(s.secrets[k].secret, TOKEN) == token else held
      case Repointing(_, _) => Survives(s, k, kept, token) && Value(s.secrets[k].secret, TOKEN) == token
      case _ => true
  }

  /** The delivery writes its secret under the name the migration under way started from. */
  predicate InPlace(g: Setting, s: Store, p: Progress, name: string) {
    !p.Done? && BoundKey(g, name) == SecretRef(p.hand) && g.op.secure(s.remote.url)
  }

  predicate Possible(g: Setting, s: Store, p: Progress, e: Event, token: string) {
    match e
    case Call => true
    case Stop => true
    case Begin => p.Done?
    case Federate(name, _, kept) => InPlace(g, s, p, name) ==> MayWriteInPlace(g, s, p, kept, token)
    case Elsewhere(after) => LeavesAlone(g, s, p, after)
  }

  function Happens(g: Setting, token: string, s: Store, p: Progress, e: Event): (Store, Progress) {
    match e
    case Call => Advance(g, s, p)
    case Stop => (s, Done)
    case Begin => (s, Reading(s.remote))
    case Federate(name, time, kept) => (Federated(g, s, name, time, kept, token), p)
    case Elsewhere(after) => (after, p)
  }

  lemma SingleDelivery(op: Operator, c: Cluster, d: Delivery, kept: set<Key>)
    requires |d.remotes| == |d.secrets| == 1 && Effective(op, d) == Provisioned
    ensures var entry := Admit(op, c, d.remotes[0], d.secrets[0], d.time);
            Deliver(op, c, d, Faults(false, {}, {}, {}, kept)) ==
              if !entry.Admitted? then c
              else Cluster(c.remotes[entry.remote.key := entry.remote],
                           c.secrets[entry.secret.key := entry.secret] - (entry.superseded - kept))
  {
    var f := Faults(false, {}, {}, {}, kept);
    var entry := Admit(op, c, d.remotes[0], d.secrets[0], d.time);
    var entries := Admissions(op, c, d);
    assert entries == [entry] && entries[..0] == [];
    assert WriteSecrets(c.secrets, [], f) == c.secrets && WriteRemotes(c.remotes, [], f) == c.remotes;
    if entry.Admitted? {
      assert Superseded(entries) == entry.superseded;
    } else {
      assert Superseded(entries) == {};
    }
  }

  lemma ClusterOfWritten(s: Store, remote: Remote, secret: Secret, dropped: set<Key>)
    requires remote.key == s.remote.key && secret.key !in dropped
    ensures ClusterOf(Write(s.(secrets := s.secrets - dropped), secret).(remote := remote)) ==
              Cluster(ClusterOf(s).remotes[remote.key := remote], ClusterOf(s).secrets[secret.key := secret] - dropped)
  {
    var after := ClusterOf(Write(s.(secrets := s.secrets - dropped), secret).(remote := remote));
    assert after.remotes == ClusterOf(s).remotes[remote.key := remote];
    assert after.secrets == ClusterOf(s).secrets[secret.key := secret] - dropped;
  }

  /** The delivery is the one FederationReceive specifies. */
  lemma FederatedIsDelivery(
    g: Setting, s: Store, name: string, time: Option<int>, kept: set<Key>, token: string, clusters: seq<string>)
    requires WellFormed(s) && Intact(s, token) && token != "" && g.op.namespace != ""
    requires var d := Delivery([IncomingRemote(g, s, name)], [IncomingSecret(g, s, name, token)], clusters, Provisioned, time);
             Effective(g.op, d) == Provisioned
    ensures var d := Delivery([IncomingRemote(g, s, name)], [IncomingSecret(g, s, name, token)], clusters, Provisioned, time);
            ClusterOf(Federated(g, s, name, time, kept, token)) ==
              Deliver(g.op, ClusterOf(s), d, Faults(false, {}, {}, {}, kept))
  {
    var d := Delivery([IncomingRemote(g, s, name)], [IncomingSecret(g, s, name, token)], clusters, Provisioned, time);
    var entry := EntryFor(g, s, name, time, token);
    SingleDelivery(g.op, ClusterOf(s), d, kept);
    DeliveryIsAdmittedOrRefused(g, s, name, time, token);
    if entry.Admitted? { ClusterOfWritten(s, entry.remote, entry.secret, entry.superseded - kept); }
  }

  /** With the stored credential, a delivery is admitted exactly when the server's URL is secure. */
  lemma DeliveryIsAdmittedOrRefused(g: Setting, s: Store, name: string, time: Option<int>, token: string)
    requires Intact(s, token) && token != ""
    ensures var entry := EntryFor(g, s, name, time, token);
            && entry == (if g.op.secure(s.remote.url) then entry else Skipped)
            && (g.op.secure(s.remote.url) ==>
                  && entry.Admitted? && entry.secret == IncomingSecret(g, s, name, token)
                  && entry.remote == IncomingRemote(g, s, name).(published := entry.remote.published)
                  && entry.secret.key !in entry.superseded)
  {
    assert ClusterOf(s).remotes[s.remote.key] == s.remote;
  }

  // ---------------------------------------------------------------- invariant

  /** The resource's reference leads to the credential. */
  predicate Intact(s: Store, token: string) {
    && SecretRef(s.remote) in s.secrets
    && Value(s.secrets[SecretRef(s.remote)].secret, s.remote.secretKey) == token
  }

  /** The premise a migration acts on: the resource still has the reference it had when the migration began. */
  predicate Fresh(s: Store, hand: Remote) { SecretRef(s.remote) == SecretRef(hand) }

  predicate HandAgrees(s: Store, hand: Remote) { hand.key == s.remote.key && hand.url == s.remote.url }

  /** About to read, the migration finds its credential where it expects it, or a secret it will not touch. */
  predicate FindsCredential(g: Setting, s: Store, hand: Remote)
    requires SecretRef(s.remote) in s.secrets
  {
    Fresh(s, hand) ==> hand.secretKey == s.remote.secretKey || IsBound(g, hand, s.secrets[SecretRef(hand)].secret)
  }

  predicate SnapshotAgrees(g: Setting, s: Store, hand: Remote, legacy: Versioned) {
    && HandAgrees(s, hand) && legacy.version < s.clock && legacy.secret.key == SecretRef(hand)
    && !IsBound(g, hand, legacy.secret) && TokenIn(hand, legacy) != ""
    && (Current(s, SecretRef(hand), legacy) ==> s.secrets[SecretRef(hand)] == legacy)
    && (Fresh(s, hand) && Current(s, SecretRef(hand), legacy) ==> hand.secretKey == s.remote.secretKey)
  }

  /** What the migration carries, or would create, is the current credential; or it would create nothing, because its
      replacement has the legacy name. */
  predicate IsSure(g: Setting, s: Store, hand: Remote, legacy: Versioned, token: string) {
    || TokenIn(hand, legacy) == token
    || (Replacement(g, hand, TokenIn(hand, legacy)).key == SecretRef(hand) && s.remote.secretKey == TOKEN)
  }

  predicate StandsIn(s: Store, k: Key, hand: Remote, legacy: Versioned, token: string)
    requires k in s.secrets
  {
    Value(s.secrets[k].secret, TOKEN) == token && (k == SecretRef(hand) ==> s.secrets[k].version != legacy.version)
  }

  predicate RoomForReplacement(g: Setting, s: Store, hand: Remote, legacy: Versioned, token: string) {
    var k := Replacement(g, hand, TokenIn(hand, legacy)).key;
    if k in s.secrets then StandsIn(s, k, hand, legacy, token) else TokenIn(hand, legacy) == token
  }

  predicate ReplacementStands(g: Setting, s: Store, hand: Remote, legacy: Versioned, token: string) {
    var k := Replacement(g, hand, TokenIn(hand, legacy)).key;
    k in s.secrets && StandsIn(s, k, hand, legacy, token)
  }

  predicate Agrees(g: Setting, s: Store, p: Progress, token: string)
    requires SecretRef(s.remote) in s.secrets
  {
    match p
    case Done => true
    case Reading(hand) => HandAgrees(s, hand) && FindsCredential(g, s, hand)
    case Checking(hand, legacy) =>
      SnapshotAgrees(g, s, hand, legacy) && (Fresh(s, hand) && GoesLooking(hand, legacy) ==> IsSure(g, s, hand, legacy, token))
    case Stamping(hand, legacy) => SnapshotAgrees(g, s, hand, legacy) && Value(legacy.secret, URL) == ""
    case Looking(hand, legacy) =>
      SnapshotAgrees(g, s, hand, legacy) && (Fresh(s, hand) ==> IsSure(g, s, hand, legacy, token))
    case Creating(hand, legacy) =>
      SnapshotAgrees(g, s, hand, legacy) && (Fresh(s, hand) ==> RoomForReplacement(g, s, hand, legacy, token))
    case Repointing(hand, legacy) =>
      SnapshotAgrees(g, s, hand, legacy) && (Fresh(s, hand) ==> ReplacementStands(g, s, hand, legacy, token))
    case Deleting(hand, legacy) =>
      legacy.version < s.clock && (Fresh(s, hand) ==> !Current(s, SecretRef(hand), legacy))
  }

  predicate Safe(g: Setting, s: Store, p: Progress, token: string) {
    g.op.namespace != "" && token != "" && WellFormed(s) && Intact(s, token) && Agrees(g, s, p, token)
  }

  // ------------------------------------------------------- every step is safe

  lemma CallIsSafe(g: Setting, s: Store, p: Progress, token: string)
    requires Safe(g, s, p, token)
    ensures var (after, next) := Advance(g, s, p); Safe(g, after, next, token)
  {
    match p
    case Stamping(hand, legacy) => StampIsSafe(g, s, hand, legacy, token);
    case Looking(hand, legacy) => LookIsSafe(g, s, hand, legacy, token);
    case Creating(hand, legacy) => CreateIsSafe(g, s, hand, legacy, token);
    case Repointing(hand, legacy) => RepointIsSafe(g, s, hand, legacy, token);
    case _ =>
  }

  lemma StampIsSafe(g: Setting, s: Store, hand: Remote, legacy: Versioned, token: string)
    requires Safe(g, s, Stamping(hand, legacy), token)
    ensures var (after, next) := Stamp(s, hand, legacy); Safe(g, after, next, token)
  {}

  lemma LookIsSafe(g: Setting, s: Store, hand: Remote, legacy: Versioned, token: string)
    requires Safe(g, s, Looking(hand, legacy), token)
    ensures Safe(g, s, LookForReplacement(g, s, hand, legacy), token)
  {}

  lemma CreateIsSafe(g: Setting, s: Store, hand: Remote, legacy: Versioned, token: string)
    requires Safe(g, s, Creating(hand, legacy), token)
    ensures var (after, next) := Advance(g, s, Creating(hand, legacy)); Safe(g, after, next, token)
  {}

  lemma RepointIsSafe(g: Setting, s: Store, hand: Remote, legacy: Versioned, token: string)
    requires Safe(g, s, Repointing(hand, legacy), token)
    ensures var (after, next) := Repoint(g, s, hand, legacy); Safe(g, after, next, token)
  {}

  lemma OthersAreSafe(g: Setting, s: Store, p: Progress, after: Store, token: string)
    requires Safe(g, s, p, token) && LeavesAlone(g, s, p, after)
    ensures Safe(g, after, p, token)
  {}

  /** What an admitted delivery does, as far as the migration can tell. */
  lemma DeliveryEffect(g: Setting, s: Store, name: string, time: Option<int>, kept: set<Key>, token: string)
    requires g.op.namespace != "" && token != "" && WellFormed(s) && Intact(s, token)
    ensures var after, k := Federated(g, s, name, time, kept, token), BoundKey(g, name);
            && WellFormed(after) && Intact(after, token) && after.others == s.others
            && after.remote.key == s.remote.key && after.remote.url == s.remote.url
            && (after != s ==>
                  && SecretRef(after.remote) == k && after.remote.secretKey == TOKEN && after.clock == s.clock + 1
                  && k in after.secrets && after.secrets[k] == Versioned(IncomingSecret(g, s, name, token), s.clock)
                  && forall x :: x in after.secrets && x != k ==> x in s.secrets && after.secrets[x] == s.secrets[x])
  {
    DeliveryIsAdmittedOrRefused(g, s, name, time, token);
  }

  lemma SharedIsReferencedByOther(s: Store, k: Key)
    ensures ReferencedByOther(ClusterOf(s), k, s.remote.key) <==> Shared(s, s.remote.key, k)
  {
    var c := ClusterOf(s);
    if Shared(s, s.remote.key, k) {
      var r :| r in s.others && r != s.remote.key && SecretRef(s.others[r]) == k;
      assert r in c.remotes && c.remotes[r] == s.others[r];
    }
    if ReferencedByOther(c, k, s.remote.key) {
      var r :| r in c.remotes && r != s.remote.key && SecretRef(c.remotes[r]) == k;
      assert r in s.others && c.remotes[r] == s.others[r];
    }
  }

  /** What a delivery supersedes in the operator's namespace is what it counts among those it replaces. */
  lemma SupersededIffReplaced(g: Setting, s: Store, name: string, time: Option<int>, token: string, k: Key)
    requires Intact(s, token) && token != "" && g.op.secure(s.remote.url) && g.op.namespace != ""
    requires k in s.secrets && s.secrets[k].secret.key == k && k.namespace == g.op.namespace && k != BoundKey(g, name)
    ensures k in EntryFor(g, s, name, time, token).superseded <==> IsReplaced(s, k, token)
  {
    DeliveryIsAdmittedOrRefused(g, s, name, time, token);
    var c := ClusterOf(s);
    assert c.remotes[s.remote.key] == s.remote && c.secrets[k] == s.secrets[k].secret;
    SharedIsReferencedByOther(s, k);
    assert Referenced(c, k) <==> SecretRef(s.remote) == k || ReferencedByOther(c, k, s.remote.key);
  }

  lemma SurvivesIff(g: Setting, s: Store, name: string, time: Option<int>, kept: set<Key>, token: string, k: Key)
    requires WellFormed(s) && Intact(s, token) && token != "" && g.op.secure(s.remote.url) && g.op.namespace != ""
    requires k.namespace == g.op.namespace && k != BoundKey(g, name)
    ensures var after := Federated(g, s, name, time, kept, token);
            && (k in after.secrets <==> Survives(s, k, kept, token))
            && (k in after.secrets ==> after.secrets[k] == s.secrets[k])
  {
    DeliveryIsAdmittedOrRefused(g, s, name, time, token);
    DeliveryEffect(g, s, name, time, kept, token);
    if k in s.secrets { SupersededIffReplaced(g, s, name, time, token, k); }
  }

  lemma DeliveryElsewhereIsSafe(
    g: Setting, s: Store, p: Progress, name: string, time: Option<int>, kept: set<Key>, token: string)
    requires Safe(g, s, p, token) && !InPlace(g, s, p, name)
    ensures Safe(g, Federated(g, s, name, time, kept, token), p, token)
  {
    DeliveryEffect(g, s, name, time, kept, token);
    DeliveryIsAdmittedOrRefused(g, s, name, time, token);
  }

  lemma EarlyOrLateDeliveryIsSafe(
    g: Setting, s: Store, p: Progress, name: string, time: Option<int>, kept: set<Key>, token: string)
    requires Safe(g, s, p, token) && InPlace(g, s, p, name) && MayWriteInPlace(g, s, p, kept, token)
    requires !p.Creating? && !p.Repointing?
    ensures Safe(g, Federated(g, s, name, time, kept, token), p, token)
  {
    DeliveryEffect(g, s, name, time, kept, token);
  }

  lemma DeliveryBeforeRepointIsSafe(
    g: Setting, s: Store, p: Progress, name: string, time: Option<int>, kept: set<Key>, token: string)
    requires Safe(g, s, p, token) && InPlace(g, s, p, name) && MayWriteInPlace(g, s, p, kept, token)
    requires p.Creating? || p.Repointing?
    ensures Safe(g, Federated(g, s, name, time, kept, token), p, token)
  {
    var k := WantedBy(g, p).key;
    DeliveryEffect(g, s, name, time, kept, token);
    if k != SecretRef(p.hand) { SurvivesIff(g, s, name, time, kept, token, k); }
  }

  lemma FederationIsSafe(
    g: Setting, s: Store, p: Progress, name: string, time: Option<int>, kept: set<Key>, token: string)
    requires Safe(g, s, p, token) && Possible(g, s, p, Federate(name, time, kept), token)
    ensures Safe(g, Federated(g, s, name, time, kept, token), p, token)
  {
    if !InPlace(g, s, p, name) {
      DeliveryElsewhereIsSafe(g, s, p, name, time, kept, token);
    } else if !p.Creating? && !p.Repointing? {
      EarlyOrLateDeliveryIsSafe(g, s, p, name, time, kept, token);
    } else {
      DeliveryBeforeRepointIsSafe(g, s, p, name, time, kept, token);
    }
  }

  /** Whatever happens next, the resource's reference still leads to the credential. */
  lemma EveryEventIsSafe(g: Setting, s: Store, p: Progress, e: Event, token: string)
    requires Safe(g, s, p, token) && Possible(g, s, p, e, token)
    ensures var (after, next) := Happens(g, token, s, p, e); Safe(g, after, next, token)
  {
    match e
    case Call => CallIsSafe(g, s, p, token);
    case Federate(name, time, kept) => FederationIsSafe(g, s, p, name, time, kept, token);
    case Elsewhere(after) => OthersAreSafe(g, s, p, after, token);
    case _ =>
  }

  datatype Moment = Moment(store: Store, progress: Progress)

  ghost predicate History(g: Setting, token: string, moments: seq<Moment>, events: seq<Event>) {
    && |moments| == |events| + 1
    && forall i {:trigger events[i]} :: 0 <= i < |events| ==>
         && Possible(g, moments[i].store, moments[i].progress, events[i], token)
         && Happens(g, token, moments[i].store, moments[i].progress, events[i]) == (moments[i + 1].store, moments[i + 1].progress)
  }

  /** At every boundary between API calls, through crashes, retries, deliveries by federation and writes by others, the
      secret the resource references exists and holds the same token. */
  lemma {:induction false} CredentialIsNeverLost(
    g: Setting, token: string, moments: seq<Moment>, events: seq<Event>, i: nat)
    requires History(g, token, moments, events) && i < |moments|
    requires Safe(g, moments[0].store, moments[0].progress, token)
    ensures Safe(g, moments[i].store, moments[i].progress, token) && Intact(moments[i].store, token)
  {
    if i > 0 {
      CredentialIsNeverLost(g, token, moments, events, i - 1);
      EveryEventIsSafe(g, moments[i - 1].store, moments[i - 1].progress, events[i - 1], token);
    }
  }

  /** A migration deletes one secret only, the one it started from, unchanged since it was read, and only once the
      resource leads to the same token elsewhere. */
  lemma OnlyASupersededSecretIsDeleted(g: Setting, s: Store, p: Progress, token: string, k: Key)
    requires Safe(g, s, p, token) && k in s.secrets && k !in Advance(g, s, p).0.secrets
    ensures p.Deleting? && k == SecretRef(p.hand) != SecretRef(s.remote)
    ensures s.secrets[k].version == p.legacy.version && Intact(Advance(g, s, p).0, token)
  {
    CallIsSafe(g, s, p, token);
  }

  // ------------------------------------------------- a delivery under the legacy name

  /** While a migration that holds the current credential acts on a premise that still stands, the only moment at which a
      delivery under the legacy name can do harm is right before the repoint. */
  lemma OnlyRepointingCanBreak(g: Setting, s: Store, p: Progress, kept: set<Key>, token: string)
    requires Safe(g, s, p, token) && !p.Done? && Fresh(s, p.hand)
    requires !p.Reading? ==> TokenIn(p.hand, p.legacy) == token
    ensures !MayWriteInPlace(g, s, p, kept, token) ==> p.Repointing?
  {}

  lemma RepointOutcome(g: Setting, s: Store, hand: Remote, legacy: Versioned, token: string)
    requires g.op.namespace != "" && Fresh(s, hand) && s.remote.url == hand.url
    ensures var k := Replacement(g, hand, TokenIn(hand, legacy)).key;
            Intact(Repoint(g, s, hand, legacy).0, token) <==> k in s.secrets && Value(s.secrets[k].secret, TOKEN) == token
  {}

  /** There, whether the premise stood or not, the repoint that follows keeps the credential exactly when the legacy key is
      the replacement's own, or the stored replacement holds the credential and survives the delivery. */
  lemma RepointAfterFederationInPlace(
    g: Setting, s: Store, hand: Remote, legacy: Versioned, name: string, time: Option<int>, kept: set<Key>, token: string)
    requires Safe(g, s, Repointing(hand, legacy), token) && InPlace(g, s, Repointing(hand, legacy), name)
    ensures var after := Federated(g, s, name, time, kept, token);
            var k := Replacement(g, hand, TokenIn(hand, legacy)).key;
            Intact(Repoint(g, after, hand, legacy).0, token) <==>
              k == SecretRef(hand) || (Survives(s, k, kept, token) && Value(s.secrets[k].secret, TOKEN) == token)
  {
    var k := Replacement(g, hand, TokenIn(hand, legacy)).key;
    DeliveryEffect(g, s, name, time, kept, token);
    DeliveryIsAdmittedOrRefused(g, s, name, time, token);
    RepointOutcome(g, Federated(g, s, name, time, kept, token), hand, legacy, token);
    if k != SecretRef(hand) { SurvivesIff(g, s, name, time, kept, token, k); }
  }

  lemma ReplacementIsOwned(g: Setting, hand: Remote, token: string)
    ensures Owned(Replacement(g, hand, token), hand.key.name)
  {
    var nonce := g.digest(hand.key.name, hand.url, token);
    var name := BoundName(hand.key.name, hand.key.namespace, nonce);
    assert name == SECRET_PREFIX + (hand.key.name + "-" + hand.key.namespace + "-admin-key-" + nonce);
  }

  /** So for a replacement the migration created and a delivery carried out in full, exactly when the legacy key is the
      replacement's. */
  lemma CreatedReplacementNeedsLegacyKey(
    g: Setting, s: Store, hand: Remote, legacy: Versioned, name: string, time: Option<int>, token: string)
    requires Safe(g, s, Repointing(hand, legacy), token) && InPlace(g, s, Repointing(hand, legacy), name)
    requires Fresh(s, hand) && TokenIn(hand, legacy) == token
    requires var wanted := Replacement(g, hand, token); s.secrets[wanted.key].secret == wanted
    ensures Intact(Repoint(g, Federated(g, s, name, time, {}, token), hand, legacy).0, token) <==>
              Replacement(g, hand, token).key == SecretRef(hand)
  {
    ReplacementIsOwned(g, hand, token);
    RepointAfterFederationInPlace(g, s, hand, legacy, name, time, {}, token);
  }

  // ------------------------------------------ every delivery that is left out does harm

  /** What a list of events makes of a moment. */
  function Outcome(g: Setting, token: string, s: Store, p: Progress, events: seq<Event>): (Store, Progress)
    decreases |events|
  {
    if events == [] then (s, p)
    else
      var (after, next) := Happens(g, token, s, p, events[0]);
      Outcome(g, token, after, next, events[1..])
  }

  predicate AllPossible(g: Setting, token: string, s: Store, p: Progress, events: seq<Event>)
    decreases |events|
  {
    events == [] ||
    var (after, next) := Happens(g, token, s, p, events[0]);
    Possible(g, s, p, events[0], token) && AllPossible(g, token, after, next, events[1..])
  }

  /** The events may follow, and they end with the credential lost. */
  predicate Loses(g: Setting, token: string, s: Store, p: Progress, events: seq<Event>) {
    AllPossible(g, token, s, p, events) && !Intact(Outcome(g, token, s, p, events).0, token)
  }

  lemma PrefixLoses(g: Setting, token: string, s: Store, p: Progress, e: Event, events: seq<Event>)
    requires Possible(g, s, p, e, token)
    requires var (after, next) := Happens(g, token, s, p, e); Loses(g, token, after, next, events)
    ensures Loses(g, token, s, p, [e] + events)
  {
    assert ([e] + events)[1..] == events;
  }

  lemma LosesFromRepointing(g: Setting, token: string, s: Store, hand: Remote, legacy: Versioned)
    requires g.op.namespace != "" && Fresh(s, hand) && HandAgrees(s, hand)
    requires var k := Replacement(g, hand, TokenIn(hand, legacy)).key;
             k !in s.secrets || Value(s.secrets[k].secret, TOKEN) != token
    ensures Loses(g, token, s, Repointing(hand, legacy), [Call])
  {
    var (after, next) := Repoint(g, s, hand, legacy);
    assert !Intact(after, token);
    assert Loses(g, token, after, next, []);
    PrefixLoses(g, token, s, Repointing(hand, legacy), Call, []);
    assert [Call] + [] == [Call];
  }

  lemma LosesFromCreating(g: Setting, token: string, s: Store, hand: Remote, legacy: Versioned)
    requires g.op.namespace != "" && Fresh(s, hand) && HandAgrees(s, hand)
    requires var k := Replacement(g, hand, TokenIn(hand, legacy)).key;
             if k in s.secrets then Value(s.secrets[k].secret, TOKEN) != token else TokenIn(hand, legacy) != token
    ensures Loses(g, token, s, Creating(hand, legacy), [Call, Call])
  {
    var (after, next) := Advance(g, s, Creating(hand, legacy));
    LosesFromRepointing(g, token, after, hand, legacy);
    PrefixLoses(g, token, s, Creating(hand, legacy), Call, [Call]);
    assert [Call] + [Call] == [Call, Call];
  }

  lemma LosesFromLooking(g: Setting, token: string, s: Store, hand: Remote, legacy: Versioned)
    requires g.op.namespace != "" && Fresh(s, hand) && HandAgrees(s, hand) && TokenIn(hand, legacy) != token
    requires Replacement(g, hand, TokenIn(hand, legacy)).key !in s.secrets
    ensures Loses(g, token, s, Looking(hand, legacy), [Call, Call, Call])
  {
    LosesFromCreating(g, token, s, hand, legacy);
    PrefixLoses(g, token, s, Looking(hand, legacy), Call, [Call, Call]);
    assert [Call] + [Call, Call] == [Call, Call, Call];
  }

  /** Others may drop the replacement and unshare the legacy secret while the migration has not looked yet. */
  function Swept(s: Store, k: Key): Store { s.(secrets := s.secrets - {k}, others := map[]) }

  lemma SweepingIsPossible(g: Setting, s: Store, p: Progress, k: Key, token: string)
    requires WellFormed(s) && Intact(s, token) && SecretRef(s.remote) != k && (p.Checking? || p.Looking?)
    ensures Possible(g, s, p, Elsewhere(Swept(s, k)), token)
  {}

  lemma LosesAfterSweep(g: Setting, token: string, s: Store, p: Progress) returns (events: seq<Event>)
    requires g.op.namespace != "" && WellFormed(s) && Intact(s, token) && (p.Checking? || p.Looking?)
    requires Fresh(s, p.hand) && HandAgrees(s, p.hand) && TokenIn(p.hand, p.legacy) != token
    requires WantedBy(g, p).key != SecretRef(p.hand) && (p.Checking? ==> GoesLooking(p.hand, p.legacy))
    ensures Loses(g, token, s, p, events)
  {
    var swept := Swept(s, WantedBy(g, p).key);
    SweepingIsPossible(g, s, p, WantedBy(g, p).key, token);
    LosesFromLooking(g, token, swept, p.hand, p.legacy);
    events := [Call, Call, Call];
    if p.Checking? {
      assert Advance(g, swept, p) == (swept, Looking(p.hand, p.legacy));
      PrefixLoses(g, token, swept, p, Call, events);
      events := [Call] + events;
    }
    PrefixLoses(g, token, s, p, Elsewhere(swept), events);
    events := [Elsewhere(swept)] + events;
  }

  /** Every delivery that Possible leaves out can cost the resource its credential: some events that may follow, none of
      them another delivery, lead there. So exactly the deliveries after which nothing can go wrong are admitted. */
  lemma ExcludedDeliveryCanBreak(
    g: Setting, s: Store, p: Progress, name: string, time: Option<int>, kept: set<Key>, token: string)
    returns (events: seq<Event>)
    requires Safe(g, s, p, token) && !Possible(g, s, p, Federate(name, time, kept), token)
    ensures Loses(g, token, Federated(g, s, name, time, kept, token), p, events)
  {
    var after, k := Federated(g, s, name, time, kept, token), WantedBy(g, p).key;
    DeliveryEffect(g, s, name, time, kept, token);
    DeliveryIsAdmittedOrRefused(g, s, name, time, token);
    SurvivesIff(g, s, name, time, kept, token, k);
    match p
    case Repointing(hand, legacy) =>
      LosesFromRepointing(g, token, after, hand, legacy);
      events := [Call];
    case Creating(hand, legacy) =>
      LosesFromCreating(g, token, after, hand, legacy);
      events := [Call, Call];
    case _ =>
      events := LosesAfterSweep(g, token, after, p);
  }

  // ------------------------------------------------------------------ one history

  const SETTING := Setting(Operator("here", "operator", true, url => url == "https://unleash", c => c), (n, u, t) => "n")

  const LEGACY_NAME := BoundName("app", "team", "old")

  const RESOURCE := Remote(Key("team", "app"), "https://unleash", LEGACY_NAME, "operator", TOKEN, None)

  const LEGACY := Secret(Key("operator", LEGACY_NAME), true, "app", None, map[TOKEN := "token", URL := "https://unleash"])

  const BEGUN := Store(RESOURCE, map[], map[LEGACY.key := Versioned(LEGACY, 0)], 1)

  /** Four calls into the migration of an unstamped secret in the operator's namespace, federation delivers under that
      secret's name; the fifth call leaves the resource without its credential. */
  lemma DeliveryInPlaceStrandsCredential()
    ensures Safe(SETTING, BEGUN, Reading(RESOURCE), "token")
    ensures var (s, p) := Calls(SETTING, BEGUN, Reading(RESOURCE), 4);
            && p == Repointing(RESOURCE, Versioned(LEGACY, 0))
            && !Intact(Advance(SETTING, Federated(SETTING, s, LEGACY_NAME, None, {}, "token"), p).0, "token")
  {
    var s, p := ReachesRepointing();
    KeysDiffer();
    CreatedReplacementNeedsLegacyKey(SETTING, s, RESOURCE, Versioned(LEGACY, 0), LEGACY_NAME, None, "token");
  }

  lemma KeysDiffer()
    ensures Replacement(SETTING, RESOURCE, "token").key != LEGACY.key
    ensures Owned(LEGACY, "app")
  {
    var prefix := SECRET_PREFIX + "app" + "-" + "team" + "-admin-key-";
    assert |BoundName("app", "team", "n")| == |prefix| + 1 && |LEGACY_NAME| == |prefix| + 3;
    assert LEGACY_NAME == SECRET_PREFIX + ("app" + "-" + "team" + "-admin-key-" + "old");
  }

  lemma ReachesRepointing() returns (s: Store, p: Progress)
    ensures Safe(SETTING, BEGUN, Reading(RESOURCE), "token")
    ensures (s, p) == Calls(SETTING, BEGUN, Reading(RESOURCE), 4)
    ensures p == Repointing(RESOURCE, Versioned(LEGACY, 0)) && Safe(SETTING, s, p, "token") && Fresh(s, RESOURCE)
    ensures var wanted := Replacement(SETTING, RESOURCE, "token");
            wanted.key in s.secrets && s.secrets[wanted.key].secret == wanted
    ensures SETTING.op.secure(s.remote.url) && SecretRef(RESOURCE) == BoundKey(SETTING, LEGACY_NAME)
  {
    KeysDiffer();
    var legacy := Versioned(LEGACY, 0);
    var wanted := Replacement(SETTING, RESOURCE, "token");
    assert SecretRef(RESOURCE) == LEGACY.key;
    assert Advance(SETTING, BEGUN, Reading(RESOURCE)) == (BEGUN, Checking(RESOURCE, legacy));
    assert Advance(SETTING, BEGUN, Checking(RESOURCE, legacy)) == (BEGUN, Looking(RESOURCE, legacy));
    assert Advance(SETTING, BEGUN, Looking(RESOURCE, legacy)) == (BEGUN, Creating(RESOURCE, legacy));
    s := Write(BEGUN, wanted);
    p := Repointing(RESOURCE, legacy);
    assert Advance(SETTING, BEGUN, Creating(RESOURCE, legacy)) == (s, p);
    assert Calls(SETTING, BEGUN, Creating(RESOURCE, legacy), 1) == (s, p);
    assert Calls(SETTING, BEGUN, Looking(RESOURCE, legacy), 2) == (s, p);
    assert Calls(SETTING, BEGUN, Checking(RESOURCE, legacy), 3) == (s, p);
  }

  const STALE := Versioned(LEGACY.(data := map[TOKEN := "older", URL := "https://unleash"]), 0)

  /** The resource was repointed while a migration was about to read its legacy secret, which then changed: the migration
      holds a credential that is no longer the resource's, and has created a replacement with it. */
  function StaleStore(): Store {
    var resource := Repointed(SETTING, RESOURCE, BoundName("app", "team", "newer"));
    var secret := AdminSecret("app", resource.secretName, "operator", "token", "https://unleash", "team");
    var replacement := Replacement(SETTING, RESOURCE, "older");
    Store(resource, map[],
          map[LEGACY.key := STALE, replacement.key := Versioned(replacement, 1), secret.key := Versioned(secret, 2)], 3)
  }

  lemma StaleKeysDiffer()
    ensures Replacement(SETTING, RESOURCE, "older").key != LEGACY.key
    ensures BoundName("app", "team", "newer") != LEGACY_NAME
    ensures Key("operator", BoundName("app", "team", "newer")) != Replacement(SETTING, RESOURCE, "older").key
  {
    var prefix := SECRET_PREFIX + "app" + "-" + "team" + "-admin-key-";
    assert |BoundName("app", "team", "n")| == |prefix| + 1 && |LEGACY_NAME| == |prefix| + 3;
    assert |BoundName("app", "team", "newer")| == |prefix| + 5;
  }

  /** A delivery under the legacy name makes the migration's premise stand again, and the next call repoints the resource to
      the replacement with the older credential. */
  lemma StaleCopyStrandsCredential()
    ensures var p := Repointing(RESOURCE, STALE);
            && Safe(SETTING, StaleStore(), p, "token") && !Fresh(StaleStore(), RESOURCE)
            && !Intact(Advance(SETTING, Federated(SETTING, StaleStore(), LEGACY_NAME, None, {}, "token"), p).0, "token")
  {
    StaleKeysDiffer();
    RepointAfterFederationInPlace(SETTING, StaleStore(), RESOURCE, STALE, LEGACY_NAME, None, {}, "token");
  }
}
