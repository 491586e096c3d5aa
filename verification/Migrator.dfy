/** The migration as one method (internal/controller/remoteunleash_migration.go:48-249): reads, a stamp, a create, a repoint
    and a delete in that order, any of which may be the last the operator gets to make. */
module Migrator {
  import opened Wrappers
  import opened FederationModel
  import opened SecretMigration

  class Reconciler {
    var remote: Remote
    var secrets: map<Key, Versioned>
    var clock: nat
    const others: map<Key, Remote>
    const g: Setting

    ghost function Contents(): Store
      reads this
    {
      Store(remote, others, secrets, clock)
    }

    constructor (g: Setting, s: Store)
      ensures this.g == g && Contents() == s
    {
      this.g := g;
      remote, others, secrets, clock := s.remote, s.others, s.secrets, s.clock;
    }

    method Put(secret: Secret)
      modifies this`secrets, this`clock
      ensures Contents() == Write(old(Contents()), secret)
    {
      secrets := secrets[secret.key := Versioned(secret, clock)];
      clock := clock + 1;
    }

    method ReferencedByOther(k: Key, own: Key) returns (shared: bool)
      ensures shared <==> Shared(Contents(), own, k)
    {
      var todo := others.Keys;
      while todo != {}
        invariant todo <= others.Keys
        invariant forall r :: r in others && r !in todo && r != own ==> SecretRef(others[r]) != k
      {
        var r :| r in todo;
        if r != own && SecretRef(others[r]) == k {
          return true;
        }
        todo := todo - {r};
      }
      return false;
    }

    /** Refuses everything that is not an eligible legacy secret, and stamps the URL a tenant's own secret lacks. */
    method Prepare(hand: Remote, calls: nat) returns (ready: bool, legacy: Versioned, left: nat)
      requires hand == remote
      modifies this
      ensures !ready ==> Contents() == Calls(g, old(Contents()), Reading(hand), calls).0
      ensures ready ==> Calls(g, old(Contents()), Reading(hand), calls) == Calls(g, Contents(), Looking(hand, legacy), left)
      ensures remote == old(remote)
    {
      var k := SecretRef(hand);
      ghost var began := Contents();
      ready, left := false, calls;
      legacy := Versioned(Secret(k, false, "", None, map[]), 0);
      if left == 0 { return; }
      left := left - 1;
      DoneStaysDone(g, Contents(), left);
      if k !in secrets { return; }
      legacy := secrets[k];
      if k.namespace == g.op.namespace && legacy.secret.authorized == Some(hand.key.namespace) { return; }
      if !Owned(legacy.secret, hand.key.name) { return; }
      if Value(legacy.secret, hand.secretKey) == "" { return; }
      assert Calls(g, began, Reading(hand), calls) == Calls(g, began, Checking(hand, legacy), left);
      if left == 0 { return; }
      left := left - 1;
      DoneStaysDone(g, Contents(), left);
      var shared := ReferencedByOther(k, hand.key);
      if shared { return; }
      var recorded := Value(legacy.secret, URL);
      if recorded == "" && k.namespace == hand.key.namespace {
        assert Calls(g, began, Reading(hand), calls) == Calls(g, began, Stamping(hand, legacy), left);
        if left == 0 { return; }
        left := left - 1;
        var stamped := legacy.secret.(data := legacy.secret.data[URL := hand.url]);
        legacy := Versioned(stamped, clock);
        Put(stamped);
      } else if recorded == "" {
        return;
      } else if recorded != hand.url {
        return;
      }
      ready := true;
    }

    /** Makes sure the replacement exists, and is the replacement. */
    method Place(hand: Remote, legacy: Versioned, calls: nat) returns (ready: bool, left: nat)
      modifies this
      ensures !ready ==> Contents() == Calls(g, old(Contents()), Looking(hand, legacy), calls).0
      ensures ready ==> Calls(g, old(Contents()), Looking(hand, legacy), calls) == Calls(g, Contents(), Repointing(hand, legacy), left)
      ensures remote == old(remote)
    {
      ready, left := false, calls;
      if left == 0 { return; }
      left := left - 1;
      DoneStaysDone(g, Contents(), left);
      var wanted := Replacement(g, hand, Value(legacy.secret, hand.secretKey));
      if wanted.key !in secrets {
        if left == 0 { return; }
        left := left - 1;
        Put(wanted);
      } else {
        var existing := secrets[wanted.key].secret;
        if existing.authorized != Some(hand.key.namespace) || Value(existing, URL) != Value(wanted, URL)
           || Value(existing, TOKEN) != Value(wanted, TOKEN) {
          return;
        }
      }
      ready := true;
    }

    /** One attempt that gets to make at most so many API calls. */
    method Migrate(calls: nat) returns (migrated: bool)
      modifies this
      ensures Contents() == Attempt(g, old(Contents()), calls)
      ensures migrated ==> remote == Repointed(g, old(remote), remote.secretName)
    {
      var hand := remote;
      migrated := false;
      var ready, legacy, left := Prepare(hand, calls);
      if !ready { return; }
      ready, left := Place(hand, legacy, left);
      if !ready || left == 0 { return; }
      left := left - 1;
      DoneStaysDone(g, Contents(), left);
      if SecretRef(remote) != SecretRef(hand) || remote.url != hand.url { return; }
      var name := Replacement(g, hand, Value(legacy.secret, hand.secretKey)).key.name;
      remote := remote.(secretName := name, secretNamespace := g.op.namespace, secretKey := TOKEN);
      migrated := true;
      assert Calls(g, old(Contents()), Reading(hand), calls) == Calls(g, Contents(), Deleting(hand, legacy), left);
      if left == 0 { return; }
      left := left - 1;
      var k := SecretRef(hand);
      if k in secrets && secrets[k].version == legacy.version {
        secrets := secrets - {k};
      }
      DoneStaysDone(g, Contents(), left);
    }
  }
}
