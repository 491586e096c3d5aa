/** The handler of FederationSubscribe as it runs (internal/controller/remoteunleash_controller.go:560-835): slices of
    safe objects collected in loops, then groups of writes, each of which may fail. It is proved to do what
    FederationReceive says. */
module FederationReceiver {
  import opened Wrappers
  import opened ClusterList
  import opened FederationModel
  import opened FederationBuild
  import opened FederationReceive

  class Receiver {
    var remotes: map<Key, Remote>
    var secrets: map<Key, Secret>
    const op: Operator

    ghost function Contents(): Cluster
      reads this
    {
      Cluster(remotes, secrets)
    }

    constructor (op: Operator, c: Cluster)
      ensures this.op == op && Contents() == c
    {
      this.op := op;
      remotes, secrets := c.remotes, c.secrets;
    }

    method ReferencedByOther(key: Key, own: Key) returns (referenced: bool)
      ensures referenced <==> FederationReceive.ReferencedByOther(Contents(), key, own)
    {
      var todo := remotes.Keys;
      while todo != {}
        invariant todo <= remotes.Keys
        invariant forall r :: r in remotes && r !in todo && r != own ==> SecretRef(remotes[r]) != key
      {
        var r :| r in todo;
        if r != own && SecretRef(remotes[r]) == key {
          return true;
        }
        todo := todo - {r};
      }
      return false;
    }

    method References() returns (references: set<Key>)
      ensures forall k :: k in references <==> Referenced(Contents(), k)
    {
      references := {};
      var todo := remotes.Keys;
      while todo != {}
        invariant todo <= remotes.Keys
        invariant forall k :: k in references <==> exists r :: r in remotes && r !in todo && SecretRef(remotes[r]) == k
      {
        var r :| r in todo;
        todo := todo - {r};
        references := references + {SecretRef(remotes[r])};
      }
    }

    /** Older secrets of the instance, in its own namespace and in the operator's. */
    method SupersededAdminSecrets(r: Remote, s: Secret) returns (superseded: set<Key>)
      ensures superseded == Discovered(op, Contents(), r, s)
    {
      superseded := {};
      var references := References();
      var todo := secrets.Keys;
      while todo != {}
        invariant todo <= secrets.Keys
        invariant superseded == Discovered(op, Contents(), r, s) - todo
      {
        var k :| k in todo;
        todo := todo - {k};
        var candidate := secrets[k];
        if k.namespace != r.key.namespace && k.namespace != op.namespace {
          continue;
        }
        if !Owned(candidate, r.key.name) || k == s.key {
          continue;
        }
        if k.namespace == op.namespace {
          if candidate.authorized.Some? && candidate.authorized.value != r.key.namespace {
            continue;
          }
          if candidate.authorized.None? && k in references {
            continue;
          }
        }
        if TokensEqual(r, candidate, s) {
          superseded := superseded + {k};
        }
      }
    }

    /** The checks one resource of a removal passes before anything of it is deleted. */
    method MayRemove(r: Remote, s: Secret, time: Option<int>) returns (safe: bool)
      ensures safe <==> Removable(Contents(), r, s, time)
    {
      if r.key !in remotes {
        return false;
      }
      var existing := remotes[r.key];
      if existing.published.Some? && !(time.Some? && time.value > existing.published.value) {
        return false;
      }
      if existing.url != r.url {
        return false;
      }
      if SecretRef(existing) !in secrets {
        return false;
      }
      return TokensEqual(existing, secrets[SecretRef(existing)], s);
    }

    method Remove(d: Delivery, f: Faults)
      requires Paired(d)
      modifies this
      ensures Contents() == AfterRemoval(old(Contents()), d, f)
    {
      var safe: set<Key> := {};
      for i := 0 to |d.remotes|
        invariant Contents() == old(Contents())
        invariant safe == set j | 0 <= j < i && Removable(Contents(), d.remotes[j], d.secrets[j], d.time) :: d.remotes[j].key
      {
        var removable := MayRemove(d.remotes[i], d.secrets[i], d.time);
        if removable {
          safe := safe + {d.remotes[i].key};
        }
      }
      assert safe == Removals(Contents(), d);
      if safe == {} {
        assert AfterRemoval(Contents(), d, f) == Contents();
        return;
      }
      var safeSecrets := set k | k in safe :: SecretRef(remotes[k]);
      remotes := remotes - (safe - f.remoteWrites);
      if !(safe !! f.remoteWrites) {
        return;
      }
      secrets := secrets - (safeSecrets - f.secretWrites);
    }

    /** Whether one resource of a provisioning message may be written, as what, and which secrets that replaces. */
    method Consider(r: Remote, s: Secret, time: Option<int>) returns (entry: Entry)
      ensures entry == Admit(op, Contents(), r, s, time)
    {
      if !op.secure(r.url) {
        return Skipped;
      }
      var superseded: set<Key> := {};
      var stamp := time;
      if r.key in remotes {
        var existing := remotes[r.key];
        if existing.url != r.url {
          return Skipped;
        }
        if SecretRef(existing) !in secrets {
          return Aborts;
        }
        if !TokensEqual(existing, secrets[SecretRef(existing)], s) {
          return Skipped;
        }
        if SecretRef(existing) != s.key {
          var referenced := ReferencedByOther(SecretRef(existing), r.key);
          if !referenced {
            superseded := {SecretRef(existing)};
          }
        }
        if existing.published.Some? && (time.None? || existing.published.value > time.value) {
          stamp := existing.published;
        }
      }
      var discovered := SupersededAdminSecrets(r, s);
      assert r.key !in remotes ==> discovered + superseded == discovered;
      superseded := discovered + superseded;
      return Admitted(r.(published := stamp), s, superseded);
    }

    method UpsertSecrets(entries: seq<Entry>, f: Faults) returns (failed: bool)
      modifies this`secrets
      ensures secrets == WriteSecrets(old(secrets), entries, f)
      ensures failed <==> SecretFails(entries, f)
    {
      failed := false;
      for i := 0 to |entries|
        invariant secrets == WriteSecrets(old(secrets), entries[..i], f)
        invariant failed <==> exists j :: 0 <= j < i && entries[j].Admitted? && entries[j].secret.key in f.secretWrites
      {
        assert entries[..i + 1][..i] == entries[..i];
        if entries[i].Admitted? {
          if entries[i].secret.key in f.secretWrites {
            failed := true;
          } else {
            secrets := secrets[entries[i].secret.key := entries[i].secret];
          }
        }
      }
      assert entries[..|entries|] == entries;
    }

    method UpsertRemotes(entries: seq<Entry>, f: Faults) returns (failed: bool)
      modifies this`remotes
      ensures remotes == WriteRemotes(old(remotes), entries, f)
      ensures failed <==> RemoteFails(entries, f)
    {
      failed := false;
      for i := 0 to |entries|
        invariant remotes == WriteRemotes(old(remotes), entries[..i], f)
        invariant failed <==> exists j :: 0 <= j < i && entries[j].Admitted? && entries[j].remote.key in f.remoteWrites
      {
        assert entries[..i + 1][..i] == entries[..i];
        if entries[i].Admitted? {
          if entries[i].remote.key in f.remoteWrites {
            failed := true;
          } else if entries[i].remote.key.namespace !in f.missingNamespaces {
            remotes := remotes[entries[i].remote.key := entries[i].remote];
          }
        }
      }
      assert entries[..|entries|] == entries;
    }

    method Provision(d: Delivery, f: Faults)
      requires Paired(d)
      modifies this
      ensures Contents() == AfterProvision(op, old(Contents()), d, f)
    {
      var entries: seq<Entry> := [];
      var superseded: set<Key> := {};
      for i := 0 to |d.remotes|
        invariant Contents() == old(Contents()) && |entries| == i
        invariant forall j :: 0 <= j < i ==> entries[j] == Admit(op, Contents(), d.remotes[j], d.secrets[j], d.time)
        invariant Aborts !in entries && superseded == Superseded(entries)
      {
        var entry := Consider(d.remotes[i], d.secrets[i], d.time);
        assert Admissions(op, Contents(), d)[i] == entry;
        if entry == Aborts {
          return;
        }
        if entry.Admitted? {
          superseded := superseded + entry.superseded;
        }
        entries := entries + [entry];
      }
      assert entries == Admissions(op, Contents(), d);
      var failed := UpsertSecrets(entries, f);
      if failed {
        return;
      }
      failed := UpsertRemotes(entries, f);
      if failed {
        return;
      }
      secrets := secrets - (superseded - f.cleanups);
    }

    /** One message, from the checks on its shape to the last write. */
    method Handle(d: Delivery, f: Faults)
      modifies this
      ensures Contents() == Deliver(op, old(Contents()), d, f)
    {
      if |d.remotes| == 0 {
        return;
      }
      if |d.remotes| != |d.secrets| {
        return;
      }
      var effective := d.state;
      if d.state == Provisioned {
        if Trim(op.cluster) == "" {
          return;
        }
        var found := MatchClusterList(op.fold, op.cluster, d.clusters);
        match found
        case Named =>
        case NoStatement => return;
        case CaseMismatch => return;
        case Excluded => effective := Removed;
      }
      if f.reading || effective == Unknown {
        return;
      }
      if effective == Removed {
        Remove(d, f);
      } else {
        Provision(d, f);
      }
    }
  }
}
