/** How an operator reads the cluster list of a federation message (internal/controller/remoteunleash_controller.go:83-143).
    Only one of the four outcomes may delete anything, so the scan is proved against a priority specification that
    neither the order nor the repetition of entries can change. */
module ClusterList {

  /** White space in the sense of Go's unicode.IsSpace. */
  predicate IsSpace(c: char) {
    || '\t' <= c <= '\r' || c == ' ' || c == '\U{85}' || c == '\U{A0}' || c == '\U{1680}'
    || '\U{2000}' <= c <= '\U{200A}' || c in {'\U{2028}', '\U{2029}', '\U{202F}', '\U{205F}', '\U{3000}'}
  }

  function TrimLeft(s: string): (r: string)
    ensures |r| <= |s|
    ensures r == "" || !IsSpace(r[0])
  {
    if s == "" || !IsSpace(s[0]) then s else TrimLeft(s[1..])
  }

  function TrimRight(s: string): (r: string)
    ensures |r| <= |s| && r == s[..|r|]
    ensures r == "" || !IsSpace(r[|r| - 1])
  {
    if s == "" || !IsSpace(s[|s| - 1]) then s else TrimRight(s[..|s| - 1])
  }

  function Trim(s: string): (r: string)
    ensures r == "" || (!IsSpace(r[0]) && !IsSpace(r[|r| - 1]))
  {
    TrimRight(TrimLeft(s))
  }

  predicate Blank(s: string) { forall c :: c in s ==> IsSpace(c) }

  lemma {:induction false} LeftBlanksGo(a: string, t: string)
    requires Blank(a) && (t != "" ==> !IsSpace(t[0]))
    ensures TrimLeft(a + t) == t
  {
    if a == "" {
      assert a + t == t;
    } else {
      assert a[0] in a && (a + t)[1..] == a[1..] + t;
      assert forall c :: c in a[1..] ==> c in a;
      LeftBlanksGo(a[1..], t);
    }
  }

  lemma {:induction false} RightBlanksGo(t: string, b: string)
    requires Blank(b) && (t != "" ==> !IsSpace(t[|t| - 1]))
    ensures TrimRight(t + b) == t
  {
    if b == "" {
      assert t + b == t;
    } else {
      var n := |b| - 1;
      assert b[n] in b && (t + b)[..|t + b| - 1] == t + b[..n];
      assert forall c :: c in b[..n] ==> c in b;
      RightBlanksGo(t, b[..n]);
    }
  }

  /** Trimming takes away all white space around a text, and nothing of a text that has none around it. */
  lemma TrimTakesBlanksOnly(a: string, t: string, b: string)
    requires Blank(a) && Blank(b) && (t != "" ==> !IsSpace(t[0]) && !IsSpace(t[|t| - 1]))
    ensures Trim(a + t + b) == t
  {
    if t == "" {
      assert a + t + b == (a + b) + "";
      LeftBlanksGo(a + b, "");
    } else {
      assert a + t + b == a + (t + b) && (t + b)[0] == t[0];
      LeftBlanksGo(a, t + b);
      RightBlanksGo(t, b);
    }
  }

  /** Equality up to case; fold picks one letter of each case class. */
  predicate EqualFold(fold: char -> char, a: string, b: string) {
    |a| == |b| && forall i :: 0 <= i < |a| ==> fold(a[i]) == fold(b[i])
  }

  function Folded(fold: char -> char, s: string): string { seq(|s|, i requires 0 <= i < |s| => fold(s[i])) }

  lemma EqualFoldComparesFolded(fold: char -> char, a: string, b: string)
    ensures EqualFold(fold, a, b) <==> Folded(fold, a) == Folded(fold, b)
  {
    if Folded(fold, a) == Folded(fold, b) {
      forall i | 0 <= i < |a| ensures fold(a[i]) == fold(b[i]) { assert Folded(fold, a)[i] == Folded(fold, b)[i]; }
    }
  }

  datatype Match = NoStatement | Named | CaseMismatch | Excluded

  predicate Names(name: string, cluster: string) { Trim(cluster) != "" && Trim(cluster) == Trim(name) }

  predicate Resembles(fold: char -> char, name: string, cluster: string) {
    Trim(cluster) != "" && EqualFold(fold, Trim(cluster), Trim(name))
  }

  predicate States(cluster: string) { Trim(cluster) != "" }

  /** An exact entry wins over one that differs in case, which wins over entries for other clusters. */
  function Placement(fold: char -> char, name: string, clusters: seq<string>): Match {
    if Trim(name) == "" then NoStatement
    else if exists c :: c in clusters && Names(name, c) then Named
    else if exists c :: c in clusters && Resembles(fold, name, c) then CaseMismatch
    else if exists c :: c in clusters && States(c) then Excluded
    else NoStatement
  }

  method MatchClusterList(fold: char -> char, clusterName: string, clusters: seq<string>) returns (found: Match)
    ensures found == Placement(fold, clusterName, clusters)
  {
    var name := Trim(clusterName);
    if name == "" {
      return NoStatement;
    }
    found := NoStatement;
    for i := 0 to |clusters|
      invariant forall c :: c in clusters[..i] ==> !Names(clusterName, c)
      invariant found == Placement(fold, clusterName, clusters[..i])
    {
      assert clusters[..i + 1] == clusters[..i] + [clusters[i]];
      var cluster := Trim(clusters[i]);
      assert forall c :: c in clusters[..i + 1] <==> c in clusters[..i] || c == clusters[i];
      if cluster == "" {
        continue;
      }
      if cluster == name {
        assert Names(clusterName, clusters[i]);
        return Named;
      }
      if EqualFold(fold, cluster, name) {
        assert Resembles(fold, clusterName, clusters[i]);
        found := CaseMismatch;
      } else if found == NoStatement {
        assert States(clusters[i]);
        found := Excluded;
      }
    }
    assert clusters[..|clusters|] == clusters;
  }

  /** Two lists with the same entries, in any order and any number, say the same. */
  lemma OnlyTheEntriesMatter(fold: char -> char, name: string, a: seq<string>, b: seq<string>)
    requires forall c :: c in a <==> c in b
    ensures Placement(fold, name, a) == Placement(fold, name, b)
  {}

  /** A list excludes the cluster exactly when it names somebody, and nobody who resembles it even in another case. */
  lemma ExcludedExactlyWhenOthersAreNamed(fold: char -> char, name: string, clusters: seq<string>)
    ensures Placement(fold, name, clusters) == Excluded <==>
              && Trim(name) != "" && (exists c :: c in clusters && States(c))
              && (forall c :: c in clusters && States(c) ==> !EqualFold(fold, Trim(c), Trim(name)))
  {
    forall c | c in clusters && Names(name, c) ensures Resembles(fold, name, c) {}
  }
}
