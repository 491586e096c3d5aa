/** The list helpers of internal/utils/strings.go and the pigeonhole fact their callers rely on:
    comparing lengths and one-sided membership decides equality up to order, provided the
    first list repeats nothing. */
module StringLists {

  method StringInSlice(item: string, items: seq<string>) returns (found: bool)
    ensures found <==> item in items
  {
    for i := 0 to |items|
      invariant item !in items[..i]
    {
      if item == items[i] {
        return true;
      }
    }
    return false;
  }

  /** What StringSliceEquals decides, taken literally. */
  predicate SameLengthAndCovered(a: seq<string>, b: seq<string>) {
    |a| == |b| && forall i :: 0 <= i < |a| ==> a[i] in b
  }

  method StringSliceEquals(a: seq<string>, b: seq<string>) returns (equal: bool)
    ensures equal <==> SameLengthAndCovered(a, b)
  {
    if |a| != |b| {
      return false;
    }
    for i := 0 to |a|
      invariant forall j :: 0 <= j < i ==> a[j] in b
    {
      var covered := StringInSlice(a[i], b);
      if !covered {
        return false;
      }
    }
    return true;
  }

  predicate NoDuplicates<T(==)>(s: seq<T>) {
    forall i, j :: 0 <= i < j < |s| ==> s[i] != s[j]
  }

  predicate Permutation<T(==)>(a: seq<T>, b: seq<T>) {
    multiset(a) == multiset(b)
  }

  /** Removing one occurrence from the covering list keeps every other element covered. */
  lemma {:induction false} CoveredIsContained<T>(a: seq<T>, b: seq<T>)
    requires NoDuplicates(a)
    requires forall x :: x in a ==> x in b
    ensures multiset(a) <= multiset(b)
  {
    if a != [] {
      var rest := a[1..];
      assert a == [a[0]] + rest;
      CoveredIsContained(rest, b);
      assert a[0] !in rest;
      assert multiset(rest)[a[0]] == 0;
      assert multiset(a) == multiset{a[0]} + multiset(rest);
      assert a[0] in a;
    }
  }

  /** Lists of equal length, the first without repetition and covered by the second, are permutations. */
  lemma CoveredByEqualLengthIsPermutation<T>(a: seq<T>, b: seq<T>)
    requires NoDuplicates(a) && |a| == |b|
    requires forall x :: x in a ==> x in b
    ensures Permutation(a, b)
  {
    CoveredIsContained(a, b);
    var extra := multiset(b) - multiset(a);
    assert |extra| == |multiset(b)| - |multiset(a)| == 0;
    assert multiset(b) == multiset(a) + extra;
  }

  function Longer(items: seq<string>): (s: string)
    ensures forall x :: x in items ==> |x| < |s|
  {
    if items == [] then "+"
    else
      var s := Longer(items[1..]);
      if |items[0]| < |s| then s else items[0] + "+"
  }

  /** The comparison decides equality up to order against every second list exactly when the first
      list repeats nothing: a repeated element lets another list of the same length through. */
  lemma ComparisonDecidesPermutationIffNoDuplicates(a: seq<string>)
    ensures (forall b :: SameLengthAndCovered(a, b) <==> Permutation(a, b)) <==> NoDuplicates(a)
  {
    if NoDuplicates(a) {
      forall b ensures SameLengthAndCovered(a, b) <==> Permutation(a, b) {
        if SameLengthAndCovered(a, b) {
          CoveredByEqualLengthIsPermutation(a, b);
        }
        if Permutation(a, b) {
          assert |multiset(a)| == |multiset(b)|;
          forall i | 0 <= i < |a| ensures a[i] in b {
            assert a[i] in multiset(a);
          }
        }
      }
    } else {
      var i, j :| 0 <= i < j < |a| && a[i] == a[j];
      var other := Longer(a);
      var b := a[j := other];
      forall k | 0 <= k < |a| ensures a[k] in b {
        if k == j { assert b[i] == a[k]; } else { assert b[k] == a[k]; }
      }
      assert SameLengthAndCovered(a, b);
      assert b[j] == other && other in multiset(b) && other !in multiset(a);
    }
  }

  /** The smallest witness: a duplicated project accepts a different list. */
  lemma DuplicatesAreConfused()
    ensures SameLengthAndCovered(["a", "a"], ["a", "b"]) && !Permutation(["a", "a"], ["a", "b"])
  {
    assert multiset(["a", "a"])["b"] == 0 && multiset(["a", "b"])["b"] == 1;
  }
}
