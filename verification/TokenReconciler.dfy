/** The token rotation as it runs (internal/controller/apitoken_controller.go:366-500): sort, select in a loop, then create,
    write and delete in that order. */
module TokenReconciler {
  import opened Wrappers
  import opened StringLists
  import opened TokenRotation

  lemma InsertedInOrder(t: Token, sorted: seq<Token>, i: nat)
    requires NewestFirst(sorted) && i <= |sorted|
    requires i > 0 ==> sorted[i - 1].created >= t.created
    requires i < |sorted| ==> sorted[i].created <= t.created
    ensures NewestFirst(sorted[..i] + [t] + sorted[i..])
  {}

  lemma InsertedIsPermutation(t: Token, sorted: seq<Token>, i: nat)
    requires i <= |sorted|
    ensures Permutation(sorted[..i] + [t] + sorted[i..], [t] + sorted)
  {
    assert sorted == sorted[..i] + sorted[i..];
  }

  /** Puts a token behind every token created no earlier. */
  method InsertByAge(t: Token, sorted: seq<Token>) returns (r: seq<Token>)
    requires NewestFirst(sorted)
    ensures NewestFirst(r) && Permutation(r, [t] + sorted)
  {
    var i := |sorted|;
    while i > 0 && sorted[i - 1].created < t.created
      invariant 0 <= i <= |sorted|
      invariant i < |sorted| ==> sorted[i].created < t.created
    {
      i := i - 1;
    }
    InsertedInOrder(t, sorted, i);
    InsertedIsPermutation(t, sorted, i);
    r := sorted[..i] + [t] + sorted[i..];
  }

  method SortNewestFirst(tokens: seq<Token>) returns (sorted: seq<Token>)
    ensures NewestFirst(sorted) && Permutation(sorted, tokens)
  {
    sorted := [];
    for i := 0 to |tokens|
      invariant NewestFirst(sorted) && Permutation(sorted, tokens[..i])
    {
      assert tokens[..i + 1] == tokens[..i] + [tokens[i]];
      sorted := InsertByAge(tokens[i], sorted);
    }
    assert tokens[..|tokens|] == tokens;
  }

  lemma PermutationListsTheSame(s: State, a: seq<Token>, b: seq<Token>)
    requires Permutation(a, b) && Lists(s, a)
    ensures Lists(s, b)
  {
    forall t ensures t in a <==> t in b { assert t in multiset(a) <==> t in multiset(b); }
    PermutationKeepsDistinct(a, b);
  }

  lemma PermutationKeepsDistinct(a: seq<Token>, b: seq<Token>)
    requires Permutation(a, b) && NoDuplicates(a)
    ensures NoDuplicates(b)
  {
    forall i, j | 0 <= i < j < |b| ensures b[i] != b[j] {
      if b[i] == b[j] {
        Twice(b, i, j);
        OnceEach(a, b[i]);
      }
    }
  }

  lemma Twice(b: seq<Token>, i: nat, j: nat)
    requires i < j < |b| && b[i] == b[j]
    ensures multiset(b)[b[i]] >= 2
  {
    assert b == b[..i] + [b[i]] + b[i + 1..j] + [b[j]] + b[j + 1..];
  }

  lemma {:induction false} OnceEach(a: seq<Token>, t: Token)
    requires NoDuplicates(a)
    ensures multiset(a)[t] <= 1
  {
    if a != [] {
      assert a == [a[0]] + a[1..];
      OnceEach(a[1..], t);
      assert t == a[0] ==> multiset(a[1..])[t] == 0;
    }
  }

  method SelectTokens(fold: char -> char, updates: bool, w: Wanted, listed: seq<Token>)
    returns (kept: Option<Token>, outdated: seq<Token>)
    ensures Choice(kept, outdated) == Choose(fold, updates, w, listed)
  {
    kept, outdated := None, [];
    for i := 0 to |listed|
      invariant Choice(kept, outdated) == Choose(fold, updates, w, listed[..i])
    {
      assert listed[..i + 1][..i] == listed[..i];
      if IsEqual(fold, w, listed[i]) && kept.None? {
        kept := Some(listed[i]);
        continue;
      }
      if !updates {
        if kept.None? {
          kept := Some(listed[i]);
        }
        continue;
      }
      outdated := outdated + [listed[i]];
    }
    assert listed[..|listed|] == listed;
  }

  class Reconciler {
    var live: map<string, Token>
    var stored: Option<string>

    ghost function Contents(): State
      reads this
    {
      State(live, stored)
    }

    constructor (s: State)
      ensures Contents() == s
    {
      live, stored := s.live, s.stored;
    }

    /** One reconcile that gets to make at most so many calls after the listing, in whatever order the server lists. */
    method Reconcile(fold: char -> char, updates: bool, w: Wanted, answer: seq<Token>, minted: Token, calls: nat)
      returns (ghost r: Round)
      requires WellFormed(Contents()) && Lists(Contents(), answer) && minted.secret !in live
      modifies this
      ensures r.updates == updates && r.wanted == w && r.created == minted && Permutation(r.listed, answer)
      ensures Plausible(old(Contents()), r)
      ensures Contents() == After(fold, old(Contents()), r, calls)
    {
      var listed := SortNewestFirst(answer);
      PermutationListsTheSame(Contents(), answer, listed);
      r := Round(updates, w, listed, minted);
      var left := calls;
      var kept, outdated := SelectTokens(fold, updates, w, listed);
      if left == 0 { return; }
      if kept.None? {
        live := live[minted.secret := minted];
        kept := Some(minted);
        left := left - 1;
        if left == 0 { return; }
      }
      stored := Some(kept.value.secret);
      left := left - 1;
      DeleteOutdated(outdated, left);
    }

    method DeleteOutdated(outdated: seq<Token>, calls: nat)
      modifies this`live
      ensures Contents() == DeleteTokens(old(Contents()), outdated[..Smaller(calls, |outdated|)])
    {
      for i := 0 to Smaller(calls, |outdated|)
        invariant Contents() == DeleteTokens(old(Contents()), outdated[..i])
      {
        assert outdated[..i + 1] == outdated[..i] + [outdated[i]];
        live := live - {outdated[i].secret};
      }
    }
  }
}
