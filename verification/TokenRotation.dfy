/** Rotating an API token (internal/controller/apitoken_controller.go:366-500): choose among the tokens the server has, create
    one if none fits, write the Kubernetes secret, and only then delete what was superseded. Any call may be the last. */
module TokenRotation {
  import opened Wrappers
  import opened StringLists
  import opened ClusterList

  datatype Token = Token(secret: string, kind: string, environment: string, projects: seq<string>, created: int)

  datatype Wanted = Wanted(kind: string, environment: string, projects: seq<string>)

  /** What the server holds under this token's name, by secret, and what the Kubernetes secret holds. */
  datatype State = State(live: map<string, Token>, stored: Option<string>)

  predicate WellFormed(s: State) { forall k :: k in s.live ==> s.live[k].secret == k }

  /** The credential handed to the application works. */
  predicate Usable(s: State) { s.stored.Some? ==> s.stored.value in s.live }

  /** ApiToken.IsEqual (api/v1/apitoken_types.go:164-168). */
  predicate IsEqual(fold: char -> char, w: Wanted, t: Token) {
    EqualFold(fold, w.kind, t.kind) && w.environment == t.environment && SameLengthAndCovered(w.projects, t.projects)
  }

  /** For a spec without repeated projects this is agreement up to letter case of the type and order of the projects. */
  lemma EqualMeansUpToOrder(fold: char -> char, w: Wanted, t: Token)
    requires NoDuplicates(w.projects)
    ensures IsEqual(fold, w, t) <==>
              EqualFold(fold, w.kind, t.kind) && w.environment == t.environment && Permutation(w.projects, t.projects)
  {
    ComparisonDecidesPermutationIffNoDuplicates(w.projects);
  }

  predicate Lists(s: State, listed: seq<Token>) {
    && (forall t :: t in listed ==> t.secret in s.live && s.live[t.secret] == t)
    && (forall k :: k in s.live ==> s.live[k] in listed)
    && NoDuplicates(listed)
  }

  predicate NewestFirst(listed: seq<Token>) {
    forall i, j :: 0 <= i < j < |listed| ==> listed[i].created >= listed[j].created
  }

  // --------------------------------------------------------------- selection

  datatype Choice = Choice(kept: Option<Token>, outdated: seq<Token>)

  /** The first fitting token is kept. With updates enabled all others are outdated; with updates disabled the first
      token is kept whether it fits or not, and none is outdated. */
  function Choose(fold: char -> char, updates: bool, w: Wanted, listed: seq<Token>): Choice {
    if listed == [] then Choice(None, [])
    else
      var before, t := Choose(fold, updates, w, listed[..|listed| - 1]), listed[|listed| - 1];
      if IsEqual(fold, w, t) && before.kept.None? then Choice(Some(t), before.outdated)
      else if !updates then if before.kept.None? then Choice(Some(t), before.outdated) else before
      else Choice(before.kept, before.outdated + [t])
  }

  predicate Fits(fold: char -> char, w: Wanted, t: Token) { IsEqual(fold, w, t) }

  lemma {:induction false} ChoiceWithUpdates(fold: char -> char, w: Wanted, listed: seq<Token>)
    requires NoDuplicates(listed)
    ensures var c := Choose(fold, true, w, listed);
            && (c.kept.None? <==> forall t :: t in listed ==> !Fits(fold, w, t))
            && (c.kept.Some? ==> c.kept.value in listed && Fits(fold, w, c.kept.value))
            && NoDuplicates(c.outdated)
            && forall t :: t in c.outdated <==> t in listed && c.kept != Some(t)
  {
    if listed != [] {
      var before := listed[..|listed| - 1];
      ChoiceWithUpdates(fold, w, before);
      var last := listed[|listed| - 1];
      assert listed == before + [last] && last !in before;
      assert Fits(fold, w, last) <==> IsEqual(fold, w, last);
    }
  }

  /** With updates disabled the newest token is kept even when an older one fits. */
  lemma {:induction false} ChoiceWithoutUpdates(fold: char -> char, w: Wanted, listed: seq<Token>)
    ensures Choose(fold, false, w, listed) == Choice(if listed == [] then None else Some(listed[0]), [])
  {
    if listed != [] {
      ChoiceWithoutUpdates(fold, w, listed[..|listed| - 1]);
    }
  }

  lemma {:induction false} FirstFittingIsKept(fold: char -> char, w: Wanted, listed: seq<Token>)
    ensures var kept := Choose(fold, true, w, listed).kept;
            kept.Some? ==> exists i :: 0 <= i < |listed| && kept == Some(listed[i])
                                       && forall j :: 0 <= j < i ==> !Fits(fold, w, listed[j])
  {
    if listed != [] {
      var n := |listed| - 1;
      FirstFittingIsKept(fold, w, listed[..n]);
      if Choose(fold, true, w, listed[..n]).kept.None? { NothingFits(fold, w, listed[..n]); }
    }
  }

  lemma {:induction false} NothingFits(fold: char -> char, w: Wanted, listed: seq<Token>)
    requires Choose(fold, true, w, listed).kept.None?
    ensures forall j :: 0 <= j < |listed| ==> !Fits(fold, w, listed[j])
  {
    if listed != [] { NothingFits(fold, w, listed[..|listed| - 1]); }
  }

  /** Of the tokens that fit, none is newer than the one kept. */
  lemma NewestFittingIsKept(fold: char -> char, w: Wanted, listed: seq<Token>, t: Token)
    requires NewestFirst(listed) && t in listed && Fits(fold, w, t)
    ensures var kept := Choose(fold, true, w, listed).kept;
            kept.Some? && kept.value in listed && Fits(fold, w, kept.value) && kept.value.created >= t.created
  {
    FirstFittingIsKept(fold, w, listed);
    if Choose(fold, true, w, listed).kept.None? { NothingFits(fold, w, listed); }
    KeptFits(fold, w, listed);
  }

  lemma {:induction false} KeptFits(fold: char -> char, w: Wanted, listed: seq<Token>)
    ensures var kept := Choose(fold, true, w, listed).kept; kept.Some? ==> Fits(fold, w, kept.value) && kept.value in listed
  {
    if listed != [] { KeptFits(fold, w, listed[..|listed| - 1]); }
  }

  // ----------------------------------------------------------------- a round

  /** One reconcile: the operator's switch, the spec, the sorted listing, and what the server would create. */
  datatype Round = Round(updates: bool, wanted: Wanted, listed: seq<Token>, created: Token)

  predicate Plausible(s: State, r: Round) {
    Lists(s, r.listed) && NewestFirst(r.listed) && r.created.secret !in s.live
  }

  function ChoiceOf(fold: char -> char, r: Round): Choice { Choose(fold, r.updates, r.wanted, r.listed) }

  function CreateToken(s: State, r: Round): State { s.(live := s.live[r.created.secret := r.created]) }

  function Kept(fold: char -> char, r: Round): Token {
    if ChoiceOf(fold, r).kept.Some? then ChoiceOf(fold, r).kept.value else r.created
  }

  function WriteSecret(s: State, t: Token): State { s.(stored := Some(t.secret)) }

  function DeleteTokens(s: State, outdated: seq<Token>): State {
    s.(live := map k | k in s.live && (forall t :: t in outdated ==> t.secret != k) :: s.live[k])
  }

  /** The state after the first n calls of a round: the create if there is one, the write, the deletions in order. */
  function After(fold: char -> char, s: State, r: Round, n: nat): State {
    var c := ChoiceOf(fold, r);
    if n == 0 then s
    else if c.kept.None? && n == 1 then CreateToken(s, r)
    else
      var ready, used := if c.kept.None? then CreateToken(s, r) else s, if c.kept.None? then 2 else 1;
      DeleteTokens(WriteSecret(ready, Kept(fold, r)), c.outdated[..Smaller(n - used, |c.outdated|)])
  }

  function CallCount(fold: char -> char, r: Round): nat {
    var c := ChoiceOf(fold, r);
    (if c.kept.None? then 2 else 1) + |c.outdated|
  }

  lemma ChoiceIsSound(fold: char -> char, s: State, r: Round)
    requires WellFormed(s) && Plausible(s, r)
    ensures var c := ChoiceOf(fold, r);
            && (c.kept.Some? ==> c.kept.value in r.listed)
            && (c.kept.None? ==> forall t :: t in r.listed ==> !Fits(fold, r.wanted, t))
            && (forall t :: t in c.outdated ==> t in r.listed && t.secret != Kept(fold, r).secret)
            && (r.updates ==> forall t :: t in r.listed && c.kept != Some(t) ==> t in c.outdated)
            && (r.updates && c.kept.Some? ==> Fits(fold, r.wanted, c.kept.value))
  {
    if r.updates { ChoiceWithUpdates(fold, r.wanted, r.listed); }
    else { ChoiceWithoutUpdates(fold, r.wanted, r.listed); }
  }

  /** After any number of calls, the token in the Kubernetes secret is live. */
  lemma RoundKeepsCredentialUsable(fold: char -> char, s: State, r: Round, n: nat)
    requires WellFormed(s) && Usable(s) && Plausible(s, r)
    ensures WellFormed(After(fold, s, r, n)) && Usable(After(fold, s, r, n))
    ensures n >= 2 ==> After(fold, s, r, n).stored == Some(Kept(fold, r).secret)
  {
    ChoiceIsSound(fold, s, r);
  }

  // -------------------------------------------------------------- many rounds

  /** A round cut after some number of calls. */
  datatype Attempt = Attempt(round: Round, calls: nat)

  predicate History(fold: char -> char, states: seq<State>, attempts: seq<Attempt>) {
    && |states| == |attempts| + 1
    && forall i {:trigger attempts[i]} :: 0 <= i < |attempts| ==>
         && Plausible(states[i], attempts[i].round)
         && states[i + 1] == After(fold, states[i], attempts[i].round, attempts[i].calls)
  }

  /** However often the spec or the switch changes and wherever attempts are cut short, no credential is stranded. */
  lemma {:induction false} CredentialIsNeverStranded(
    fold: char -> char, states: seq<State>, attempts: seq<Attempt>, i: nat, n: nat)
    requires History(fold, states, attempts) && i < |states| && WellFormed(states[0]) && Usable(states[0])
    ensures WellFormed(states[i]) && Usable(states[i])
    ensures i < |attempts| ==> Usable(After(fold, states[i], attempts[i].round, n))
  {
    if i > 0 {
      CredentialIsNeverStranded(fold, states, attempts, i - 1, n);
      RoundKeepsCredentialUsable(fold, states[i - 1], attempts[i - 1].round, attempts[i - 1].calls);
    }
    if i < |attempts| { RoundKeepsCredentialUsable(fold, states[i], attempts[i].round, n); }
  }

  predicate HasFitting(fold: char -> char, s: State, w: Wanted) { exists k :: k in s.live && Fits(fold, w, s.live[k]) }

  lemma {:induction false} RoundCreatesOnlyWithoutFitting(fold: char -> char, s: State, r: Round, n: nat)
    requires WellFormed(s) && Plausible(s, r) && r.updates && Fits(fold, r.wanted, r.created)
    ensures var after := After(fold, s, r, n);
            && (HasFitting(fold, s, r.wanted) ==> HasFitting(fold, after, r.wanted) && |after.live| <= |s.live|)
            && (after == s || HasFitting(fold, after, r.wanted))
            && |after.live| <= |s.live| + 1
  {
    ChoiceIsSound(fold, s, r);
    var c, after := ChoiceOf(fold, r), After(fold, s, r, n);
    if HasFitting(fold, s, r.wanted) {
      var k :| k in s.live && Fits(fold, r.wanted, s.live[k]);
      assert s.live[k] in r.listed;
    }
    var whole := if c.kept.None? then CreateToken(s, r) else s;
    if n > 0 {
      assert Kept(fold, r).secret in after.live && after.live[Kept(fold, r).secret] == Kept(fold, r);
      SubmapIsNoLarger(after.live, whole.live);
    }
  }

  lemma SubmapIsNoLarger(a: map<string, Token>, b: map<string, Token>)
    requires a.Keys <= b.Keys
    ensures |a| <= |b|
  {
    assert b.Keys == a.Keys + (b.Keys - a.Keys);
    assert |a.Keys| + |b.Keys - a.Keys| == |b.Keys|;
  }

  /** Attempts for one spec, with updates enabled and a server that creates what it is asked for. */
  predicate Steady(fold: char -> char, attempts: seq<Attempt>, w: Wanted) {
    forall i :: 0 <= i < |attempts| ==>
      attempts[i].round.updates && attempts[i].round.wanted == w && Fits(fold, w, attempts[i].round.created)
  }

  /** Attempts that keep failing do not pile up tokens: they leave at most one more than there was. */
  lemma {:induction false} FailuresDoNotPileUp(
    fold: char -> char, states: seq<State>, attempts: seq<Attempt>, w: Wanted, i: nat)
    requires History(fold, states, attempts) && i < |states| && Steady(fold, attempts, w)
    requires WellFormed(states[0]) && Usable(states[0])
    ensures |states[i].live| <= |states[0].live| + 1
    ensures HasFitting(fold, states[i], w) || states[i] == states[0]
  {
    if i > 0 {
      FailuresDoNotPileUp(fold, states, attempts, w, i - 1);
      CredentialIsNeverStranded(fold, states, attempts, i - 1, 0);
      RoundCreatesOnlyWithoutFitting(fold, states[i - 1], attempts[i - 1].round, attempts[i - 1].calls);
    }
  }

  // ------------------------------------------------------------- convergence

  function Complete(fold: char -> char, s: State, r: Round): State { After(fold, s, r, CallCount(fold, r)) }

  /** With updates enabled, one round that goes through leaves exactly one live token, a fitting one, and the Kubernetes
      secret holds it. */
  lemma OneSuccessLeavesOneFittingToken(fold: char -> char, s: State, r: Round)
    requires WellFormed(s) && Plausible(s, r) && r.updates && Fits(fold, r.wanted, r.created)
    ensures var t := Kept(fold, r);
            Fits(fold, r.wanted, t) && Complete(fold, s, r) == State(map[t.secret := t], Some(t.secret))
  {
    ChoiceIsSound(fold, s, r);
    var c, t, after := ChoiceOf(fold, r), Kept(fold, r), Complete(fold, s, r);
    assert c.outdated[..|c.outdated|] == c.outdated;
    forall k ensures k in after.live <==> k == t.secret {
      if k in s.live { assert s.live[k] in r.listed; }
    }
    assert after.live[t.secret] == t;
  }

  lemma NonemptyHasMember<T>(s: seq<T>)
    ensures s != [] ==> exists x :: x in s
  {
    if s != [] { assert s[0] in s; }
  }

  /** The round after that neither creates nor deletes anything. */
  lemma NextRoundIsQuiet(fold: char -> char, s: State, r: Round, next: Round)
    requires WellFormed(s) && Plausible(s, r) && r.updates && Fits(fold, r.wanted, r.created)
    requires next.updates && next.wanted == r.wanted && Plausible(Complete(fold, s, r), next)
    ensures ChoiceOf(fold, next) == Choice(Some(Kept(fold, r)), [])
    ensures forall n :: After(fold, Complete(fold, s, r), next, n) == Complete(fold, s, r)
  {
    var done, t := Complete(fold, s, r), Kept(fold, r);
    OneSuccessLeavesOneFittingToken(fold, s, r);
    assert done.live[t.secret] in next.listed;
    ChoiceIsSound(fold, done, next);
    var c := ChoiceOf(fold, next);
    assert forall u :: u in next.listed ==> u == t;
    assert forall u :: u !in c.outdated;
    NonemptyHasMember(c.outdated);
  }

  predicate StoredFits(fold: char -> char, s: State, w: Wanted) {
    s.stored.Some? && s.stored.value in s.live && Fits(fold, w, s.live[s.stored.value])
  }

  /** With updates disabled and a token there, the round creates and deletes nothing, and the secret it writes fits
      exactly when the newest token does: a fitting older token is passed over. */
  lemma DisabledUpdatesTakeTheNewest(fold: char -> char, s: State, r: Round)
    requires WellFormed(s) && Plausible(s, r) && !r.updates && s.live != map[]
    ensures r.listed != [] && Complete(fold, s, r) == s.(stored := Some(r.listed[0].secret))
    ensures StoredFits(fold, Complete(fold, s, r), r.wanted) <==> Fits(fold, r.wanted, r.listed[0])
  {
    ChoiceWithoutUpdates(fold, r.wanted, r.listed);
    var k :| k in s.live;
    assert s.live[k] in r.listed;
    assert DeleteTokens(WriteSecret(s, r.listed[0]), []).live == s.live;
    assert ChoiceOf(fold, r).outdated[..0] == [];
  }

  /** A token is created exactly when none is kept: none fits or, with updates disabled, there is none at all. */
  lemma CreatesExactlyWithoutCandidate(fold: char -> char, s: State, r: Round)
    requires WellFormed(s) && Plausible(s, r)
    ensures r.created.secret in Complete(fold, s, r).live <==>
              if r.updates then !HasFitting(fold, s, r.wanted) else s.live == map[]
    ensures Complete(fold, s, r).stored.Some? && Complete(fold, s, r).stored.value in Complete(fold, s, r).live
    ensures r.created.secret in Complete(fold, s, r).live ==> Complete(fold, s, r).stored == Some(r.created.secret)
  {
    ChoiceIsSound(fold, s, r);
    var c := ChoiceOf(fold, r);
    if HasFitting(fold, s, r.wanted) {
      var k :| k in s.live && Fits(fold, r.wanted, s.live[k]);
      assert s.live[k] in r.listed;
    }
    if c.kept.Some? { assert c.kept.value.secret in s.live; }
    if !r.updates {
      ChoiceWithoutUpdates(fold, r.wanted, r.listed);
      if s.live != map[] {
        var k :| k in s.live;
        assert s.live[k] in r.listed;
      }
      if r.listed != [] { assert r.listed[0] in r.listed; }
    }
  }
}
