/** What becomes of a batch member that is deleted and created again after its entry was dropped: it pulls the baseline
    while the channel waits for the target, for as long as the batch is open. */
module StrandedMember {
  import opened Wrappers
  import opened ChannelModel
  import opened ChannelSteps
  import opened Rollout
  import opened PhaseSafety
  import opened RolloutGuards

  /** The channel waits in Rolling for a member that is neither assigned the target nor runs it. */
  predicate Stranded(w: World, n: Name) {
    && w.status.phase == Rolling && w.status.activeBatch.Some? && n in w.fleet
    && n in w.status.activeBatch.value.names && w.status.activeBatch.value.target == w.spec.image
    && w.spec.image !in {"", w.status.previousImage, w.fleet[n].resolved}
    && ImageOf(w.status, n) != w.spec.image
  }

  /** What it pulls is not what is awaited. */
  lemma StrandedPullsAnotherImage(w: World, n: Name)
    requires Stranded(w, n)
    ensures Expected(w.spec, w.status, w.fleet[n], w.status.activeBatch.value.target) == w.spec.image
    ensures Resolve(w.spec, w.status, n, w.fleet[n]) != Some(w.spec.image)
  {}

  // ------------------------------------------------------------ no way forward

  lemma MemberHoldsTheGate(o: Observation, st: Status, names: seq<Name>, since: Option<Time>, n: Name)
    requires forall m :: m in names ==> m in o.fleet
    requires st.phase == Rolling && n in names && o.fleet[n].resolved != o.spec.image
    ensures GateOf(o, st, names, o.spec.image, since) in {Rejects, NotReady}
  {
    assert Expected(o.spec, st, o.fleet[n], o.spec.image) == o.spec.image;
  }

  /** A Rolling reconcile waits for the stranded member or gives the rollout up. */
  lemma WaitsOrGivesUp(o: Observation, st: Status, n: Name)
    requires Valid(o) && st.phase == Rolling && st.activeBatch.Some? && !BreakGlass(o.spec)
    requires n in o.fleet && n in st.activeBatch.value.names && st.activeBatch.value.target == o.spec.image != ""
    requires o.fleet[n].resolved != o.spec.image
    ensures RollingMoveOf(o, st) in
              {RollingListingFails, RollingRefuses, RollingTimesOut, BatchAwaits(Rejects), BatchAwaits(NotReady)}
  {
    BreakGlassIsNeededToAssignAll(o, st);
    var batch := st.activeBatch.value;
    assert n in Members(o, batch);
    MemberHoldsTheGate(o, Track(o, st), Members(o, batch), Some(batch.start), n);
  }

  lemma WaitingLeaves(o: Observation, st: Status)
    requires Valid(o)
    ensures RollingBy(o, st, BatchAwaits(NotReady)) == UpdateCounts(o, Track(o, st))
  {}

  lemma GivingUpLeavesRolling(o: Observation, st: Status, move: RollingMove)
    requires Valid(o) && move in {RollingListingFails, RollingRefuses, RollingTimesOut, BatchAwaits(Rejects)}
    ensures RollingBy(o, st, move).phase in {Idle, Failed, RollingBack}
  {}

  lemma ReconcileKeepsStranded(o: Observation, w: World, after: World, n: Name)
    requires Valid(o) && o.spec == w.spec && o.fleet == w.fleet && Stranded(w, n) && !BreakGlass(w.spec)
    requires after == w.(status := RollingStep(o, w.status))
    ensures Stranded(after, n) || after.status.phase in {Idle, Failed, RollingBack}
  {
    var move := RollingMoveOf(o, w.status);
    WaitsOrGivesUp(o, w.status, n);
    if move == BatchAwaits(NotReady) {
      WaitingLeaves(o, w.status);
    } else {
      GivingUpLeavesRolling(o, w.status, move);
    }
  }

  predicate GivenUp(w: World) { w.status.phase in {Idle, Failed, RollingBack} }

  lemma StepKeepsStranded(w: World, a: Action, n: Name)
    requires Enabled(w, a) && Stranded(w, n) && !BreakGlass(w.spec)
    requires Step(w, a).spec.image == w.spec.image && n in Step(w, a).fleet
    ensures Stranded(Step(w, a), n) || GivenUp(Step(w, a))
  {
    if a.Reconcile? { ReconcileKeepsStranded(Observed(w, a), w, Step(w, a), n); }
  }

  /** However a run goes on while the target stays, break glass is not used and the member does not leave again: at every
      moment the member is still stranded, or the rollout has been given up on the way. In particular it never completes
      before that. */
  lemma {:induction false} StrandedUntilGivenUp(worlds: seq<World>, actions: seq<Action>, n: Name, j: nat, k: nat)
    requires Run(worlds, actions) && j <= k < |worlds| && Stranded(worlds[j], n)
    requires forall i :: j <= i <= k ==>
               worlds[i].spec.image == worlds[j].spec.image && !BreakGlass(worlds[i].spec) && n in worlds[i].fleet
    ensures Stranded(worlds[k], n) || exists i :: j < i <= k && GivenUp(worlds[i])
  {
    if j < k {
      StrandedUntilGivenUp(worlds, actions, n, j, k - 1);
      if Stranded(worlds[k - 1], n) { StepKeepsStranded(worlds[k - 1], actions[k - 1], n); }
    }
  }

  // ------------------------------------------------------------------ one run

  const NEW_IMAGE := "unleash:7"
  const OLD_IMAGE := "unleash:6"

  const PLAIN_SPEC := Spec(NEW_IMAGE, false, 2, None, None, false, None, None, "", false, false, "", true, "")

  const TWO_MEMBERS := Batch(["a", "b"], NEW_IMAGE, 0)

  const BATCH_OPEN := Status(Rolling, 2, 0, None, NoReason, 0, None, OLD_IMAGE,
                             map["a" := NEW_IMAGE, "b" := NEW_IMAGE], Some(TWO_MEMBERS), 0, "", Some(0))

  const LAGGING := Instance(1, false, true, OLD_IMAGE, Condition(Absent, 0), Condition(Absent, 0), None, Resting)

  const NO_FAULTS := Faults(false, false, false, {}, {})

  lemma NobodyFailedMeansNoRejection(o: Observation, st: Status)
    requires Valid(o) && forall n :: n in o.fleet ==> !TerminallyFailed(o.fleet[n])
    ensures RollingMoveOf(o, st) != BatchAwaits(Rejects)
  {}

  lemma NothingToTrack(w: World, a: Action)
    requires Enabled(w, a) && a.Reconcile? && w.spec.allowDowngrade
    requires w.status.previousImage != "" && exists n :: n in w.fleet && w.fleet[n].resolved == w.status.previousImage
    ensures var o := Observed(w, a);
            !o.refused && o.faults == a.faults && o.order == a.order && Track(o, w.status) == w.status
  {
    var o := Observed(w, a);
    if o.baseline != "" { ObservedBaselineIsUnanimous(w.fleet, a.order, o.baseline); }
  }

  lemma LaggingMemberIsAwaited(o: Observation)
    requires Valid(o) && o.spec == PLAIN_SPEC && o.fleet == map["b" := LAGGING] && o.faults == NO_FAULTS
    requires !o.refused && o.now == 0
    ensures RollingMoveOf(o, BATCH_OPEN) == BatchAwaits(NotReady)
  {
    assert o.fleet["b"] == LAGGING && !BreakGlass(o.spec);
    WaitsOrGivesUp(o, BATCH_OPEN, "b");
    NobodyFailedMeansNoRejection(o, BATCH_OPEN);
    assert RollingMoveOf(o, BATCH_OPEN) !in {RollingListingFails, RollingRefuses, RollingTimesOut};
  }

  lemma CountedStatus(o: Observation)
    requires o.spec == PLAIN_SPEC && o.fleet == map["b" := LAGGING]
    ensures UpdateCounts(o, BATCH_OPEN) ==
              BATCH_OPEN.(instances := 1, upToDate := 0, instanceImages := map["b" := NEW_IMAGE])
  {
    assert UpToDate(o) == {} && |o.fleet| == 1;
    assert UpdateCounts(o, BATCH_OPEN).instanceImages == map["b" := NEW_IMAGE];
  }

  /** A count taken while one member is away and the other lags drops the entry of the one and goes on waiting. */
  lemma CountDropsDepartedMember(w: World)
    requires w == World(PLAIN_SPEC, BATCH_OPEN, map["b" := LAGGING], 0)
    ensures Enabled(w, Reconcile(["b"], NO_FAULTS))
    ensures Step(w, Reconcile(["b"], NO_FAULTS)) ==
              w.(status := BATCH_OPEN.(instances := 1, upToDate := 0, instanceImages := map["b" := NEW_IMAGE]))
  {
    var a := Reconcile(["b"], NO_FAULTS);
    assert w.fleet["b"] == LAGGING && "b" in a.order;
    var o := Observed(w, a);
    NothingToTrack(w, a);
    LaggingMemberIsAwaited(o);
    WaitingLeaves(o, BATCH_OPEN);
    CountedStatus(o);
  }

  lemma ThreeSteps(w0: World, a0: Action, w1: World, a1: Action, w2: World, a2: Action, w3: World)
    requires Enabled(w0, a0) && Step(w0, a0) == w1
    requires Enabled(w1, a1) && Step(w1, a1) == w2
    requires Enabled(w2, a2) && Step(w2, a2) == w3
    ensures Run([w0, w1, w2, w3], [a0, a1, a2])
  {}

  lemma MemberLeaves(w: World)
    requires w == World(PLAIN_SPEC, BATCH_OPEN, map["a" := LAGGING, "b" := LAGGING], 0)
    ensures Enabled(w, Leave("a")) && Step(w, Leave("a")) == w.(fleet := map["b" := LAGGING])
    ensures BatchIsAssigned(w.fleet, w.status)
  {
    assert w.fleet - {"a"} == map["b" := LAGGING];
  }

  lemma MemberReturns(w: World, i: Instance)
    requires w.spec == PLAIN_SPEC && w.fleet == map["b" := LAGGING] && i == LAGGING.(resolved := "")
    requires w.status == BATCH_OPEN.(instances := 1, upToDate := 0, instanceImages := map["b" := NEW_IMAGE])
    ensures Enabled(w, Join("a", i)) && Stranded(Step(w, Join("a", i)), "a")
    ensures var after := Step(w, Join("a", i));
            Resolve(after.spec, after.status, "a", after.fleet["a"]) == Some(OLD_IMAGE)
  {}

  /** One member leaves while the other lags, the channel counts, and the member comes back: from an assigned batch to a
      stranded member in three steps. */
  lemma RejoinedMemberIsStranded() returns (worlds: seq<World>, actions: seq<Action>)
    ensures Run(worlds, actions) && |actions| == 3
    ensures actions[0] == Leave("a") && actions[1].Reconcile? && actions[2].Join? && actions[2].n == "a"
    ensures BatchIsAssigned(worlds[0].fleet, worlds[0].status) && worlds[0].status.phase == Rolling
    ensures Stranded(worlds[3], "a")
    ensures Resolve(worlds[3].spec, worlds[3].status, "a", worlds[3].fleet["a"]) == Some(OLD_IMAGE)
    ensures Expected(worlds[3].spec, worlds[3].status, worlds[3].fleet["a"], NEW_IMAGE) == NEW_IMAGE
  {
    var w0 := World(PLAIN_SPEC, BATCH_OPEN, map["a" := LAGGING, "b" := LAGGING], 0);
    var w1 := Step(w0, Leave("a"));
    MemberLeaves(w0);
    CountDropsDepartedMember(w1);
    var w2 := Step(w1, Reconcile(["b"], NO_FAULTS));
    var back := Join("a", LAGGING.(resolved := ""));
    MemberReturns(w2, back.instance);
    actions := [Leave("a"), Reconcile(["b"], NO_FAULTS), back];
    worlds := [w0, w1, w2, Step(w2, back)];
    ThreeSteps(w0, Leave("a"), w1, Reconcile(["b"], NO_FAULTS), w2, back, worlds[3]);
    StrandedPullsAnotherImage(worlds[3], "a");
  }
}
