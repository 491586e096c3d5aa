/** What the downgrade guard refuses, in terms of the numbers an image tag holds. */
module DowngradeGuard {
  import opened Wrappers
  import opened ImageVersions
  import opened ChannelModel
  import opened ChannelSteps
  import opened PhaseOutcomes
  import opened RolloutGuards
  import FleetImages

  /** The image reads repository:prefix major.minor.patch suffix. */
  ghost predicate Holds(image: Image, v: Version) {
    exists repository, prefix, suffix ::
      && '@' !in repository && Unmarked(prefix) && Unmarked(suffix) && Framed(prefix, suffix)
      && image == repository + [':'] + Render(prefix, Core(Decimal(v.major), Decimal(v.minor), Decimal(v.patch)), suffix)
  }

  /** Major first, then minor, then patch. */
  predicate Older(target: Version, current: Version) {
    || target.major < current.major
    || (target.major == current.major && target.minor < current.minor)
    || (target.major == current.major && target.minor == current.minor && target.patch < current.patch)
  }

  lemma HeldVersion(image: Image, v: Version)
    requires Holds(image, v)
    ensures ImageVersion(image) == if Fits(v) then Some(v) else None
  {
    var repository, prefix, suffix :|
      && '@' !in repository && Unmarked(prefix) && Unmarked(suffix) && Framed(prefix, suffix)
      && image == repository + [':'] + Render(prefix, Core(Decimal(v.major), Decimal(v.minor), Decimal(v.patch)), suffix);
    VersionIsRecovered(repository, prefix, v, suffix);
  }

  lemma ComparedByNumbers(current: Image, target: Image, c: Version, t: Version)
    requires Holds(current, c) && Holds(target, t) && Fits(c) && Fits(t)
    ensures CompareImages(current, target) == Some(if Older(t, c) then -1 else if Older(c, t) then 1 else 0)
    ensures t.major > c.major ==> CompareImages(current, target) == Some(1)
  {
    HeldVersion(current, c);
    HeldVersion(target, t);
  }

  /** More instances report this image than any other. */
  predicate MostlyOn(fleet: seq<Image>, image: Image) {
    image != "" && image in fleet && forall x :: x in fleet && x !in {"", image} ==> multiset(fleet)[x] < multiset(fleet)[image]
  }

  lemma FleetIsOn(fleet: seq<Image>, image: Image)
    requires MostlyOn(fleet, image)
    ensures FleetImages.FleetImage(fleet).image == image
  {
    FleetImages.FleetImageIsModalAndNewest(fleet);
  }

  /** A fleet mostly on one version refuses exactly the targets with an older one; a version is older by its major number,
      or else by its minor number, or else by its patch number, whatever surrounds it in the tag. */
  lemma RefusesExactlyOlderVersions(fleet: seq<Image>, current: Image, target: Image, c: Version, t: Version)
    requires MostlyOn(fleet, current) && Holds(current, c) && Holds(target, t) && Fits(c) && Fits(t)
    ensures forall allow :: FleetImages.DowngradeRefused(allow, target, fleet) <==> !allow && Older(t, c)
  {
    FleetIsOn(fleet, current);
    ComparedByNumbers(current, target, c, t);
  }

  /** Where either image has no version, nothing is refused. */
  lemma UnrankedIsNotRefused(fleet: seq<Image>, current: Image, target: Image)
    requires MostlyOn(fleet, current) && (ImageVersion(current).None? || ImageVersion(target).None?)
    ensures forall allow :: !FleetImages.DowngradeRefused(allow, target, fleet)
  {
    FleetIsOn(fleet, current);
  }

  /** An idle channel leaves for a new target unless that holds an older version than most of the fleet runs and downgrades
      are not allowed, and if it stays it assigns nobody anything. */
  lemma IdleLeavesUnlessOlder(
    spec: Spec, fleet: Fleet, order: seq<Name>, now: Time, faults: Faults, st: Status, current: Image, c: Version, t: Version)
    requires Lists(fleet, order) && !faults.list && st.phase == Idle && current != spec.image
    requires MostlyOn(ResolvedImages(fleet, order), current)
    requires Holds(current, c) && Holds(spec.image, t) && Fits(c) && Fits(t)
    ensures var after := ChannelStep(Observe(spec, fleet, order, now, faults), st);
            && (after.phase == (if !spec.allowDowngrade && Older(t, c) then Idle else if spec.canaryEnabled then Canary else Rolling))
            && forall n :: n in fleet ==> ImageOf(after, n) == ImageOf(st, n)
  {
    var o := Observe(spec, fleet, order, now, faults);
    RefusesExactlyOlderVersions(ResolvedImages(fleet, order), current, spec.image, c, t);
    ResolvedImagesCover(fleet, order);
    var n :| n in fleet && fleet[n].resolved == current;
    assert SomebodyOff(o);
    IdleStartsIff(o, st);
    IdleDecision(o, st);
    if o.refused { RefusedStep(o, st); }
  }
}
