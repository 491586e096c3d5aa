/** What a fleet runs: its distinct images, its rollback baseline, its most common image, and the downgrade
    guard (internal/controller/releasechannel_version.go:89-183). A fleet is the list of images its
    instances report, in whatever order they were listed; "" means an instance reports none. */
module FleetImages {
  import opened Wrappers
  import opened StringLists
  import opened ImageVersions

  // ------------------------------------------------------------ string order

  predicate Below(a: string, b: string) {
    b != "" && (a == "" || a[0] < b[0] || (a[0] == b[0] && Below(a[1..], b[1..])))
  }

  lemma {:induction false} BelowIsStrictTotalOrder(a: string, b: string, c: string)
    ensures !Below(a, a)
    ensures a == b || Below(a, b) || Below(b, a)
    ensures !(Below(a, b) && Below(b, a))
    ensures Below(a, b) && Below(b, c) ==> Below(a, c)
  {
    if a != "" {
      BelowIsStrictTotalOrder(a[1..], if b == "" then "" else b[1..], if c == "" then "" else c[1..]);
      assert b != "" && a[0] == b[0] && a[1..] == b[1..] ==> a == [a[0]] + a[1..] == b;
    }
  }

  predicate Ascending(s: seq<string>) {
    forall i, j :: 0 <= i < j < |s| ==> Below(s[i], s[j])
  }

  /** Puts x into an ascending list, once. */
  function Insert(x: string, s: seq<string>): (r: seq<string>)
    requires Ascending(s)
    ensures forall y :: y in r <==> y == x || y in s
    ensures Ascending(r)
  {
    if s == [] then [x]
    else if x == s[0] then s
    else if Below(x, s[0]) then
      assert forall j :: 0 <= j < |s| ==> Below(x, s[j]) by {
        forall j | 0 <= j < |s| ensures Below(x, s[j]) { BelowIsStrictTotalOrder(x, s[0], s[j]); }
      }
      [x] + s
    else
      var rest := Insert(x, s[1..]);
      BelowIsStrictTotalOrder(x, s[0], x);
      assert forall y :: y in rest ==> Below(s[0], y);
      [s[0]] + rest
  }

  lemma {:induction false} AscendingIsUnique(s: seq<string>, t: seq<string>)
    requires Ascending(s) && Ascending(t)
    requires forall x :: x in s <==> x in t
    ensures s == t
  {
    assert t != [] ==> t[0] in s;
    if s != [] {
      assert s[0] in t && t != [] && t[0] in s;
      BelowIsStrictTotalOrder(s[0], t[0], s[0]);
      assert s[0] == t[0];
      forall x ensures x in s[1..] <==> x in t[1..] {
        BelowIsStrictTotalOrder(s[0], x, x);
        assert x in s <==> x == s[0] || x in s[1..];
        assert x in t <==> x == t[0] || x in t[1..];
      }
      AscendingIsUnique(s[1..], t[1..]);
      assert s == [s[0]] + s[1..] && t == [t[0]] + t[1..];
    }
  }

  function SortedDistinct(s: seq<string>): (r: seq<string>)
    ensures Ascending(r)
    ensures forall x :: x in r <==> x in s
  {
    if s == [] then [] else Insert(s[|s| - 1], SortedDistinct(s[..|s| - 1]))
  }

  // --------------------------------------------------------- deployed images

  function Reported(fleet: seq<Image>): (r: seq<Image>)
    ensures forall x :: x in r <==> x in fleet && x != ""
  {
    if fleet == [] then []
    else Reported(fleet[..|fleet| - 1]) + (if fleet[|fleet| - 1] == "" then [] else [fleet[|fleet| - 1]])
  }

  /** The distinct reported images in ascending order. */
  function DeployedImages(fleet: seq<Image>): (r: seq<Image>)
    ensures Ascending(r)
    ensures forall x :: x in r <==> x in fleet && x != ""
  {
    SortedDistinct(Reported(fleet))
  }

  method CollectDeployedImages(fleet: seq<Image>) returns (images: seq<Image>)
    ensures images == DeployedImages(fleet)
  {
    var seen: set<Image> := {};
    images := [];
    for i := 0 to |fleet|
      invariant forall x :: x in images <==> x in fleet[..i] && x != ""
      invariant forall x :: x in seen <==> x in images
    {
      assert fleet[..i + 1] == fleet[..i] + [fleet[i]];
      if fleet[i] == "" || fleet[i] in seen { continue; }
      seen := seen + {fleet[i]};
      images := images + [fleet[i]];
    }
    assert fleet[..|fleet|] == fleet;
    images := SortedDistinct(images);
    AscendingIsUnique(images, DeployedImages(fleet));
  }

  function RollbackBaseline(fleet: seq<Image>): Image {
    var images := DeployedImages(fleet);
    if |images| != 1 then "" else images[0]
  }

  /** The baseline is an image exactly when some instance reports it and no instance reports another. */
  lemma BaselineIsUnanimous(fleet: seq<Image>, image: Image)
    requires image != ""
    ensures RollbackBaseline(fleet) == image <==> image in fleet && forall x :: x in fleet ==> x == "" || x == image
  {
    var images := DeployedImages(fleet);
    if image in fleet && forall x :: x in fleet ==> x == "" || x == image {
      AscendingIsUnique(images, [image]);
    }
    if |images| == 1 && images[0] == image {
      assert image in images;
      forall x | x in fleet && x != "" ensures x == image { assert x in images; }
    }
  }

  // ------------------------------------------------------------- fleet image

  datatype Modal = Modal(image: Image, count: nat)

  /** One candidate against the best so far: more frequent wins, and a tie goes to the newer image. */
  function Challenge(rank: Image -> Option<Version>, best: Modal, image: Image, count: nat): Modal {
    if count > best.count then Modal(image, count)
    else if count == best.count && best.image != "" && CompareRanks(rank(best.image), rank(image)) == Some(1)
    then Modal(image, count)
    else best
  }

  function BestOf(rank: Image -> Option<Version>, counts: multiset<Image>, images: seq<Image>): Modal {
    if images == [] then Modal("", 0)
    else
      var image := images[|images| - 1];
      Challenge(rank, BestOf(rank, counts, images[..|images| - 1]), image, counts[image])
  }

  /** The image most instances run and how many do. */
  function FleetImage(fleet: seq<Image>): Modal {
    BestOf(ImageVersion, multiset(fleet), DeployedImages(fleet))
  }

  predicate NoneNewer(rank: Image -> Option<Version>, counts: multiset<Image>, images: seq<Image>, best: Modal) {
    forall x :: x in images && counts[x] == best.count ==> CompareRanks(rank(best.image), rank(x)) != Some(1)
  }

  /** Replacing the best by a newer one leaves nothing newer than it that was not newer before. */
  lemma NewerStaysNewest(best: Option<Version>, newer: Option<Version>, other: Option<Version>)
    ensures CompareRanks(newer, newer) != Some(1)
    ensures CompareRanks(best, newer) == Some(1) && CompareRanks(best, other) != Some(1) ==> CompareRanks(newer, other) != Some(1)
  {
    if best.Some? && newer.Some? && other.Some? {
      CompareIsTotalOrder(newer.value, best.value, other.value);
      CompareIsTotalOrder(other.value, newer.value, best.value);
      CompareIsTotalOrder(newer.value, newer.value, newer.value);
    } else if newer.Some? {
      CompareIsTotalOrder(newer.value, newer.value, newer.value);
    }
  }

  lemma {:induction false} BestIsMostFrequentThenNewest(
    rank: Image -> Option<Version>, counts: multiset<Image>, images: seq<Image>)
    requires forall x :: x in images ==> x != "" && counts[x] > 0
    ensures var best := BestOf(rank, counts, images);
            && (images == [] <==> best.image == "")
            && (images != [] ==> best.image in images && best.count == counts[best.image])
            && (forall x :: x in images ==> counts[x] <= best.count)
            && NoneNewer(rank, counts, images, best)
  {
    if images != [] {
      var before, image := images[..|images| - 1], images[|images| - 1];
      assert images == before + [image];
      forall x | x in before ensures x != "" && counts[x] > 0 { assert x in images; }
      BestIsMostFrequentThenNewest(rank, counts, before);
      var prior, best := BestOf(rank, counts, before), BestOf(rank, counts, images);
      forall x | x in images && counts[x] == best.count
        ensures CompareRanks(rank(best.image), rank(x)) != Some(1)
      {
        NewerStaysNewest(rank(prior.image), rank(image), rank(x));
        assert x in before || x == image;
      }
    }
  }

  /** The fleet image is reported by a largest number of instances, and no equally common image is newer. */
  lemma FleetImageIsModalAndNewest(fleet: seq<Image>)
    ensures var best := FleetImage(fleet);
            && (best.image == "" <==> forall x :: x in fleet ==> x == "")
            && (best.image != "" ==> best.image in fleet && best.count == multiset(fleet)[best.image])
            && (forall x :: x in fleet && x != "" ==> multiset(fleet)[x] <= best.count)
            && (forall x :: x in fleet && x != "" && multiset(fleet)[x] == best.count
                  ==> CompareImages(best.image, x) != Some(1))
  {
    var images := DeployedImages(fleet);
    BestIsMostFrequentThenNewest(ImageVersion, multiset(fleet), images);
    if images == [] {
      forall x | x in fleet ensures x == "" { assert x != "" ==> x in images; }
    } else {
      assert images[0] in images;
    }
  }

  method CountImages(fleet: seq<Image>) returns (counts: map<Image, nat>)
    ensures forall x :: x != "" ==> multiset(fleet)[x] == if x in counts then counts[x] else 0
  {
    counts := map[];
    for i := 0 to |fleet|
      invariant forall x :: x != "" ==> multiset(fleet[..i])[x] == if x in counts then counts[x] else 0
    {
      assert fleet[..i + 1] == fleet[..i] + [fleet[i]];
      if fleet[i] != "" {
        counts := counts[fleet[i] := (if fleet[i] in counts then counts[fleet[i]] else 0) + 1];
      }
    }
    assert fleet[..|fleet|] == fleet;
  }

  /** The scan behind FleetImage, for any ranking of images; the operator ranks by ImageVersion. */
  method ComputeFleetImage(rank: Image -> Option<Version>, fleet: seq<Image>) returns (best: Image, bestCount: nat)
    ensures Modal(best, bestCount) == BestOf(rank, multiset(fleet), DeployedImages(fleet))
  {
    var counts := CountImages(fleet);
    best, bestCount := "", 0;
    var images := CollectDeployedImages(fleet);
    for i := 0 to |images|
      invariant Modal(best, bestCount) == BestOf(rank, multiset(fleet), images[..i])
    {
      assert images[..i + 1][..i] == images[..i] && images[..i + 1][i] == images[i];
      assert images[i] in images;
      var count := if images[i] in counts then counts[images[i]] else 0;
      if count > bestCount {
        best, bestCount := images[i], count;
        continue;
      }
      if count == bestCount && best != "" {
        var order := CompareRanks(rank(best), rank(images[i]));
        if order.Some? && order.value > 0 {
          best := images[i];
        }
      }
    }
    assert images[..|images|] == images;
  }

  // --------------------------------------------------------- downgrade guard

  predicate OlderThanFleet(target: Image, fleet: seq<Image>) {
    var deployed := FleetImage(fleet).image;
    deployed != "" && CompareImages(deployed, target) == Some(-1)
  }

  predicate DowngradeRefused(allowDowngrade: bool, target: Image, fleet: seq<Image>) {
    !allowDowngrade && OlderThanFleet(target, fleet)
  }

  /** Nothing read off a fleet depends on the order its instances were listed in. */
  lemma FleetReadingsIgnoreListOrder(a: seq<Image>, b: seq<Image>)
    requires Permutation(a, b)
    ensures DeployedImages(a) == DeployedImages(b)
    ensures RollbackBaseline(a) == RollbackBaseline(b)
    ensures FleetImage(a) == FleetImage(b)
    ensures forall allow, target :: DowngradeRefused(allow, target, a) == DowngradeRefused(allow, target, b)
  {
    forall x ensures x in a <==> x in b { assert x in multiset(a) <==> x in multiset(b); }
    AscendingIsUnique(DeployedImages(a), DeployedImages(b));
  }

  /** A fleet already wholly on the target is never older than it. */
  lemma UnanimousFleetIsNotDowngraded(target: Image, fleet: seq<Image>)
    requires forall x :: x in fleet ==> x == target
    ensures !OlderThanFleet(target, fleet)
  {
    FleetImageIsModalAndNewest(fleet);
  }
}
