/** Version ordering of container images and the fleet-wide decisions built on it
    (internal/controller/releasechannel_version.go). An image is a string; "" means none. */
module ImageVersions {
  import opened Wrappers

  type Image = string

  // ---------------------------------------------------------------- tags

  /** Index of the last c among the first n characters of s, or -1. */
  function LastBefore(s: string, c: char, n: nat): (i: int)
    requires n <= |s|
    ensures -1 <= i < n
    ensures i >= 0 ==> s[i] == c
    ensures forall j :: i < j < n ==> s[j] != c
  {
    if n == 0 then -1 else if s[n - 1] == c then n - 1 else LastBefore(s, c, n - 1)
  }

  function LastIndex(s: string, c: char): (i: int)
    ensures -1 <= i < |s|
  {
    LastBefore(s, c, |s|)
  }

  function AfterLast(s: string, c: char): string { s[LastIndex(s, c) + 1..] }

  function ImageTag(image: Image): string {
    if image == "" || '@' in image then ""
    else
      var name := AfterLast(image, '/');
      if LastIndex(name, ':') == -1 then "" else AfterLast(name, ':')
  }

  // ------------------------------------------------- the version inside a tag

  predicate IsDigit(c: char) { '0' <= c <= '9' }

  predicate AllDigits(s: string) { forall i :: 0 <= i < |s| ==> IsDigit(s[i]) }

  /** End of the longest run of digits starting at i. */
  function DigitsEnd(s: string, i: nat): (j: nat)
    requires i <= |s|
    ensures i <= j <= |s|
    ensures forall k :: i <= k < j ==> IsDigit(s[k])
    ensures j < |s| ==> !IsDigit(s[j])
    decreases |s| - i
  {
    if i < |s| && IsDigit(s[i]) then DigitsEnd(s, i + 1) else i
  }

  datatype Core = Core(major: string, minor: string, patch: string)

  /** digits '.' digits '.' digits, starting exactly at i and taking as many digits as possible. */
  function MatchCore(s: string, i: nat): Option<Core>
    requires i <= |s|
  {
    var a := DigitsEnd(s, i);
    if a == i || a == |s| || s[a] != '.' then None
    else
      var b := DigitsEnd(s, a + 1);
      if b == a + 1 || b == |s| || s[b] != '.' then None
      else
        var c := DigitsEnd(s, b + 1);
        if c == b + 1 then None else Some(Core(s[i..a], s[a + 1..b], s[b + 1..c]))
  }

  /** The leftmost match at or after i. */
  function FindCore(s: string, i: nat): Option<Core>
    requires i <= |s|
    decreases |s| - i
  {
    match MatchCore(s, i)
    case Some(core) => Some(core)
    case None => if i == |s| then None else FindCore(s, i + 1)
  }

  datatype Version = Version(major: nat, minor: nat, patch: nat)

  function Value(digits: string): nat {
    if digits == "" then 0
    else
      var d := digits[|digits| - 1];
      10 * Value(digits[..|digits| - 1]) + (if IsDigit(d) then d as int - '0' as int else 0)
  }

  const MAX_UINT64: nat := 0xFFFF_FFFF_FFFF_FFFF

  /** A core is a version unless one of its numbers does not fit an unsigned 64-bit integer. */
  function CoreVersion(core: Core): Option<Version> {
    var major, minor, patch := Value(core.major), Value(core.minor), Value(core.patch);
    if major <= MAX_UINT64 && minor <= MAX_UINT64 && patch <= MAX_UINT64
    then Some(Version(major, minor, patch)) else None
  }

  function TagVersion(tag: string): Option<Version> {
    match FindCore(tag, 0)
    case None => None
    case Some(core) => CoreVersion(core)
  }

  function ImageVersion(image: Image): Option<Version> { TagVersion(ImageTag(image)) }

  function Sign(x: int): int { if x < 0 then -1 else if x > 0 then 1 else 0 }

  function Compare(a: Version, b: Version): int {
    if a.major != b.major then Sign(a.major - b.major)
    else if a.minor != b.minor then Sign(a.minor - b.minor)
    else Sign(a.patch - b.patch)
  }

  /** -1 when target is older than current, 1 when newer, nothing when either cannot be ranked. */
  function CompareRanks(current: Option<Version>, target: Option<Version>): Option<int> {
    match (current, target)
    case (Some(c), Some(t)) => Some(Compare(t, c))
    case _ => None
  }

  function CompareImages(current: Image, target: Image): Option<int> {
    CompareRanks(ImageVersion(current), ImageVersion(target))
  }

  /** Core comparison is a total order: antisymmetric, transitive, and zero only on equal versions. */
  lemma CompareIsTotalOrder(a: Version, b: Version, c: Version)
    ensures Compare(a, b) == -Compare(b, a)
    ensures Compare(a, b) == 0 <==> a == b
    ensures Compare(a, b) >= 0 && Compare(b, c) >= 0 ==> Compare(a, c) >= 0
    ensures Compare(a, b) > 0 && Compare(b, c) >= 0 ==> Compare(a, c) > 0
    ensures Compare(a, b) >= 0 && Compare(b, c) > 0 ==> Compare(a, c) > 0
  {}

  // --------------------------------------------- extraction recovers the version

  function Decimal(n: nat): (s: string)
    ensures s != "" && AllDigits(s)
  {
    var d := ('0' as int + n % 10) as char;
    if n < 10 then [d] else Decimal(n / 10) + [d]
  }

  lemma {:induction false} DecimalRoundTrip(n: nat)
    ensures Value(Decimal(n)) == n
  {
    var s := Decimal(n);
    if n >= 10 {
      assert s[..|s| - 1] == Decimal(n / 10);
      DecimalRoundTrip(n / 10);
    } else {
      assert s[..|s| - 1] == "";
    }
  }

  lemma {:induction false} DigitsEndAt(s: string, i: nat, j: nat)
    requires i <= j <= |s|
    requires forall k :: i <= k < j ==> IsDigit(s[k])
    requires j < |s| ==> !IsDigit(s[j])
    ensures DigitsEnd(s, i) == j
    decreases j - i
  {
    if i < j { DigitsEndAt(s, i + 1, j); }
  }

  /** What may surround a core for the scanner to find it: a dot-free prefix that does not end in a digit,
      and a suffix that does not start with one. */
  predicate Framed(prefix: string, suffix: string) {
    && '.' !in prefix
    && (prefix != "" ==> !IsDigit(prefix[|prefix| - 1]))
    && (suffix != "" ==> !IsDigit(suffix[0]))
  }

  function Render(prefix: string, core: Core, suffix: string): string {
    prefix + core.major + "." + core.minor + "." + core.patch + suffix
  }

  lemma NoMatchInsidePrefix(prefix: string, rest: string, i: nat)
    requires Framed(prefix, "") && i < |prefix|
    ensures MatchCore(prefix + rest, i) == None
  {
    var s := prefix + rest;
    var a := DigitsEnd(s, i);
    assert s[|prefix| - 1] == prefix[|prefix| - 1];
    assert a < |prefix|;
    assert s[a] == prefix[a];
  }

  lemma MatchWithin(s: string, i: nat, a: nat, b: nat, c: nat)
    requires i < a < |s| && a + 1 < b < |s| && b + 1 < c <= |s|
    requires AllDigits(s[i..a]) && AllDigits(s[a + 1..b]) && AllDigits(s[b + 1..c])
    requires s[a] == '.' && s[b] == '.' && (c < |s| ==> !IsDigit(s[c]))
    ensures MatchCore(s, i) == Some(Core(s[i..a], s[a + 1..b], s[b + 1..c]))
  {
    DigitsEndWithin(s, i, a);
    DigitsEndWithin(s, a + 1, b);
    DigitsEndWithin(s, b + 1, c);
  }

  lemma RenderedParts(prefix: string, core: Core, suffix: string)
    ensures var s := Render(prefix, core, suffix);
            var a := |prefix| + |core.major|;
            var b := a + 1 + |core.minor|;
            var c := b + 1 + |core.patch|;
            && |s| == c + |suffix| && s[|prefix|..a] == core.major && s[a] == '.' && s[a + 1..b] == core.minor
            && s[b] == '.' && s[b + 1..c] == core.patch && s[c..] == suffix
  {}

  lemma MatchParts(s: string, i: nat, core: Core, suffix: string)
    requires var a := i + |core.major|;
             var b := a + 1 + |core.minor|;
             var c := b + 1 + |core.patch|;
             && |s| == c + |suffix| && s[i..a] == core.major && s[a] == '.' && s[a + 1..b] == core.minor
             && s[b] == '.' && s[b + 1..c] == core.patch && s[c..] == suffix
    requires core.major != "" && AllDigits(core.major) && core.minor != "" && AllDigits(core.minor)
    requires core.patch != "" && AllDigits(core.patch) && (suffix != "" ==> !IsDigit(suffix[0]))
    ensures MatchCore(s, i) == Some(core)
  {
    var a := i + |core.major|;
    var b := a + 1 + |core.minor|;
    var c := b + 1 + |core.patch|;
    assert c < |s| ==> s[c] == s[c..][0];
    MatchWithin(s, i, a, b, c);
  }

  lemma MatchAtCore(prefix: string, core: Core, suffix: string)
    requires Framed(prefix, suffix)
    requires core.major != "" && AllDigits(core.major)
    requires core.minor != "" && AllDigits(core.minor)
    requires core.patch != "" && AllDigits(core.patch)
    ensures MatchCore(Render(prefix, core, suffix), |prefix|) == Some(core)
  {
    RenderedParts(prefix, core, suffix);
    MatchParts(Render(prefix, core, suffix), |prefix|, core, suffix);
  }

  lemma DigitsEndWithin(s: string, i: nat, j: nat)
    requires i <= j <= |s| && AllDigits(s[i..j])
    requires j < |s| ==> !IsDigit(s[j])
    ensures DigitsEnd(s, i) == j
  {
    forall k | i <= k < j ensures IsDigit(s[k]) { assert s[k] == s[i..j][k - i]; }
    DigitsEndAt(s, i, j);
  }

  lemma {:induction false} FindSkipsPrefix(prefix: string, rest: string, i: nat)
    requires Framed(prefix, "") && i <= |prefix|
    requires MatchCore(prefix + rest, |prefix|).Some?
    ensures FindCore(prefix + rest, i) == MatchCore(prefix + rest, |prefix|)
    decreases |prefix| - i
  {
    if i < |prefix| {
      NoMatchInsidePrefix(prefix, rest, i);
      FindSkipsPrefix(prefix, rest, i + 1);
    }
  }

  lemma {:induction false} LastIndexAt(s: string, c: char, i: int)
    requires -1 <= i < |s|
    requires i >= 0 ==> s[i] == c
    requires forall j :: i < j < |s| ==> s[j] != c
    ensures LastIndex(s, c) == i
  {}

  lemma AfterLastAppend(s: string, t: string, c: char)
    requires c !in t
    ensures AfterLast(s + t, c) == AfterLast(s, c) + t
  {
    var i := LastIndex(s, c);
    forall j | i < j < |s + t| ensures (s + t)[j] != c {
      if j >= |s| { assert (s + t)[j] == t[j - |s|]; }
    }
    LastIndexAt(s + t, c, i);
    assert (s + t)[i + 1..] == s[i + 1..] + t;
  }

  lemma AfterLastSeparator(s: string, c: char, t: string)
    requires c !in t
    ensures AfterLast(s + [c] + t, c) == t && LastIndex(s + [c] + t, c) == |s|
  {
    var whole := s + [c] + t;
    forall j | |s| < j < |whole| ensures whole[j] != c { assert whole[j] == t[j - |s| - 1]; }
    assert whole[|s|] == c;
    LastIndexAt(whole, c, |s|);
    assert whole[|s| + 1..] == t;
  }

  lemma NameOfTaggedImage(repository: string, tag: string)
    requires '/' !in tag
    ensures AfterLast(repository + [':'] + tag, '/') == AfterLast(repository, '/') + [':'] + tag
  {
    var suffix := [':'] + tag;
    forall i | 0 <= i < |suffix| ensures suffix[i] != '/' {
      if i > 0 { assert suffix[i] == tag[i - 1]; }
    }
    AfterLastAppend(repository, suffix, '/');
    assert repository + [':'] + tag == repository + suffix;
    assert AfterLast(repository, '/') + [':'] + tag == AfterLast(repository, '/') + suffix;
  }

  lemma TagIsRecovered(repository: string, tag: string)
    requires '@' !in repository && '@' !in tag && '/' !in tag && ':' !in tag
    ensures ImageTag(repository + [':'] + tag) == tag
  {
    var image := repository + [':'] + tag;
    NameOfTaggedImage(repository, tag);
    AfterLastSeparator(AfterLast(repository, '/'), ':', tag);
    assert |image| > 0 && '@' !in image;
  }

  lemma RenderedTagIsPlain(prefix: string, core: Core, suffix: string, c: char)
    requires AllDigits(core.major) && AllDigits(core.minor) && AllDigits(core.patch)
    requires c !in prefix && c !in suffix && !IsDigit(c) && c != '.'
    ensures c !in Render(prefix, core, suffix)
  {}

  /** Every number of the version fits an unsigned 64-bit integer. */
  predicate Fits(v: Version) { v.major <= 18446744073709551615 && v.minor <= 18446744073709551615 && v.patch <= 18446744073709551615 }

  lemma TagVersionIsRecovered(prefix: string, v: Version, suffix: string)
    requires Framed(prefix, suffix)
    ensures TagVersion(Render(prefix, Core(Decimal(v.major), Decimal(v.minor), Decimal(v.patch)), suffix)) ==
              if Fits(v) then Some(v) else None
  {
    var core := Core(Decimal(v.major), Decimal(v.minor), Decimal(v.patch));
    var rest := core.major + "." + core.minor + "." + core.patch + suffix;
    assert Render(prefix, core, suffix) == prefix + rest;
    MatchAtCore(prefix, core, suffix);
    FindSkipsPrefix(prefix, rest, 0);
    DecimalRoundTrip(v.major);
    DecimalRoundTrip(v.minor);
    DecimalRoundTrip(v.patch);
  }

  predicate Unmarked(s: string) { '@' !in s && '/' !in s && ':' !in s }

  /** An image whose tag embeds major.minor.patch in any dot-free frame has exactly that version, or none when a number is
      too large. */
  lemma VersionIsRecovered(repository: string, prefix: string, v: Version, suffix: string)
    requires '@' !in repository && Unmarked(prefix) && Unmarked(suffix) && Framed(prefix, suffix)
    ensures var tag := Render(prefix, Core(Decimal(v.major), Decimal(v.minor), Decimal(v.patch)), suffix);
            ImageVersion(repository + [':'] + tag) == if Fits(v) then Some(v) else None
  {
    var core := Core(Decimal(v.major), Decimal(v.minor), Decimal(v.patch));
    var tag := Render(prefix, core, suffix);
    RenderedTagIsPlain(prefix, core, suffix, '@');
    RenderedTagIsPlain(prefix, core, suffix, '/');
    RenderedTagIsPlain(prefix, core, suffix, ':');
    TagIsRecovered(repository, tag);
    TagVersionIsRecovered(prefix, v, suffix);
  }

  // ------------------------------------------------------ images without a version

  /** Two dots with nothing but digits between them, at least one there, one before and one after. */
  predicate CoreAround(s: string, a: nat, b: nat) {
    && 0 < a && a + 1 < b && b + 1 < |s| && s[a] == '.' && s[b] == '.'
    && IsDigit(s[a - 1]) && AllDigits(s[a + 1..b]) && IsDigit(s[b + 1])
  }

  lemma {:induction false} FindsNothingWithoutMatch(s: string, i: nat)
    requires i <= |s|
    ensures FindCore(s, i).None? <==> forall j :: i <= j <= |s| ==> MatchCore(s, j).None?
    decreases |s| - i
  {
    if MatchCore(s, i).None? && i < |s| { FindsNothingWithoutMatch(s, i + 1); }
  }

  lemma MatchHasDots(s: string, i: nat)
    requires i <= |s| && MatchCore(s, i).Some?
    ensures exists a, b :: CoreAround(s, a, b)
  {
    var a := DigitsEnd(s, i);
    var b := DigitsEnd(s, a + 1);
    assert CoreAround(s, a, b);
  }

  lemma DotsMatch(s: string, a: nat, b: nat)
    requires CoreAround(s, a, b)
    ensures MatchCore(s, a - 1).Some?
  {
    DigitsEndAt(s, a - 1, a);
    DigitsEndWithin(s, a + 1, b);
  }

  /** The scanner finds a core in exactly the tags that hold one; "latest", "v7" and "7.5" do not. */
  lemma CoreIsFoundIff(tag: string)
    ensures FindCore(tag, 0).Some? <==> exists a, b :: CoreAround(tag, a, b)
    ensures '.' !in tag ==> TagVersion(tag).None?
  {
    FindsNothingWithoutMatch(tag, 0);
    if FindCore(tag, 0).Some? {
      var i :| 0 <= i <= |tag| && MatchCore(tag, i).Some?;
      MatchHasDots(tag, i);
    }
    if a, b :| CoreAround(tag, a, b) { DotsMatch(tag, a, b); }
  }

  /** A digest, or no colon after the last slash, leaves an image without a version, whatever else it holds. */
  lemma UntaggedHasNoVersion(registry: string, name: string)
    requires '/' !in name
    ensures ':' !in name ==> ImageVersion(registry + ['/'] + name).None? && ImageVersion(name).None?
    ensures '@' in registry + ['/'] + name ==> ImageVersion(registry + ['/'] + name).None?
  {
    var image := registry + ['/'] + name;
    AfterLastSeparator(registry, '/', name);
    LastIndexAt(name, '/', -1);
    assert AfterLast(name, '/') == name;
    CoreIsFoundIff("");
    if ':' !in name { LastIndexAt(name, ':', -1); }
  }
}
