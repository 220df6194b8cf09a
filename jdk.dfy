/** The JDK discovery rules of src/bal_ls/index.ts: the directory names `jdk-<version>-jre`
    under the Ballerina dependencies directory, how `<version>` is read, and which directory
    `findHighestVersionJdk` picks. The directory listing is an input (None when the directory
    does not exist or cannot be read). */
module Jdk {
  import opened Text
  import opened Js
  import opened Platform

  /** `{ parsedVersion, buildNumber }` of `parseJdkVersion`; a None build number is NaN */
  datatype JdkVersion = JdkVersion(parsedVersion: seq<int>, buildNumber: Option<int>)

  /** `parseInt(num, 10) || 0`: NaN and zero both read as 0 */
  function ComponentValue(num: string): int {
    match ParseInt(num)
    case None => 0
    case Some(n) => n
  }

  /** `mainVersion`, the text before the first `+` */
  function MainPart(v: string): string {
    Split(v, "+")[0]
  }

  /** `buildPart || '0'`: the text between the first and second `+`, or "0" when that is
      missing or empty */
  function BuildText(v: string): string {
    var parts := Split(v, "+");
    if |parts| >= 2 && parts[1] != [] then parts[1] else "0"
  }

  function ParseJdkVersion(v: string): (r: JdkVersion)
    ensures |r.parsedVersion| == |Split(MainPart(v), ".")|
    ensures forall i :: 0 <= i < |r.parsedVersion| ==>
      r.parsedVersion[i] == ComponentValue(Split(MainPart(v), ".")[i])
  {
    var comps := Split(MainPart(v), ".");
    JdkVersion(seq(|comps|, i requires 0 <= i < |comps| => ComponentValue(comps[i])), ParseInt(BuildText(v)))
  }

  /** `JdkInfo` */
  datatype JdkInfo = JdkInfo(
    name: string,
    version: string,
    fullPath: string,
    parsedVersion: seq<int>,
    buildNumber: Option<int>)

  const JDK_PREFIX: string := "jdk-"
  const JRE_SUFFIX: string := "-jre"

  /** A match of `/^jdk-(.+)-jre$/`: the pattern is anchored at both ends and `.` matches
      anything but a line terminator, so the name is the prefix, a non-empty middle without
      line terminators, and the suffix */
  predicate MatchesJdkPattern(fileName: string) {
    |fileName| >= |JDK_PREFIX| + 1 + |JRE_SUFFIX|
    && StartsWith(fileName, JDK_PREFIX) && EndsWith(fileName, JRE_SUFFIX)
    && NoLineTerminator(fileName[|JDK_PREFIX|..|fileName| - |JRE_SUFFIX|])
  }

  predicate NoLineTerminator(s: string) {
    forall i :: 0 <= i < |s| ==> !IsLineTerminator(s[i])
  }

  /** `extractJdkInfo(fileName, directory)`; None is `null` */
  function ExtractJdkInfo(h: Helpers, fileName: string, directory: string): (r: Option<JdkInfo>)
    ensures r.Some? <==> MatchesJdkPattern(fileName)
    ensures r.Some? ==>
      fileName == JDK_PREFIX + r.value.version + JRE_SUFFIX
      && r.value.version != [] && NoLineTerminator(r.value.version)
      && r.value.name == fileName && r.value.fullPath == h.join([directory, fileName])
      && JdkVersion(r.value.parsedVersion, r.value.buildNumber) == ParseJdkVersion(r.value.version)
  {
    if !MatchesJdkPattern(fileName) then None
    else
      var version := fileName[|JDK_PREFIX|..|fileName| - |JRE_SUFFIX|];
      assert fileName == fileName[..|JDK_PREFIX|] + version + fileName[|fileName| - |JRE_SUFFIX|..];
      var parsed := ParseJdkVersion(version);
      Some(JdkInfo(fileName, version, h.join([directory, fileName]), parsed.parsedVersion, parsed.buildNumber))
  }

  /** `files.map(file => extractJdkInfo(file, directory)).filter(jdk => jdk !== null)` */
  function Candidates(h: Helpers, directory: string, files: seq<string>): (r: seq<JdkInfo>)
    ensures forall c :: c in r ==> exists f :: f in files && ExtractJdkInfo(h, f, directory) == Some(c)
    ensures forall f :: f in files && MatchesJdkPattern(f) ==> ExtractJdkInfo(h, f, directory).value in r
    ensures |r| <= |files|
    decreases |files|
  {
    if files == [] then []
    else
      var rest := Candidates(h, directory, files[1..]);
      assert forall f :: f in files[1..] ==> f in files;
      match ExtractJdkInfo(h, files[0], directory)
      case None => rest
      case Some(c) => [c] + rest
  }

  // ---------------------------------------------------------------------------------------
  // The order `orderBy` sorts by

  /** The four keys `parsedVersion[0] || 0`, `parsedVersion[1] || 0`, `parsedVersion[2] || 0`
      and `buildNumber` */
  datatype SortKey = SortKey(major: int, minor: int, patch: int, build: Option<int>)

  /** `parsedVersion[i] || 0`: a missing component reads as 0 */
  function ComponentOrZero(pv: seq<int>, i: nat): int {
    if i < |pv| then pv[i] else 0
  }

  function KeyOf(j: JdkInfo): SortKey {
    SortKey(ComponentOrZero(j.parsedVersion, 0), ComponentOrZero(j.parsedVersion, 1),
            ComponentOrZero(j.parsedVersion, 2), j.buildNumber)
  }

  /** lodash compares NaN as greater than every number, so NaN comes first in descending order */
  predicate BuildAtLeast(a: Option<int>, b: Option<int>) {
    a.None? || (b.Some? && a.value >= b.value)
  }

  /** `x` sorts no later than `y` in the descending lexicographic order */
  predicate AtLeast(x: SortKey, y: SortKey) {
    x.major > y.major
    || (x.major == y.major
        && (x.minor > y.minor
            || (x.minor == y.minor
                && (x.patch > y.patch || (x.patch == y.patch && BuildAtLeast(x.build, y.build))))))
  }

  /** The position of `sortedJdks[0]` among the first `n` candidates: a stable descending sort
      puts first the earliest candidate that no other candidate exceeds */
  function HighestIndex(cands: seq<JdkInfo>, n: nat): (k: nat)
    requires 0 < n <= |cands|
    ensures k < n
    ensures forall i :: 0 <= i < n ==> AtLeast(KeyOf(cands[k]), KeyOf(cands[i]))
    ensures forall i :: 0 <= i < k ==> !AtLeast(KeyOf(cands[i]), KeyOf(cands[k]))
    decreases n
  {
    if n == 1 then 0
    else
      var b := HighestIndex(cands, n - 1);
      if AtLeast(KeyOf(cands[b]), KeyOf(cands[n - 1])) then b
      else
        assert forall i :: 0 <= i < n - 1 ==> !AtLeast(KeyOf(cands[i]), KeyOf(cands[n - 1])) by {
          forall i | 0 <= i < n - 1 ensures !AtLeast(KeyOf(cands[i]), KeyOf(cands[n - 1])) {
            if AtLeast(KeyOf(cands[i]), KeyOf(cands[n - 1])) {
              AtLeastTransitive(KeyOf(cands[b]), KeyOf(cands[i]), KeyOf(cands[n - 1]));
            }
          }
        }
        AtLeastTotal(KeyOf(cands[b]), KeyOf(cands[n - 1]));
        n - 1
  }

  /** `findHighestVersionJdk(directory)`: None is `null`, returned when the directory cannot
      be listed or holds no `jdk-*-jre` entry */
  function FindHighestVersionJdk(h: Helpers, directory: string, listing: Option<seq<string>>): (r: Option<string>)
    ensures r.None? <==>
      listing.None? || forall f :: f in listing.value ==> !MatchesJdkPattern(f)
    ensures r.Some? ==>
      var cands := Candidates(h, directory, listing.value);
      exists k :: 0 <= k < |cands| && cands[k].fullPath == r.value
        && (forall i :: 0 <= i < |cands| ==> AtLeast(KeyOf(cands[k]), KeyOf(cands[i])))
        && (forall i :: 0 <= i < k ==> !AtLeast(KeyOf(cands[i]), KeyOf(cands[k])))
  {
    if listing.None? then None
    else
      var cands := Candidates(h, directory, listing.value);
      CandidatesEmpty(h, directory, listing.value);
      if cands == [] then None
      else
        var k := HighestIndex(cands, |cands|);
        Some(cands[k].fullPath)
  }

  /** No candidate is left exactly when no listed name matches the pattern */
  lemma CandidatesEmpty(h: Helpers, directory: string, files: seq<string>)
    ensures Candidates(h, directory, files) == [] <==> forall f :: f in files ==> !MatchesJdkPattern(f)
  {
    var cands := Candidates(h, directory, files);
    if cands != [] {
      assert cands[0] in cands;
    }
  }

  // ---------------------------------------------------------------------------------------
  // Properties

  lemma AtLeastTransitive(x: SortKey, y: SortKey, z: SortKey)
    requires AtLeast(x, y) && AtLeast(y, z)
    ensures AtLeast(x, z)
  {
  }

  lemma AtLeastTotal(x: SortKey, y: SortKey)
    ensures AtLeast(x, y) || AtLeast(y, x)
  {
  }

  /** One entry of `parsedVersion` per `.`-separated component of the text before `+` */
  lemma ParsedVersionLength(v: string)
    ensures |ParseJdkVersion(v).parsedVersion| == Count(MainPart(v), '.') + 1
  {
    SplitLength(MainPart(v), '.');
  }

  /** Without a `+`, the whole text is the main version and the build number is 0 */
  lemma NoBuildPart(v: string)
    requires '+' !in v
    ensures MainPart(v) == v && ParseJdkVersion(v).buildNumber == Some(0)
  {
    SplitNoSeparator(v, '+');
    ParseIntOfNat(0);
    assert NatToString(0) == "0";
  }

  /** A component that does not start with a digit (nor a sign or white space) reads as 0 */
  lemma NonNumericComponent(num: string)
    requires num == [] || !(IsDigit(num[0]) || IsJsSpace(num[0]) || num[0] == '-' || num[0] == '+')
    ensures ComponentValue(num) == 0
  {
    if num != [] {
      assert TrimStart(num) == num;
    }
  }

  /** The version text written from its numbers */
  function VersionString(comps: seq<nat>, build: nat): string {
    Join(seq(|comps|, i requires 0 <= i < |comps| => NatToString(comps[i])), ".") + "+" + NatToString(build)
  }

  /** `parseJdkVersion` reads back the numbers a version text was written from */
  lemma VersionRoundTrip(comps: seq<nat>, build: nat)
    requires |comps| >= 1
    ensures ParseJdkVersion(VersionString(comps, build)) == JdkVersion(comps, Some(build))
  {
    var ds := seq(|comps|, i requires 0 <= i < |comps| => NatToString(comps[i]));
    forall i | 0 <= i < |ds| ensures '.' !in ds[i] && '+' !in ds[i] {
      NatDigits(comps[i]);
    }
    var main := Join(ds, ".");
    var b := NatToString(build);
    NatDigits(build);
    assert '+' !in b;
    JoinAvoids(ds, ".", '+');
    assert Join([main, b], "+") == main + "+" + b;
    SplitJoin([main, b], '+');
    var v := VersionString(comps, build);
    assert v == main + "+" + b;
    assert MainPart(v) == main && BuildText(v) == b;
    SplitJoin(ds, '.');
    ParseIntOfNat(build);
    var r := ParseJdkVersion(v);
    forall i | 0 <= i < |comps| ensures r.parsedVersion[i] == comps[i] {
      ParseIntOfNat(comps[i]);
    }
  }

  lemma {:induction false} JoinAvoids(parts: seq<string>, sep: string, c: char)
    requires c !in sep && forall i :: 0 <= i < |parts| ==> c !in parts[i]
    ensures c !in Join(parts, sep)
    decreases |parts|
  {
    if |parts| > 1 {
      JoinAvoids(parts[1..], sep, c);
    }
  }

  /** Every `jdk-<v>-jre` name with a one-line, non-empty `<v>` is recognised, with `<v>` as
      its version */
  lemma RecognisedJdkName(h: Helpers, v: string, directory: string)
    requires v != [] && NoLineTerminator(v)
    ensures ExtractJdkInfo(h, JDK_PREFIX + v + JRE_SUFFIX, directory).Some?
    ensures ExtractJdkInfo(h, JDK_PREFIX + v + JRE_SUFFIX, directory).value.version == v
  {
    var f := JDK_PREFIX + v + JRE_SUFFIX;
    assert f[..|JDK_PREFIX|] == JDK_PREFIX;
    assert f[|f| - |JRE_SUFFIX|..] == JRE_SUFFIX;
    assert f[|JDK_PREFIX|..|f| - |JRE_SUFFIX|] == v;
  }

  /** The newest of two JDKs written from their numbers wins whichever is listed first: a
      higher major version beats any minor, patch or build */
  lemma HigherMajorSelected(h: Helpers, directory: string, a: seq<nat>, ba: nat, b: seq<nat>, bb: nat)
    requires |a| >= 1 && |b| >= 1 && a[0] > b[0]
    ensures var fa := JDK_PREFIX + VersionString(a, ba) + JRE_SUFFIX;
      var fb := JDK_PREFIX + VersionString(b, bb) + JRE_SUFFIX;
      FindHighestVersionJdk(h, directory, Some([fb, fa])) == Some(h.join([directory, fa]))
  {
    var fa := JDK_PREFIX + VersionString(a, ba) + JRE_SUFFIX;
    var fb := JDK_PREFIX + VersionString(b, bb) + JRE_SUFFIX;
    var ca := WrittenJdk(h, directory, a, ba);
    var cb := WrittenJdk(h, directory, b, bb);
    assert KeyOf(ca).major == a[0] && KeyOf(cb).major == b[0];
    SecondOfTwoSelected(h, directory, fb, fa);
  }

  /** Of two recognised names, the second is picked when the first sorts strictly after it */
  lemma SecondOfTwoSelected(h: Helpers, directory: string, f: string, g: string)
    requires MatchesJdkPattern(f) && MatchesJdkPattern(g)
    requires !AtLeast(KeyOf(ExtractJdkInfo(h, f, directory).value), KeyOf(ExtractJdkInfo(h, g, directory).value))
    ensures FindHighestVersionJdk(h, directory, Some([f, g])) == Some(ExtractJdkInfo(h, g, directory).value.fullPath)
  {
    CandidatesOfTwo(h, directory, f, g);
    var cands := Candidates(h, directory, [f, g]);
    assert HighestIndex(cands, 1) == 0;
    assert HighestIndex(cands, 2) == 1;
  }

  /** The candidate a name written from numbers yields */
  lemma WrittenJdk(h: Helpers, directory: string, comps: seq<nat>, build: nat) returns (c: JdkInfo)
    requires |comps| >= 1
    ensures var f := JDK_PREFIX + VersionString(comps, build) + JRE_SUFFIX;
      ExtractJdkInfo(h, f, directory) == Some(c)
      && c.fullPath == h.join([directory, f]) && c.parsedVersion == comps && c.buildNumber == Some(build)
  {
    VersionOneLine(comps, build);
    RecognisedJdkName(h, VersionString(comps, build), directory);
    VersionRoundTrip(comps, build);
    c := ExtractJdkInfo(h, JDK_PREFIX + VersionString(comps, build) + JRE_SUFFIX, directory).value;
  }

  lemma CandidatesOfTwo(h: Helpers, directory: string, f: string, g: string)
    requires MatchesJdkPattern(f) && MatchesJdkPattern(g)
    ensures Candidates(h, directory, [f, g])
      == [ExtractJdkInfo(h, f, directory).value, ExtractJdkInfo(h, g, directory).value]
  {
    assert [f, g][1..] == [g];
    assert [g][1..] == [];
  }

  /** A version text written from numbers is one non-empty line */
  lemma VersionOneLine(comps: seq<nat>, build: nat)
    ensures VersionString(comps, build) != [] && NoLineTerminator(VersionString(comps, build))
  {
    var ds := seq(|comps|, i requires 0 <= i < |comps| => NatToString(comps[i]));
    var v := VersionString(comps, build);
    forall i | 0 <= i < |ds| ensures '\n' !in ds[i] && '\r' !in ds[i] && ' ' !in ds[i] && ' ' !in ds[i] {
      NatDigits(comps[i]);
    }
    JoinAvoids(ds, ".", '\n');
    JoinAvoids(ds, ".", '\r');
    JoinAvoids(ds, ".", ' ');
    JoinAvoids(ds, ".", ' ');
    NatDigits(build);
    var main := Join(ds, ".");
    var b := NatToString(build);
    assert v == main + "+" + b;
    forall i | 0 <= i < |v| ensures !IsLineTerminator(v[i]) {
      if i < |main| {
        assert v[i] == main[i];
      } else if i > |main| {
        assert v[i] == b[i - |main| - 1];
      }
    }
  }
}
