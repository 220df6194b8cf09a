/** The reading of `bal version` in `getBallerinaHome` of src/bal_ls/utils.ts: a report that
    mentions an error is rejected; otherwise the first line, without its `Ballerina ` (or
    `jBallerina `) prefix and trimmed, is the version text, and its first word the version. */
module BallerinaVersion {
  import opened Text
  import opened Js

  const REPORT_PREFIX: string := "Ballerina "
  const LEGACY_PREFIX: string := "jBallerina "

  /** `stdout.split('\n')[0]` */
  function VersionLine(stdout: string): string {
    Split(stdout, "\n")[0]
  }

  /** The prefix `replace` removes: `/jBallerina /` when the line starts with `jBallerina` */
  function PrefixFor(line: string): string {
    if StartsWith(line, "jBallerina") then LEGACY_PREFIX else REPORT_PREFIX
  }

  /** `ballerinaVersionText` */
  function VersionText(stdout: string): string {
    var line := VersionLine(stdout);
    Trim(ReplaceFirst(line, PrefixFor(line), ""))
  }

  /** `ballerinaVersion`: the version text up to its first space */
  function Version(stdout: string): string {
    Split(VersionText(stdout), " ")[0]
  }

  /** `toLocaleLowerCase` on the ASCII letters */
  function LowerAscii(s: string): (t: string)
    ensures |t| == |s|
    decreases |s|
  {
    if |s| == 0 then []
    else [if 'A' <= s[0] <= 'Z' then (s[0] as int + 32) as char else s[0]] + LowerAscii(s[1..])
  }

  datatype BallerinaHome = BallerinaHome(
    userHome: string,
    ballerinaHome: string,
    distPath: string,
    ballerinaCmd: string,
    ballerinaVersionText: string,
    ballerinaVersion: string)

  /** The promise's outcome for a finished `bal version`: None when it is rejected, because
      the command failed or its output mentions "error" in any letter case */
  function BallerinaHomeOf(userHome: string, failed: bool, stdout: string): (r: Option<BallerinaHome>)
    ensures r.Some? <==> !failed && !Contains(LowerAscii(stdout), "error")
    ensures r.Some? ==>
      (r.value.ballerinaVersionText == VersionText(stdout)
       && r.value.ballerinaVersion == Version(stdout) && r.value.userHome == userHome)
  {
    if failed || Contains(LowerAscii(stdout), "error") then None
    else Some(BallerinaHome(userHome, "ballerinaHome", "distPath", "ballerinaCmd",
                            VersionText(stdout), Version(stdout)))
  }

  // ---------------------------------------------------------------------------------------
  // Properties

  predicate NoSpace(s: string) {
    forall i :: 0 <= i < |s| ==> !IsJsSpace(s[i])
  }

  /** A report `Ballerina <v> <details>` (or the `jBallerina` form) followed by further lines
      gives version `v`, and version text `v` followed by the details, trimmed */
  lemma VersionOfReport(prefix: string, v: string, details: string, rest: string)
    requires prefix == REPORT_PREFIX || prefix == LEGACY_PREFIX
    requires |v| > 0 && NoSpace(v)
    requires '\n' !in details && (details == [] || details[0] == ' ')
    ensures VersionText(prefix + v + details + "\n" + rest) == TrimEnd(v + details)
    ensures Version(prefix + v + details + "\n" + rest) == v
  {
    TextOfReport(prefix, v, details, rest);
    FirstWord(v, details);
  }

  lemma TextOfReport(prefix: string, v: string, details: string, rest: string)
    requires prefix == REPORT_PREFIX || prefix == LEGACY_PREFIX
    requires NoSpace(v) && '\n' !in details
    ensures VersionText(prefix + v + details + "\n" + rest) == Trim(v + details)
  {
    var line := prefix + v + details;
    LineHasNoBreak(prefix, v, details);
    SplitFirstPart(line, '\n', rest);
    PrefixOfLine(prefix, v + details);
    assert line == prefix + (v + details) && line[|prefix|..] == v + details;
    ReplaceFirstAtStart(line, prefix, "");
  }

  lemma LineHasNoBreak(prefix: string, v: string, details: string)
    requires prefix == REPORT_PREFIX || prefix == LEGACY_PREFIX
    requires NoSpace(v) && '\n' !in details
    ensures '\n' !in prefix + v + details
  {
    var line := prefix + v + details;
    forall i | 0 <= i < |line| ensures line[i] != '\n' {
      if i < |prefix| {
        assert line[i] == prefix[i];
      } else if i < |prefix| + |v| {
        assert line[i] == v[i - |prefix|] && !IsJsSpace(v[i - |prefix|]);
      } else {
        assert line[i] == details[i - |prefix| - |v|];
      }
    }
  }

  lemma PrefixOfLine(prefix: string, body: string)
    requires prefix == REPORT_PREFIX || prefix == LEGACY_PREFIX
    ensures PrefixFor(prefix + body) == prefix && StartsWith(prefix + body, prefix)
  {
    var line := prefix + body;
    assert line[..|prefix|] == prefix;
    assert line[..10][0] == line[0];
    if prefix == REPORT_PREFIX {
      assert line[0] == 'B';
    } else {
      assert line[..10] == prefix[..10];
    }
  }

  /** Trimming `v` and its details keeps `v` whole, and the first word is `v` */
  lemma FirstWord(v: string, details: string)
    requires |v| > 0 && NoSpace(v)
    requires details == [] || details[0] == ' '
    ensures Trim(v + details) == TrimEnd(v + details)
    ensures Split(Trim(v + details), " ")[0] == v
  {
    var body := v + details;
    assert body[0] == v[0];
    assert TrimStart(body) == body;
    TrimmedKeepsWord(v, details);
    var t := TrimEnd(body);
    NoBlank(v);
    if |t| == |v| {
      assert t == v;
      SplitNoSeparator(v, ' ');
    } else {
      assert t == v + [' '] + t[|v| + 1..];
      SplitFirstPart(v, ' ', t[|v| + 1..]);
    }
  }

  /** Trimming the end of `v` and its details keeps `v`, followed by a space if anything */
  lemma TrimmedKeepsWord(v: string, details: string)
    requires |v| > 0 && NoSpace(v)
    requires details == [] || details[0] == ' '
    ensures var t := TrimEnd(v + details);
      |t| >= |v| && t[..|v|] == v && (|t| > |v| ==> t[|v|] == ' ')
  {
    var body := v + details;
    var t := TrimEnd(body);
    assert body[|v| - 1] == v[|v| - 1];
    TrimEndKeeps(body, |v|);
    assert t[..|v|] == body[..|v|] == v;
    if |t| > |v| {
      assert t[|v|] == body[|v|] == details[0];
    }
  }

  lemma NoBlank(v: string)
    requires NoSpace(v)
    ensures ' ' !in v
  {
    forall i | 0 <= i < |v| ensures v[i] != ' ' {
      assert !IsJsSpace(v[i]);
    }
  }

  /** Trailing-space trimming never cuts into a prefix that ends in a non-space */
  lemma {:induction false} TrimEndKeeps(s: string, n: nat)
    requires 0 < n <= |s| && !IsJsSpace(s[n - 1])
    ensures |TrimEnd(s)| >= n
    decreases |s|
  {
    if |s| > n && IsJsSpace(s[|s| - 1]) {
      TrimEndKeeps(s[..|s| - 1], n);
    }
  }

  /** A report mentioning "Error" or "ERROR" is rejected exactly like one mentioning "error" */
  lemma UpperCaseErrorRejected(userHome: string, a: string, b: string)
    ensures BallerinaHomeOf(userHome, false, a + "ERROR" + b).None?
  {
    var s := a + "ERROR" + b;
    assert s == a + ("ERROR" + b);
    LowerAsciiSplits(a, "ERROR" + b);
    LowerAsciiSplits("ERROR", b);
    assert LowerAscii("ERROR") == "error";
    var l := LowerAscii(s);
    assert l == LowerAscii(a) + "error" + LowerAscii(b);
    assert l[|a|..|a| + 5] == "error";
    ContainsAt(l, "error", |a|);
  }

  lemma {:induction false} LowerAsciiSplits(a: string, b: string)
    ensures LowerAscii(a + b) == LowerAscii(a) + LowerAscii(b)
    decreases |a|
  {
    if |a| > 0 {
      assert (a + b)[1..] == a[1..] + b;
      LowerAsciiSplits(a[1..], b);
    } else {
      assert a + b == b;
    }
  }
}
