/** String operations of JavaScript that the rewriting layer relies on, as functions on
    `seq<char>`: `startsWith`, `endsWith`, `includes`, `indexOf`, `replace` with a literal
    pattern (first occurrence) and with a global literal pattern, `split`, `Array.join`,
    `trim` and the removal of a leading run of one character (`replace(/^c+/, '')`). */
module Text {

  predicate StartsWith(s: string, p: string) {
    |p| <= |s| && s[..|p|] == p
  }

  predicate EndsWith(s: string, p: string) {
    |p| <= |s| && s[|s| - |p|..] == p
  }

  /** `s.includes(p)` */
  predicate Contains(s: string, p: string)
    decreases |s|
  {
    StartsWith(s, p) || (|s| > 0 && Contains(s[1..], p))
  }

  /** `s.indexOf(p)`: the first position at which `p` occurs, or -1 */
  function IndexOf(s: string, p: string): (k: int)
    ensures k == -1 || 0 <= k <= |s| - |p|
    ensures k >= 0 ==> s[k..k + |p|] == p
    decreases |s|
  {
    if StartsWith(s, p) then 0
    else if |s| == 0 then -1
    else
      var k := IndexOf(s[1..], p);
      if k < 0 then -1 else k + 1
  }

  /** `s.replace(p, r)` with a string pattern: only the first occurrence is replaced */
  function ReplaceFirst(s: string, p: string, r: string): string {
    var k := IndexOf(s, p);
    if k < 0 then s else s[..k] + r + s[k + |p|..]
  }

  /** `s.replace(new RegExp(p, 'g'), r)` for a pattern without metacharacters: a left-to-right
      scan replacing non-overlapping occurrences */
  function ReplaceAll(s: string, p: string, r: string): string
    requires p != []
    decreases |s|
  {
    if |s| == 0 then []
    else if StartsWith(s, p) then r + ReplaceAll(s[|p|..], p, r)
    else [s[0]] + ReplaceAll(s[1..], p, r)
  }

  /** `s.split(sep)` for a non-empty separator */
  function Split(s: string, sep: string): (parts: seq<string>)
    requires sep != []
    ensures |parts| >= 1
    decreases |s|
  {
    if |s| == 0 then [[]]
    else if StartsWith(s, sep) then [[]] + Split(s[|sep|..], sep)
    else
      var rest := Split(s[1..], sep);
      [[s[0]] + rest[0]] + rest[1..]
  }

  /** `parts.join(sep)` */
  function Join(parts: seq<string>, sep: string): string
    decreases |parts|
  {
    if |parts| == 0 then []
    else if |parts| == 1 then parts[0]
    else parts[0] + sep + Join(parts[1..], sep)
  }

  /** `s.replace(/^c+/, '')`: drops the leading run of `c` */
  function TrimLeading(s: string, c: char): (t: string)
    ensures |t| <= |s| && t == s[|s| - |t|..]
    ensures |t| > 0 ==> t[0] != c
    ensures forall i :: 0 <= i < |s| - |t| ==> s[i] == c
    decreases |s|
  {
    if |s| > 0 && s[0] == c then TrimLeading(s[1..], c) else s
  }

  /** The line terminators of ECMAScript (section 12.3 of ECMA-262) */
  predicate IsLineTerminator(c: char) {
    c == '\n' || c == '\r' || c as int == 0x2028 || c as int == 0x2029
  }

  /** White space and line terminators, as removed by `String.prototype.trim` */
  predicate IsJsSpace(c: char) {
    var n := c as int;
    n == 0x09 || n == 0x0B || n == 0x0C || n == 0x20 || n == 0xA0 || n == 0xFEFF
    || n == 0x1680 || (0x2000 <= n <= 0x200A) || n == 0x202F || n == 0x205F || n == 0x3000
    || IsLineTerminator(c)
  }

  function TrimStart(s: string): (t: string)
    ensures |t| <= |s| && t == s[|s| - |t|..]
    ensures |t| > 0 ==> !IsJsSpace(t[0])
    decreases |s|
  {
    if |s| > 0 && IsJsSpace(s[0]) then TrimStart(s[1..]) else s
  }

  function TrimEnd(s: string): (t: string)
    ensures |t| <= |s| && t == s[..|t|]
    ensures |t| > 0 ==> !IsJsSpace(t[|t| - 1])
    decreases |s|
  {
    if |s| > 0 && IsJsSpace(s[|s| - 1]) then TrimEnd(s[..|s| - 1]) else s
  }

  /** `s.trim()` */
  function Trim(s: string): string {
    TrimEnd(TrimStart(s))
  }

  /** `s.substring(1)` */
  function DropFirst(s: string): string {
    if |s| == 0 then s else s[1..]
  }

  // ---------------------------------------------------------------------------------------
  // Facts about the operations above

  /** The first occurrence of a character is found right after a prefix free of it */
  lemma {:induction false} IndexOfFirst(a: string, c: char, b: string)
    requires c !in a
    ensures IndexOf(a + [c] + b, [c]) == |a|
    decreases |a|
  {
    var s := a + [c] + b;
    if |a| == 0 {
      assert s[..1] == [c];
    } else {
      assert s[..1] == [a[0]];
      assert s[1..] == a[1..] + [c] + b;
      IndexOfFirst(a[1..], c, b);
    }
  }

  /** Two prefixes of one string agree on its first character */
  lemma PrefixHeads(s: string)
    ensures forall p {:trigger StartsWith(s, p)} :: StartsWith(s, p) && |p| > 0 ==> s[0] == p[0]
  {
    forall p | StartsWith(s, p) && |p| > 0 ensures s[0] == p[0] {
      assert s[..|p|][0] == s[0];
    }
  }

  lemma {:induction false} ContainsAt(s: string, p: string, i: nat)
    requires i + |p| <= |s| && s[i..i + |p|] == p
    ensures Contains(s, p)
    decreases i
  {
    if i > 0 {
      assert s[1..][i - 1..i - 1 + |p|] == s[i..i + |p|];
      ContainsAt(s[1..], p, i - 1);
    }
  }

  /** An occurrence of `p` is where `indexOf` finds one */
  lemma {:induction false} IndexOfFindsContained(s: string, p: string)
    ensures Contains(s, p) <==> IndexOf(s, p) >= 0
    decreases |s|
  {
    if !StartsWith(s, p) && |s| > 0 {
      IndexOfFindsContained(s[1..], p);
    }
  }

  /** A string that contains `a + b` also contains `b` */
  lemma {:induction false} ContainsSuffix(s: string, a: string, b: string)
    requires Contains(s, a + b)
    ensures Contains(s, b)
    decreases |s|
  {
    if StartsWith(s, a + b) {
      assert s[|a|..|a| + |b|] == (a + b)[|a|..];
      ContainsAt(s, b, |a|);
    } else {
      ContainsSuffix(s[1..], a, b);
    }
  }

  /** Replacing a pattern that does not occur changes nothing */
  lemma {:induction false} ReplaceAllAbsent(s: string, p: string, r: string)
    requires p != [] && !Contains(s, p)
    ensures ReplaceAll(s, p, r) == s
    decreases |s|
  {
    if |s| > 0 {
      ReplaceAllAbsent(s[1..], p, r);
    }
  }

  lemma ReplaceFirstAbsent(s: string, p: string, r: string)
    requires !Contains(s, p)
    ensures ReplaceFirst(s, p, r) == s
  {
    IndexOfFindsContained(s, p);
  }

  /** With the pattern at the start, the first replacement is there */
  lemma ReplaceFirstAtStart(s: string, p: string, r: string)
    requires StartsWith(s, p)
    ensures ReplaceFirst(s, p, r) == r + s[|p|..]
  {
  }

  /** The first part of a split is a prefix holding no separator */
  lemma {:induction false} SplitHead(s: string, sep: string)
    requires sep != []
    ensures StartsWith(s, Split(s, sep)[0])
    ensures !Contains(Split(s, sep)[0], sep)
    decreases |s|
  {
    if |s| > 0 && !StartsWith(s, sep) {
      var rest := Split(s[1..], sep);
      SplitHead(s[1..], sep);
      var h := [s[0]] + rest[0];
      assert s[..|h|] == [s[0]] + s[1..][..|rest[0]|];
    }
  }

  /** No part of a split contains the separator */
  lemma {:induction false} SplitPartsFree(s: string, sep: string)
    requires sep != []
    ensures forall i :: 0 <= i < |Split(s, sep)| ==> !Contains(Split(s, sep)[i], sep)
    decreases |s|
  {
    if |s| > 0 {
      if StartsWith(s, sep) {
        SplitPartsFree(s[|sep|..], sep);
      } else {
        SplitPartsFree(s[1..], sep);
        SplitHead(s, sep);
      }
    }
  }

  lemma JoinConsHead(c: char, x: string, xs: seq<string>, sep: string)
    ensures Join([[c] + x] + xs, sep) == [c] + Join([x] + xs, sep)
  {
    if |xs| > 0 {
      assert ([[c] + x] + xs)[1..] == xs;
      assert ([x] + xs)[1..] == xs;
    }
  }

  lemma JoinCons(x: string, xs: seq<string>, sep: string)
    requires |xs| > 0
    ensures Join([x] + xs, sep) == x + sep + Join(xs, sep)
  {
    assert ([x] + xs)[1..] == xs;
  }

  /** Joining the parts of a split with the separator gives the string back */
  lemma {:induction false} JoinSplit(s: string, sep: string)
    requires sep != []
    ensures Join(Split(s, sep), sep) == s
    decreases |s|
  {
    if |s| > 0 {
      if StartsWith(s, sep) {
        JoinSplit(s[|sep|..], sep);
        JoinCons([], Split(s[|sep|..], sep), sep);
        assert s == sep + s[|sep|..];
      } else {
        var rest := Split(s[1..], sep);
        JoinSplit(s[1..], sep);
        JoinConsHead(s[0], rest[0], rest[1..], sep);
        assert [rest[0]] + rest[1..] == rest;
      }
    }
  }

  /** A global replacement is a split on the pattern joined with the replacement */
  lemma {:induction false} ReplaceAllIsSplitJoin(s: string, p: string, r: string)
    requires p != []
    ensures ReplaceAll(s, p, r) == Join(Split(s, p), r)
    decreases |s|
  {
    if |s| > 0 {
      if StartsWith(s, p) {
        ReplaceAllIsSplitJoin(s[|p|..], p, r);
        JoinCons([], Split(s[|p|..], p), r);
      } else {
        var rest := Split(s[1..], p);
        ReplaceAllIsSplitJoin(s[1..], p, r);
        JoinConsHead(s[0], rest[0], rest[1..], r);
        assert [rest[0]] + rest[1..] == rest;
      }
    }
  }

  lemma {:induction false} SplitNoSeparator(x: string, c: char)
    requires c !in x
    ensures Split(x, [c]) == [x]
    decreases |x|
  {
    if |x| > 0 {
      SplitNoSeparator(x[1..], c);
      assert [x[0]] + x[1..] == x;
    }
  }

  lemma {:induction false} SplitAtSeparator(x: string, c: char, y: string)
    requires c !in x
    ensures Split(x + [c] + y, [c]) == [x] + Split(y, [c])
    decreases |x|
  {
    var s := x + [c] + y;
    if |x| == 0 {
      assert s[1..] == y;
    } else {
      assert s[1..] == x[1..] + [c] + y;
      SplitAtSeparator(x[1..], c, y);
      assert [x[0]] + x[1..] == x;
    }
  }

  /** Splitting on a one-character delimiter undoes a join with it, when no part holds it */
  lemma {:induction false} SplitJoin(parts: seq<string>, c: char)
    requires |parts| >= 1
    requires forall i :: 0 <= i < |parts| ==> c !in parts[i]
    ensures Split(Join(parts, [c]), [c]) == parts
    decreases |parts|
  {
    if |parts| == 1 {
      SplitNoSeparator(parts[0], c);
    } else {
      SplitJoin(parts[1..], c);
      SplitAtSeparator(parts[0], c, Join(parts[1..], [c]));
      assert [parts[0]] + parts[1..] == parts;
    }
  }

  function Count(s: string, c: char): nat
    decreases |s|
  {
    if |s| == 0 then 0 else (if s[0] == c then 1 else 0) + Count(s[1..], c)
  }

  /** A one-character split has one more part than the string has delimiters */
  lemma {:induction false} SplitLength(s: string, c: char)
    ensures |Split(s, [c])| == Count(s, c) + 1
    decreases |s|
  {
    if |s| > 0 {
      SplitLength(s[1..], c);
    }
  }

  /** The split of `x + sep + y` starts with the split of `x` when `x` holds no separator */
  lemma SplitFirstPart(x: string, c: char, y: string)
    requires c !in x
    ensures Split(x + [c] + y, [c])[0] == x
  {
    SplitAtSeparator(x, c, y);
  }
}
