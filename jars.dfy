/** `findJarsExcludingPatterns` of src/bal_ls/index.ts: the `.jar` entries of a directory
    that match none of the exclude patterns, in listing order. A pattern is turned into a
    regular expression by replacing each `*` with `.*`, and tested unanchored, so it matches
    anywhere in the name and its `.` matches any character. The listing is an input (None
    when the directory does not exist or cannot be read). */
module Jars {
  import opened Text
  import opened Js
  import opened Platform

  /** One element of a compiled exclude pattern: a literal character, `.` or `.*` */
  datatype Atom = Lit(c: char) | AnyChar | AnyRun

  /** The source of the regular expression built from a pattern: every `*` becomes `.*` */
  function RegexSource(pattern: string): string {
    ReplaceAll(pattern, "*", ".*")
  }

  /** The regular expression syntax the sources use: `.*`, `.` and literal characters.
      Patterns hold none of the other metacharacters (see PlainPattern). */
  function ParseSource(src: string): seq<Atom>
    decreases |src|
  {
    if src == [] then []
    else if src[0] == '.' && |src| >= 2 && src[1] == '*' then [AnyRun] + ParseSource(src[2..])
    else if src[0] == '.' then [AnyChar] + ParseSource(src[1..])
    else [Lit(src[0])] + ParseSource(src[1..])
  }

  /** A regular expression metacharacter other than `.` and `*` */
  predicate IsMeta(c: char) {
    c == '\\' || c == '^' || c == '$' || c == '+' || c == '?' || c == '(' || c == ')'
    || c == '[' || c == ']' || c == '{' || c == '}' || c == '|'
  }

  predicate PlainPattern(p: string) {
    forall i :: 0 <= i < |p| ==> !IsMeta(p[i])
  }

  /** The compiled pattern */
  function Compile(pattern: string): seq<Atom> {
    ParseSource(RegexSource(pattern))
  }

  /** The expression matches at the start of `s` (it need not reach the end) */
  function MatchesAt(atoms: seq<Atom>, s: string): bool
    decreases |s|, |atoms|
  {
    if atoms == [] then true
    else match atoms[0]
      case Lit(c) => |s| > 0 && s[0] == c && MatchesAt(atoms[1..], s[1..])
      case AnyChar => |s| > 0 && !IsLineTerminator(s[0]) && MatchesAt(atoms[1..], s[1..])
      case AnyRun =>
        MatchesAt(atoms[1..], s) || (|s| > 0 && !IsLineTerminator(s[0]) && MatchesAt(atoms, s[1..]))
  }

  /** `regex.test(s)`: a match starting anywhere */
  function Test(atoms: seq<Atom>, s: string): bool
    decreases |s|
  {
    MatchesAt(atoms, s) || (|s| > 0 && Test(atoms, s[1..]))
  }

  /** `compiledPatterns.some(regex => regex.test(file))` */
  predicate Excluded(compiled: seq<seq<Atom>>, file: string) {
    exists i :: 0 <= i < |compiled| && Test(compiled[i], file)
  }

  predicate Keeps(compiled: seq<seq<Atom>>, file: string) {
    EndsWith(file, ".jar") && !Excluded(compiled, file)
  }

  /** The names the loop keeps, in listing order */
  function KeptJars(compiled: seq<seq<Atom>>, files: seq<string>): (r: seq<string>)
    ensures forall f :: f in r <==> f in files && Keeps(compiled, f)
    ensures |r| <= |files|
    decreases |files|
  {
    if files == [] then []
    else
      var init := files[..|files| - 1];
      var last := files[|files| - 1];
      assert files == init + [last];
      KeptJars(compiled, init) + (if Keeps(compiled, last) then [last] else [])
  }

  function CompileAll(patterns: seq<string>): (c: seq<seq<Atom>>)
    ensures |c| == |patterns|
  {
    seq(|patterns|, i requires 0 <= i < |patterns| => Compile(patterns[i]))
  }

  /** `path.join(directory, f)` for every kept name */
  function JoinAll(h: Helpers, directory: string, names: seq<string>): (r: seq<string>)
    ensures |r| == |names|
  {
    seq(|names|, i requires 0 <= i < |names| => h.join([directory, names[i]]))
  }

  /** The value `findJarsExcludingPatterns(directory, excludePatterns)` returns */
  function JarsOf(h: Helpers, directory: string, listing: Option<seq<string>>, patterns: seq<string>): seq<string> {
    if listing.None? then [] else JoinAll(h, directory, KeptJars(CompileAll(patterns), listing.value))
  }

  /** `findJarsExcludingPatterns`: a `forEach` over the listing pushing each kept jar */
  method FindJarsExcludingPatterns(h: Helpers, directory: string, listing: Option<seq<string>>,
                                   excludePatterns: seq<string>) returns (matchingJars: seq<string>)
    requires forall i :: 0 <= i < |excludePatterns| ==> PlainPattern(excludePatterns[i])
    ensures matchingJars == JarsOf(h, directory, listing, excludePatterns)
  {
    if listing.None? {
      return [];
    }
    var files := listing.value;
    matchingJars := [];
    var compiledPatterns := CompileAll(excludePatterns);
    var i := 0;
    while i < |files|
      invariant 0 <= i <= |files|
      invariant matchingJars == JoinAll(h, directory, KeptJars(compiledPatterns, files[..i]))
    {
      var file := files[i];
      assert files[..i + 1] == files[..i] + [file];
      if EndsWith(file, ".jar") {
        var shouldExclude := Excluded(compiledPatterns, file);
        if !shouldExclude {
          matchingJars := matchingJars + [h.join([directory, file])];
        }
      }
      i := i + 1;
    }
    assert files[..i] == files;
  }

  // ---------------------------------------------------------------------------------------
  // Properties

  /** The compiled form of one pattern character */
  function AtomOf(c: char): Atom {
    if c == '*' then AnyRun else if c == '.' then AnyChar else Lit(c)
  }

  function AtomsOf(p: string): (r: seq<Atom>)
    ensures |r| == |p|
  {
    seq(|p|, i requires 0 <= i < |p| => AtomOf(p[i]))
  }

  /** Replacing `*` by `.*` compiles each `*` to `.*`, each `.` to a wildcard and every other
      character to itself */
  lemma {:induction false} CompileByCharacter(p: string)
    ensures Compile(p) == AtomsOf(p)
    decreases |p|
  {
    if |p| > 0 {
      CompileByCharacter(p[1..]);
      var rest := RegexSource(p[1..]);
      SourceNeverStartsWithStar(p[1..]);
      if p[0] == '*' {
        assert RegexSource(p) == ".*" + rest;
        assert (".*" + rest)[2..] == rest;
      } else {
        assert RegexSource(p) == [p[0]] + rest;
        assert ([p[0]] + rest)[1..] == rest;
      }
      assert AtomsOf(p) == [AtomOf(p[0])] + AtomsOf(p[1..]);
    }
  }

  lemma SourceNeverStartsWithStar(p: string)
    ensures RegexSource(p) == [] || RegexSource(p)[0] != '*'
  {
  }

  /** A pattern `lit*` whose literal part has no `.` nor `*` excludes exactly the names that
      contain `lit` anywhere */
  lemma PrefixPatternIsContainment(lit: string, file: string)
    requires '.' !in lit && '*' !in lit
    ensures Test(Compile(lit + "*"), file) <==> Contains(file, lit)
  {
    CompileByCharacter(lit + "*");
    var atoms := AtomsOf(lit + "*");
    assert atoms == LitAtoms(lit) + [AnyRun];
    TestIsContains(lit, file);
  }

  function LitAtoms(lit: string): (r: seq<Atom>)
    ensures |r| == |lit|
  {
    seq(|lit|, i requires 0 <= i < |lit| => Lit(lit[i]))
  }

  lemma {:induction false} LitsThenRun(lit: string, s: string)
    ensures MatchesAt(LitAtoms(lit) + [AnyRun], s) <==> StartsWith(s, lit)
    decreases |lit|
  {
    var atoms := LitAtoms(lit) + [AnyRun];
    if lit == [] {
      assert atoms == [AnyRun];
      assert atoms[1..] == [];
    } else {
      assert atoms[0] == Lit(lit[0]);
      assert atoms[1..] == LitAtoms(lit[1..]) + [AnyRun];
      if |s| > 0 {
        LitsThenRun(lit[1..], s[1..]);
        if s[0] == lit[0] && StartsWith(s[1..], lit[1..]) {
          assert s[..|lit|] == [s[0]] + s[1..][..|lit| - 1];
        }
        if StartsWith(s, lit) {
          assert s[1..][..|lit| - 1] == s[..|lit|][1..];
        }
      }
    }
  }

  lemma {:induction false} TestIsContains(lit: string, s: string)
    ensures Test(LitAtoms(lit) + [AnyRun], s) <==> Contains(s, lit)
    decreases |s|
  {
    LitsThenRun(lit, s);
    if |s| > 0 {
      TestIsContains(lit, s[1..]);
    }
  }

  /** The `.` of a pattern is not escaped: `a.b*` also excludes a name holding `a`, any one
      character, then `b` */
  lemma DotIsWildcard(a: string, b: string, c: char, file: string)
    requires '.' !in a && '*' !in a && '.' !in b && '*' !in b
    requires !IsLineTerminator(c)
    requires StartsWith(file, a + [c] + b)
    ensures Test(Compile(a + "." + b + "*"), file)
  {
    CompileByCharacter(a + "." + b + "*");
    var atoms := AtomsOf(a + "." + b + "*");
    assert atoms == LitAtoms(a) + [AnyChar] + LitAtoms(b) + [AnyRun];
    LitsPrefix(a, [AnyChar] + LitAtoms(b) + [AnyRun], file);
    var s := file[|a|..];
    var w := a + [c] + b;
    assert file[..|w|] == w;
    assert s[0] == w[|a|] == c;
    assert s[1..][..|b|] == w[|a| + 1..] == b;
    assert ([AnyChar] + LitAtoms(b) + [AnyRun])[1..] == LitAtoms(b) + [AnyRun];
    assert StartsWith(s[1..], b);
    LitsThenRun(b, s[1..]);
    assert LitAtoms(a) + [AnyChar] + LitAtoms(b) + [AnyRun] == LitAtoms(a) + ([AnyChar] + LitAtoms(b) + [AnyRun]);
  }

  /** Literal atoms consume their characters */
  lemma {:induction false} LitsPrefix(lit: string, rest: seq<Atom>, s: string)
    requires StartsWith(s, lit)
    ensures MatchesAt(LitAtoms(lit) + rest, s) == MatchesAt(rest, s[|lit|..])
    decreases |lit|
  {
    if lit != [] {
      var atoms := LitAtoms(lit) + rest;
      assert atoms[0] == Lit(lit[0]) && atoms[1..] == LitAtoms(lit[1..]) + rest;
      assert s[1..][..|lit| - 1] == s[..|lit|][1..];
      LitsPrefix(lit[1..], rest, s[1..]);
      assert s[1..][|lit| - 1..] == s[|lit|..];
    } else {
      assert LitAtoms(lit) + rest == rest;
    }
  }

  /** The kept names of a listing are those of its parts, in order: the loop keeps the
      listing order */
  lemma {:induction false} KeptJarsAppend(compiled: seq<seq<Atom>>, a: seq<string>, b: seq<string>)
    ensures KeptJars(compiled, a + b) == KeptJars(compiled, a) + KeptJars(compiled, b)
    decreases |b|
  {
    if b == [] {
      assert a + b == a;
    } else {
      var init := b[..|b| - 1];
      assert (a + b)[..|a + b| - 1] == a + init;
      assert (a + b)[|a + b| - 1] == b[|b| - 1];
      KeptJarsAppend(compiled, a, init);
    }
  }

  /** Every returned path is `path.join(directory, f)` for a listed `.jar` name `f` that no
      pattern matches, and every such name yields one */
  lemma JarsOfSound(h: Helpers, directory: string, files: seq<string>, patterns: seq<string>, k: nat)
    requires k < |JarsOf(h, directory, Some(files), patterns)|
    ensures var f := KeptJars(CompileAll(patterns), files)[k];
      f in files && EndsWith(f, ".jar") && !Excluded(CompileAll(patterns), f)
      && JarsOf(h, directory, Some(files), patterns)[k] == h.join([directory, f])
  {
    var kept := KeptJars(CompileAll(patterns), files);
    assert kept[k] in kept;
  }

  /** A missing or unreadable directory gives no jars */
  lemma MissingDirectoryNoJars(h: Helpers, directory: string, patterns: seq<string>)
    ensures JarsOf(h, directory, None, patterns) == []
  {
  }
}
