/** The prefix-driven path normalisers of src/bal_ls/utils.ts: `normalizePath`,
    `normalizeTypePath`, `normalizeFilePathForSyntaxTree` and
    `normalizeFilePathForSyntaxTreeModify`. */
module Paths {
  import opened Text
  import opened Js
  import opened Platform

  /** `normalizePath`: a `file://` URI becomes a filesystem path, a `/`-rooted path outside
      `BASE_REPO_DIR` is re-rooted there, anything else is kept. */
  function NormalizePath(h: Helpers, p: string): (r: Result<string>)
    ensures StartsWith(p, "file://") ==>
      r == (if h.fileUrlToPath(p).Some? then Ok(h.fileUrlToPath(p).value) else Throws)
    ensures StartsWith(p, "/") && !StartsWith(p, BASE_REPO_DIR) ==> r == Ok(h.join([BASE_REPO_DIR, p[1..]]))
    ensures StartsWith(p, BASE_REPO_DIR) ==> r == Ok(p)
    ensures !StartsWith(p, "/") && !StartsWith(p, "file://") ==> r == Ok(p)
  {
    PrefixHeads(p);
    assert BASE_REPO_DIR[0] == '/';
    if StartsWith(p, "file://") then
      var q := h.fileUrlToPath(p);
      if q.Some? then Ok(q.value) else Throws
    else if StartsWith(p, "/") && !StartsWith(p, BASE_REPO_DIR) then
      Ok(h.join([BASE_REPO_DIR, p[1..]]))
    else
      Ok(p)
  }

  /** The JavaScript literal '\file:///' is a form feed followed by "ile:///" */
  const FORM_FEED_FILE: string := "\U{C}ile:///"

  predicate HasTypePathPrefix(p: string) {
    StartsWith(p, "\\file:///") || StartsWith(p, FORM_FEED_FILE) || StartsWith(p, "/file:///")
  }

  /** `inputPath.replace(/^\\+|^\/+/, '')` */
  function StripLeadingSlashes(p: string): string {
    if |p| > 0 && p[0] == '\\' then TrimLeading(p, '\\')
    else if |p| > 0 && p[0] == '/' then TrimLeading(p, '/')
    else p
  }

  /** `normalizeTypePath`: `normalizePath` preceded by a case for a file URI behind a stray
      leading slash, backslash or (as written) form feed */
  function NormalizeTypePath(h: Helpers, p: string): (r: Result<string>)
    ensures !HasTypePathPrefix(p) ==> r == NormalizePath(h, p)
  {
    if HasTypePathPrefix(p) then
      var cleaned := ReplaceAll(StripLeadingSlashes(p), "\\", "/");
      if StartsWith(cleaned, "file:///") then
        var q := h.fileUrlToPath(cleaned);
        if q.Some? then Ok(q.value) else Throws
      else
        Ok(cleaned)
    else
      NormalizePath(h, p)
  }

  const ENCODED_SCHEME_PREFIX: string := "file:///web-bala%3A/"

  /** `normalizeFilePathForSyntaxTree`: both `file:///X` (with no encoded scheme anywhere) and
      `file:///web-bala%3A/X` become `BASE_PREFIX + X`; other inputs are kept */
  function NormalizeFilePathForSyntaxTree(p: string): (r: string)
    ensures !StartsWith(p, "file:///") ==> r == p
    ensures StartsWith(p, "file:///") && !Contains(p, "web-bala%3A") ==> r == BASE_PREFIX + p[8..]
    ensures StartsWith(p, ENCODED_SCHEME_PREFIX) ==> r == BASE_PREFIX + p[20..]
    ensures (StartsWith(p, "file:///") && Contains(p, "web-bala%3A")
             && !StartsWith(p, ENCODED_SCHEME_PREFIX)) ==> r == p
  {
    EncodedPrefixContainsScheme(p);
    if StartsWith(p, "file:///") && !Contains(p, "web-bala%3A") then
      ReplaceFirstAtStart(p, "file:///", "");
      BASE_PREFIX + ReplaceFirst(p, "file:///", "")
    else if StartsWith(p, ENCODED_SCHEME_PREFIX) then
      ReplaceFirstAtStart(p, ENCODED_SCHEME_PREFIX, "");
      BASE_PREFIX + ReplaceFirst(p, ENCODED_SCHEME_PREFIX, "")
    else
      p
  }

  lemma EncodedPrefixContainsScheme(p: string)
    ensures StartsWith(p, ENCODED_SCHEME_PREFIX) ==> StartsWith(p, "file:///") && Contains(p, "web-bala%3A")
  {
    if StartsWith(p, ENCODED_SCHEME_PREFIX) {
      assert p[..8] == p[..20][..8];
      assert p[8..19] == p[..20][8..19];
      ContainsAt(p, "web-bala%3A", 8);
    }
  }

  /** `normalizeFilePathForSyntaxTreeModify`: re-roots a file URI under `BASE_REPO_DIR` unless
      its path is already there */
  function NormalizeFilePathForSyntaxTreeModify(h: Helpers, p: string): (r: string)
    ensures !StartsWith(p, "file:///") ==> r == p
    ensures StartsWith(p, ENCODED_SCHEME_PREFIX) ==>
      r == h.uriFileString(h.join([BASE_REPO_DIR, p[20..]]))
    ensures StartsWith(p, "file:///") && !StartsWith(p, ENCODED_SCHEME_PREFIX) ==>
      r == (if StartsWith(p[7..], BASE_REPO_DIR) then p
            else h.uriFileString(h.join([BASE_REPO_DIR, TrimLeading(p[7..], '/')])))
  {
    EncodedPrefixContainsScheme(p);
    if !StartsWith(p, "file:///") then p
    else if StartsWith(p, ENCODED_SCHEME_PREFIX) then
      ReplaceFirstAtStart(p, ENCODED_SCHEME_PREFIX, "");
      assert ReplaceFirst(p, ENCODED_SCHEME_PREFIX, "") == p[20..];
      h.uriFileString(h.join([BASE_REPO_DIR, ReplaceFirst(p, ENCODED_SCHEME_PREFIX, "")]))
    else
      assert p[..7] == p[..8][..7];
      ReplaceFirstAtStart(p, "file://", "");
      var pathPart := ReplaceFirst(p, "file://", "");
      assert pathPart == p[7..];
      if StartsWith(pathPart, BASE_REPO_DIR) then p
      else h.uriFileString(h.join([BASE_REPO_DIR, TrimLeading(pathPart, '/')]))
  }

  // ---------------------------------------------------------------------------------------

  /** `normalizePath` is a fixed point on the paths it keeps, in particular on paths already
      rooted at `BASE_REPO_DIR` */
  lemma NormalizePathIdempotentOnKept(h: Helpers, p: string)
    requires NormalizePath(h, p) == Ok(p)
    ensures NormalizePath(h, NormalizePath(h, p).value) == NormalizePath(h, p)
  {
  }

  /** A prefix free of a one-character pattern passes through a global replacement */
  lemma {:induction false} ReplaceAllPrefix(a: string, x: string, p: string, r: string)
    requires |p| == 1 && p[0] !in a
    ensures ReplaceAll(a + x, p, r) == a + ReplaceAll(x, p, r)
    decreases |a|
  {
    if |a| > 0 {
      var s := a + x;
      assert s[1..] == a[1..] + x;
      assert s[0] == a[0];
      PrefixHeads(s);
      assert !StartsWith(s, p);
      assert ReplaceAll(s, p, r) == [a[0]] + ReplaceAll(a[1..] + x, p, r);
      assert p[0] !in a[1..];
      ReplaceAllPrefix(a[1..], x, p, r);
      assert [a[0]] + a[1..] == a;
      assert [a[0]] + (a[1..] + ReplaceAll(x, p, r)) == a + ReplaceAll(x, p, r);
    } else {
      assert a + x == x;
    }
  }

  /** A stray slash in front of a file URI is dropped and the URI's backslashes folded */
  lemma NormalizeTypePathSlashFileUri(h: Helpers, x: string)
    ensures NormalizeTypePath(h, "/file:///" + x) ==
      NormalizePath(h, "file:///" + ReplaceAll(x, "\\", "/"))
  {
    var p := "/file:///" + x;
    assert p[..9] == "/file:///";
    assert p[1..] == "file:///" + x;
    assert p[1..][0] == 'f';
    assert StripLeadingSlashes(p) == "file:///" + x;
    ReplaceAllPrefix("file:///", x, "\\", "/");
    var q := "file:///" + ReplaceAll(x, "\\", "/");
    assert q[..8] == "file:///";
    assert q[..7] == "file://";
  }

  /** A file URI behind one leading backslash is treated like one behind a slash */
  lemma NormalizeTypePathBackslashFileUri(h: Helpers, x: string)
    ensures NormalizeTypePath(h, "\\file:///" + x) ==
      NormalizePath(h, "file:///" + ReplaceAll(x, "\\", "/"))
  {
    var p := "\\file:///" + x;
    assert p[..9] == "\\file:///";
    assert p[1..] == "file:///" + x;
    assert p[1..][0] == 'f';
    assert StripLeadingSlashes(p) == "file:///" + x;
    ReplaceAllPrefix("file:///", x, "\\", "/");
    var q := "file:///" + ReplaceAll(x, "\\", "/");
    assert q[..8] == "file:///";
    assert q[..7] == "file://";
  }

  /** The form-feed alternative: such an input only has its backslashes turned into slashes,
      where `normalizePath` would have returned it unchanged */
  lemma NormalizeTypePathFormFeed(h: Helpers, x: string)
    ensures NormalizeTypePath(h, FORM_FEED_FILE + x) == Ok(FORM_FEED_FILE + ReplaceAll(x, "\\", "/"))
    ensures NormalizePath(h, FORM_FEED_FILE + x) == Ok(FORM_FEED_FILE + x)
  {
    var p := FORM_FEED_FILE + x;
    assert p[..8] == FORM_FEED_FILE;
    ReplaceAllPrefix(FORM_FEED_FILE, x, "\\", "/");
    var c := FORM_FEED_FILE + ReplaceAll(x, "\\", "/");
    PrefixHeads(c);
    PrefixHeads(p);
    assert c[0] == '\U{C}' && p[0] == '\U{C}';
  }

  /** The syntax-tree normaliser is not idempotent: its output starts with `file:///` again
      and is re-rooted a second time */
  lemma SyntaxTreeNotIdempotent(x: string)
    requires '%' !in x
    ensures NormalizeFilePathForSyntaxTree(NormalizeFilePathForSyntaxTree("file:///" + x))
         == BASE_PREFIX + BASE_PREFIX[8..] + x
  {
    var p := "file:///" + x;
    assert p[..8] == "file:///";
    assert '%' !in p;
    NoCharNoContains(p, "web-bala%3A", '%');
    var once := NormalizeFilePathForSyntaxTree(p);
    assert p[8..] == x;
    assert once == BASE_PREFIX + x;
    assert once[..8] == BASE_PREFIX[..8];
    assert '%' !in once;
    NoCharNoContains(once, "web-bala%3A", '%');
    assert once[8..] == BASE_PREFIX[8..] + x;
  }

  lemma {:induction false} NoCharNoContains(s: string, p: string, c: char)
    requires c in p && c !in s
    ensures !Contains(s, p)
    decreases |s|
  {
    if |s| > 0 {
      NoCharNoContains(s[1..], p, c);
    }
  }

  /** A file URI that holds the encoded scheme is re-rooted when the scheme and a slash come
      right after `file:///`, and is kept otherwise */
  lemma SyntaxTreeKeepsEmbeddedScheme(x: string, y: string)
    ensures var p := "file:///" + x + "web-bala%3A" + y;
      NormalizeFilePathForSyntaxTree(p)
        == if StartsWith(x + "web-bala%3A" + y, "web-bala%3A/") then BASE_PREFIX + p[20..] else p
  {
    var tail := x + "web-bala%3A" + y;
    var p := "file:///" + tail;
    assert p == "file:///" + x + "web-bala%3A" + y;
    EmbeddedSchemeFound(x, y);
    assert ENCODED_SCHEME_PREFIX == "file:///" + "web-bala%3A/";
    StartsWithAfterCommon("file:///", tail, "web-bala%3A/");
  }

  lemma EmbeddedSchemeFound(x: string, y: string)
    ensures var p := "file:///" + (x + "web-bala%3A" + y);
      StartsWith(p, "file:///") && Contains(p, "web-bala%3A")
  {
    var p := "file:///" + (x + "web-bala%3A" + y);
    var i := 8 + |x|;
    assert p[i..i + 11] == "web-bala%3A";
    ContainsAt(p, "web-bala%3A", i);
  }

  lemma StartsWithAfterCommon(a: string, t: string, c: string)
    ensures StartsWith(a + t, a + c) <==> StartsWith(t, c)
  {
    if |a + c| <= |a + t| {
      assert (a + t)[..|a + c|] == a + t[..|c|];
      assert (a + t[..|c|])[|a|..] == t[..|c|] && (a + c)[|a|..] == c;
    }
  }
}
