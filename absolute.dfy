/** `resolveAbsolutePath` of src/bal_ls/utils.ts: the serialised message is rewritten as
    text before it is parsed. A message from the client (one mentioning `SCHEME:`) has every
    `SCHEME:` replaced by a file URI under `BASE_DIR`; a message from the language server has
    its file URIs and base directories folded back into `SCHEME:`. */
module Absolute {
  import opened Text
  import opened Js
  import opened Platform

  /** `${SCHEME}:` */
  function ClientMarker(cfg: Config): (s: string)
    ensures s != []
  {
    cfg.scheme + ":"
  }

  /** The test that selects the server-side chain */
  predicate FromServer(cfg: Config, text: string) {
    Contains(text, cfg.baseDir) || Contains(text, "bala:/") || Contains(text, "file:/")
  }

  /** The four global replacements applied to a message from the language server */
  function ServerChain(cfg: Config, text: string): string
    requires ValidConfig(cfg)
  {
    var a := ReplaceAll(text, FILE_SCHEME + cfg.baseDir, ClientMarker(cfg));
    var b := ReplaceAll(a, FILE_SCHEME + cfg.baseDir1, ClientMarker(cfg));
    var c := ReplaceAll(b, cfg.baseDir, "");
    ReplaceAll(c, cfg.baseDir1, ClientMarker(cfg))
  }

  /** The text `JSON.parse` receives */
  function RewrittenText(cfg: Config, text: string): string
    requires ValidConfig(cfg)
  {
    if Contains(text, ClientMarker(cfg)) then ReplaceAll(text, ClientMarker(cfg), FILE_SCHEME + cfg.baseDir)
    else if FromServer(cfg, text) then ServerChain(cfg, text)
    else text
  }

  /** `resolveAbsolutePath(message)` on a non-Windows host: the rewritten text, parsed (a
      parse failure is the exception `JSON.parse` throws) */
  method ResolveAbsolutePath(cfg: Config, h: Helpers, text: string) returns (r: Result<JValue>)
    requires ValidConfig(cfg)
    ensures r == match h.parse(RewrittenText(cfg, text)) case None => Throws case Some(v) => Ok(v)
  {
    var message := text;
    var marker := cfg.scheme + ":";
    if Contains(message, marker) {
      message := ReplaceAll(message, marker, FILE_SCHEME + cfg.baseDir);
    } else if Contains(message, cfg.baseDir) || Contains(message, "bala:/") || Contains(message, "file:/") {
      message := ReplaceAll(message, FILE_SCHEME + cfg.baseDir, marker);
      message := ReplaceAll(message, FILE_SCHEME + cfg.baseDir1, marker);
      message := ReplaceAll(message, cfg.baseDir, "");
      message := ReplaceAll(message, cfg.baseDir1, marker);
    }
    var parsed := h.parse(message);
    if parsed.None? {
      return Throws;
    }
    return Ok(parsed.value);
  }

  // ---------------------------------------------------------------------------------------
  // Properties

  /** A client message has every occurrence of `SCHEME:` replaced by `file://BASE_DIR`, and
      nothing else changes: the text is the pieces between the markers, rejoined */
  lemma ClientMessageRewritten(cfg: Config, text: string)
    requires ValidConfig(cfg) && Contains(text, ClientMarker(cfg))
    ensures RewrittenText(cfg, text) == Join(Split(text, ClientMarker(cfg)), FILE_SCHEME + cfg.baseDir)
  {
    ReplaceAllIsSplitJoin(text, ClientMarker(cfg), FILE_SCHEME + cfg.baseDir);
  }

  /** Only a text that mentions `SCHEME:`, `BASE_DIR`, `bala:/` or `file:/` is changed */
  lemma UnmarkedTextKept(cfg: Config, text: string)
    requires ValidConfig(cfg)
    requires RewrittenText(cfg, text) != text
    ensures Contains(text, ClientMarker(cfg)) || FromServer(cfg, text)
  {
  }

  /** The server chain changes nothing in a text that mentions neither base directory, such
      as one whose only file URIs lie elsewhere */
  lemma ServerChainNeedsBaseDir(cfg: Config, text: string)
    requires ValidConfig(cfg)
    requires !Contains(text, cfg.baseDir) && !Contains(text, cfg.baseDir1)
    ensures ServerChain(cfg, text) == text
  {
    if Contains(text, FILE_SCHEME + cfg.baseDir) {
      ContainsSuffix(text, FILE_SCHEME, cfg.baseDir);
    }
    if Contains(text, FILE_SCHEME + cfg.baseDir1) {
      ContainsSuffix(text, FILE_SCHEME, cfg.baseDir1);
    }
    ReplaceAllAbsent(text, FILE_SCHEME + cfg.baseDir, ClientMarker(cfg));
    ReplaceAllAbsent(text, FILE_SCHEME + cfg.baseDir1, ClientMarker(cfg));
    ReplaceAllAbsent(text, cfg.baseDir, "");
    ReplaceAllAbsent(text, cfg.baseDir1, ClientMarker(cfg));
  }

  /** A server message that is one file URI under `BASE_DIR` comes back as `SCHEME:` and the
      path below `BASE_DIR`, when neither directory name recurs */
  lemma ServerUriRelocated(cfg: Config, rest: string)
    requires ValidConfig(cfg)
    requires !Contains(FILE_SCHEME + cfg.baseDir + rest, ClientMarker(cfg))
    requires !Contains(rest, cfg.baseDir)
    requires var t := ClientMarker(cfg) + rest;
      !Contains(t, FILE_SCHEME + cfg.baseDir1) && !Contains(t, cfg.baseDir) && !Contains(t, cfg.baseDir1)
    ensures RewrittenText(cfg, FILE_SCHEME + cfg.baseDir + rest) == ClientMarker(cfg) + rest
  {
    var p := FILE_SCHEME + cfg.baseDir;
    var text := p + rest;
    var m := ClientMarker(cfg);
    assert text[..|p|] == p && text[|p|..] == rest;
    assert text[|FILE_SCHEME|..][..|cfg.baseDir|] == cfg.baseDir;
    ContainsAt(text, cfg.baseDir, |FILE_SCHEME|);
    assert FromServer(cfg, text);
    if Contains(rest, p) {
      ContainsSuffix(rest, FILE_SCHEME, cfg.baseDir);
    }
    ReplaceAllAbsent(rest, p, m);
    assert ReplaceAll(text, p, m) == m + rest;
    ReplaceAllAbsent(m + rest, FILE_SCHEME + cfg.baseDir1, m);
    ReplaceAllAbsent(m + rest, cfg.baseDir, "");
    ReplaceAllAbsent(m + rest, cfg.baseDir1, m);
  }
}
