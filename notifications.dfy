/** `resolveNotification` of src/bal_ls/utils.ts: when a document is opened or closed under
    the `expr:` scheme, its URI is replaced by the `file:` URI of the same path under
    `BASE_DIR`. */
module Notifications {
  import opened Text
  import opened Js
  import opened Platform
  import opened Messages

  const DID_OPEN: string := "textDocument" + "/" + "didOpen"
  const DID_CLOSE: string := "textDocument" + "/" + "didClose"
  const EXPR_SCHEME: string := "expr:"

  /** The guard on `params.textDocument.uri`: a string reached through objects */
  function TextDocumentUri(p: Option<JValue>): Option<string> {
    if p.Some? && p.value.JObj? && "textDocument" in p.value.fields then
      var doc := p.value.fields["textDocument"];
      if doc.JObj? && "uri" in doc.fields && doc.fields["uri"].JStr? then Some(doc.fields["uri"].s)
      else None
    else None
  }

  /** `URI.file(path.join(BASE_DIR, rel)).toString()`, where `rel` is the URI without its
      `expr:` scheme and leading slashes */
  function FileUriOf(cfg: Config, h: Helpers, uri: string): string
    requires StartsWith(uri, EXPR_SCHEME)
  {
    h.uriFileString(h.join([cfg.baseDir, TrimLeading(uri[|EXPR_SCHEME|..], '/')]))
  }

  /** The message after `resolveNotification` */
  function NotificationOutcome(cfg: Config, h: Helpers, fields: map<string, JValue>): (r: map<string, JValue>)
    ensures forall k :: k in fields && k != "params" ==> k in r && r[k] == fields[k]
  {
    var uri := TextDocumentUri(Params(fields));
    if MethodName(fields) != Some(DID_OPEN) && MethodName(fields) != Some(DID_CLOSE) then fields
    else if uri.None? || !StartsWith(uri.value, EXPR_SCHEME) then fields
    else
      var p := fields["params"];
      var doc := p.fields["textDocument"];
      fields["params" := JObj(p.fields["textDocument" := JObj(doc.fields["uri" := JStr(FileUriOf(cfg, h, uri.value))])])]
  }

  /** `resolveNotification(message)`, which never throws */
  method ResolveNotification(m: Message, cfg: Config, h: Helpers)
    modifies m
    ensures m.fields == NotificationOutcome(cfg, h, old(m.fields))
  {
    var name := MethodName(m.fields);
    if name == Some(DID_OPEN) || name == Some(DID_CLOSE) {
      var uri := TextDocumentUri(Params(m.fields));
      if uri.Some? && StartsWith(uri.value, EXPR_SCHEME) {
        var p := m.fields["params"];
        var doc := p.fields["textDocument"];
        var fixed := FileUriOf(cfg, h, uri.value);
        m.fields := m.fields["params" := JObj(p.fields["textDocument" := JObj(doc.fields["uri" := JStr(fixed)])])];
      }
    }
  }

  // ---------------------------------------------------------------------------------------
  // Properties

  /** Only the two document notifications with an `expr:` URI are touched */
  lemma UntouchedUnlessExprDocument(cfg: Config, h: Helpers, fields: map<string, JValue>)
    ensures NotificationOutcome(cfg, h, fields) != fields ==>
      (MethodName(fields) == Some(DID_OPEN) || MethodName(fields) == Some(DID_CLOSE))
      && TextDocumentUri(Params(fields)).Some?
      && StartsWith(TextDocumentUri(Params(fields)).value, EXPR_SCHEME)
  {
  }

  /** An `expr:` document gets the file URI of its path, and `params` keeps every other
      property, as does the text document */
  lemma ExprDocumentRewritten(cfg: Config, h: Helpers, fields: map<string, JValue>)
    requires MethodName(fields) == Some(DID_OPEN) || MethodName(fields) == Some(DID_CLOSE)
    requires TextDocumentUri(Params(fields)).Some? && StartsWith(TextDocumentUri(Params(fields)).value, EXPR_SCHEME)
    ensures var u := TextDocumentUri(Params(fields)).value;
      TextDocumentUri(Params(NotificationOutcome(cfg, h, fields))) == Some(FileUriOf(cfg, h, u))
    ensures var r := NotificationOutcome(cfg, h, fields);
      "params" in r && r["params"].JObj?
      && (forall k :: k in fields["params"].fields && k != "textDocument" ==>
            k in r["params"].fields && r["params"].fields[k] == fields["params"].fields[k])
    ensures var r := NotificationOutcome(cfg, h, fields);
      var doc := fields["params"].fields["textDocument"];
      "textDocument" in r["params"].fields && r["params"].fields["textDocument"].JObj?
      && var doc' := r["params"].fields["textDocument"];
      doc'.fields.Keys == doc.fields.Keys
      && forall k :: k in doc.fields && k != "uri" ==> doc'.fields[k] == doc.fields[k]
    ensures NotificationOutcome(cfg, h, fields)["params"].fields.Keys == fields["params"].fields.Keys
  {
  }

  /** The slashes after `expr:` do not matter: `expr:///a/b`, `expr:/a/b` and `expr:a/b`
      name the same file */
  lemma {:induction false} LeadingSlashesIgnored(cfg: Config, h: Helpers, x: string)
    ensures StartsWith(EXPR_SCHEME + "/" + x, EXPR_SCHEME) && StartsWith(EXPR_SCHEME + x, EXPR_SCHEME)
    ensures FileUriOf(cfg, h, EXPR_SCHEME + "/" + x) == FileUriOf(cfg, h, EXPR_SCHEME + x)
  {
    var a := EXPR_SCHEME + "/" + x;
    var b := EXPR_SCHEME + x;
    assert a[..5] == EXPR_SCHEME && b[..5] == EXPR_SCHEME;
    assert a[5..] == "/" + x && b[5..] == x;
    TrimLeadingSkips(x);
  }

  lemma TrimLeadingSkips(x: string)
    ensures TrimLeading("/" + x, '/') == TrimLeading(x, '/')
  {
    assert ("/" + x)[1..] == x;
  }

  /** The rewrite maps `expr:` URIs to file URIs and is not applied twice, provided the
      file URI does not itself start with `expr:` */
  lemma RewriteSettles(cfg: Config, h: Helpers, fields: map<string, JValue>)
    requires MethodName(fields) == Some(DID_OPEN) || MethodName(fields) == Some(DID_CLOSE)
    requires TextDocumentUri(Params(fields)).Some?
    requires var u := TextDocumentUri(Params(fields)).value;
      StartsWith(u, EXPR_SCHEME) ==> !StartsWith(FileUriOf(cfg, h, u), EXPR_SCHEME)
    ensures var once := NotificationOutcome(cfg, h, fields);
      NotificationOutcome(cfg, h, once) == once
  {
    var u := TextDocumentUri(Params(fields)).value;
    var once := NotificationOutcome(cfg, h, fields);
    if StartsWith(u, EXPR_SCHEME) {
      ExprDocumentRewritten(cfg, h, fields);
      assert MethodName(once) == MethodName(fields);
      var v := TextDocumentUri(Params(once));
      assert v == Some(FileUriOf(cfg, h, u)) && !StartsWith(v.value, EXPR_SCHEME);
    } else {
      assert once == fields;
    }
  }
}
