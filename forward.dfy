/** The callback `launchLanguageServer` of src/bal_ls/index.ts hands to `forward`: every
    message between the browser and the language server is serialised and rewritten as
    text, parsed back, and then rewritten as a request, a response or a notification. A
    configured handler replaces the rewritten message with its own result. */
module Forward {
  import opened Js
  import opened Platform
  import opened Messages
  import opened Requests
  import opened Responses
  import opened Notifications
  import opened Absolute

  /** The parts of a `LanguageServerRunConfig` the callback reads: `logMessages` and the
      three optional message handlers */
  datatype Handlers = Handlers(
    logMessages: Option<bool>,
    requestMessageHandler: Option<JValue -> JValue>,
    responseMessageHandler: Option<JValue -> JValue>,
    notificationMessageHandler: Option<JValue -> JValue>)

  /** `runconfig.logMessages ?? false` */
  predicate Logging(rc: Handlers) {
    rc.logMessages.Some? && rc.logMessages.value
  }

  /** A handler's result when one is configured, the message otherwise */
  function Handled(handler: Option<JValue -> JValue>, message: JValue): JValue {
    if handler.Some? then handler.value(message) else message
  }

  /** `resolveAbsolutePath(JSON.stringify(message))` */
  function Reparsed(cfg: Config, h: Helpers, message: JValue): Result<JValue>
    requires ValidConfig(cfg)
  {
    match h.parse(RewrittenText(cfg, h.stringify(message)))
    case None => Throws
    case Some(v) => Ok(v)
  }

  /** The message after the rewriter its kind selects, when that rewriter returns */
  function Rewritten(cfg: Config, h: Helpers, rc: Handlers, v: JValue): Result<JValue> {
    if IsRequest(v) then
      var o := RequestOutcome(cfg, h, v.fields);
      if !o.ok then Throws else Ok(JObj(WithParams(v.fields, o.params)))
    else if IsResponse(v) then
      var o := ResponseOutcome(cfg, v.fields);
      if !o.ok then Throws else Ok(JObj(o.fields))
    else if IsNotification(v) && Logging(rc) then Ok(JObj(NotificationOutcome(cfg, h, v.fields)))
    else Ok(v)
  }

  /** The handler for the kind of `v`, if any */
  function HandlerFor(rc: Handlers, v: JValue): Option<JValue -> JValue> {
    if IsRequest(v) then rc.requestMessageHandler
    else if IsResponse(v) then rc.responseMessageHandler
    else if IsNotification(v) then rc.notificationMessageHandler
    else None
  }

  /** What the callback returns, or Throws when a rewriter throws */
  function ForwardOutcome(cfg: Config, h: Helpers, rc: Handlers, message: JValue): Result<JValue>
    requires ValidConfig(cfg)
  {
    match Reparsed(cfg, h, message)
    case Throws => Throws
    case Ok(v) =>
      match Rewritten(cfg, h, rc, v)
      case Throws => Throws
      case Ok(w) => Ok(Handled(HandlerFor(rc, v), w))
  }

  /** The callback: `message` is reassigned to the parsed rewrite, which the request,
      response and notification rewriters then update in place */
  method ForwardMessage(cfg: Config, h: Helpers, rc: Handlers, message: JValue) returns (r: Result<JValue>)
    requires ValidConfig(cfg)
    ensures r == ForwardOutcome(cfg, h, rc, message)
  {
    var parsed := ResolveAbsolutePath(cfg, h, h.stringify(message));
    if parsed.Throws? {
      return Throws;
    }
    r := Dispatch(cfg, h, rc, parsed.value);
  }

  /** The `if`/`else if` chain on the kind of the parsed message */
  method Dispatch(cfg: Config, h: Helpers, rc: Handlers, v: JValue) returns (r: Result<JValue>)
    ensures r == match Rewritten(cfg, h, rc, v) case Throws => Throws case Ok(w) => Ok(Handled(HandlerFor(rc, v), w))
  {
    if IsRequest(v) {
      var m := new Message(v.fields);
      var ok := ResolveRequestPath(m, cfg, h);
      if !ok {
        return Throws;
      }
      if rc.requestMessageHandler.Some? {
        return Ok(rc.requestMessageHandler.value(JObj(m.fields)));
      }
      return Ok(JObj(m.fields));
    } else if IsResponse(v) {
      var m := new Message(v.fields);
      var ok := ResolveResponseMessage(m, cfg);
      if !ok {
        return Throws;
      }
      if rc.responseMessageHandler.Some? {
        return Ok(rc.responseMessageHandler.value(JObj(m.fields)));
      }
      return Ok(JObj(m.fields));
    } else if IsNotification(v) {
      var m := new Message(v.fields);
      if rc.logMessages.Some? && rc.logMessages.value {
        ResolveNotification(m, cfg, h);
      }
      if rc.notificationMessageHandler.Some? {
        return Ok(rc.notificationMessageHandler.value(JObj(m.fields)));
      }
      return Ok(JObj(m.fields));
    }
    return Ok(v);
  }

  // ---------------------------------------------------------------------------------------
  // Properties

  /** Every message goes through the text rewrite first: a rewrite that does not parse makes
      the callback throw */
  lemma UnparsableRewriteThrows(cfg: Config, h: Helpers, rc: Handlers, message: JValue)
    requires ValidConfig(cfg)
    requires h.parse(RewrittenText(cfg, h.stringify(message))).None?
    ensures ForwardOutcome(cfg, h, rc, message) == Throws
  {
  }

  /** A request without a handler comes back with the request rewrites applied to its params
      and every other property as parsed */
  lemma RequestRewritten(cfg: Config, h: Helpers, rc: Handlers, message: JValue, v: JValue)
    requires ValidConfig(cfg) && Reparsed(cfg, h, message) == Ok(v) && IsRequest(v)
    requires rc.requestMessageHandler.None? && RequestOutcome(cfg, h, v.fields).ok
    ensures var r := ForwardOutcome(cfg, h, rc, message);
      r.Ok? && r.value.JObj?
      && r.value.fields == WithParams(v.fields, RequestOutcome(cfg, h, v.fields).params)
  {
  }

  /** A response that is not also a request (requests are recognised first) and has no
      handler comes back as the response rewrite leaves it */
  lemma ResponseRewritten(cfg: Config, h: Helpers, rc: Handlers, message: JValue, v: JValue)
    requires ValidConfig(cfg) && Reparsed(cfg, h, message) == Ok(v) && IsResponse(v) && !IsRequest(v)
    requires rc.responseMessageHandler.None? && ResponseOutcome(cfg, v.fields).ok
    ensures ForwardOutcome(cfg, h, rc, message) == Ok(JObj(ResponseOutcome(cfg, v.fields).fields))
  {
  }

  /** A notification is rewritten only when messages are logged */
  lemma NotificationNeedsLogging(cfg: Config, h: Helpers, rc: Handlers, message: JValue, v: JValue)
    requires ValidConfig(cfg) && Reparsed(cfg, h, message) == Ok(v) && IsNotification(v)
    requires rc.notificationMessageHandler.None?
    ensures !Logging(rc) ==> ForwardOutcome(cfg, h, rc, message) == Ok(v)
    ensures Logging(rc) ==> ForwardOutcome(cfg, h, rc, message) == Ok(JObj(NotificationOutcome(cfg, h, v.fields)))
  {
    assert !IsRequest(v);
  }

  /** A configured handler's result is what the callback returns */
  lemma HandlerResultReturned(cfg: Config, h: Helpers, rc: Handlers, message: JValue, v: JValue)
    requires ValidConfig(cfg) && Reparsed(cfg, h, message) == Ok(v) && HandlerFor(rc, v).Some?
    requires Rewritten(cfg, h, rc, v).Ok?
    ensures ForwardOutcome(cfg, h, rc, message) == Ok(HandlerFor(rc, v).value(Rewritten(cfg, h, rc, v).value))
  {
  }

  /** A parsed value that is no message at all is returned as parsed */
  lemma OtherValuesPassThrough(cfg: Config, h: Helpers, rc: Handlers, message: JValue, v: JValue)
    requires ValidConfig(cfg) && Reparsed(cfg, h, message) == Ok(v)
    requires !IsRequest(v) && !IsResponse(v) && !IsNotification(v)
    ensures ForwardOutcome(cfg, h, rc, message) == Ok(v)
  {
  }

  /** Requests and notifications are told apart by the presence of an id */
  lemma RequestOrNotification(v: JValue)
    ensures !(IsRequest(v) && IsNotification(v))
    ensures v.JObj? && MethodName(v.fields).Some? && !IsRequest(v) && !IsNotification(v) ==>
      "id" in v.fields && !IsId(Get(v.fields, "id"))
  {
  }
}
