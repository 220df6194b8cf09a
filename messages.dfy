/** An LSP message as the bridge holds it after `JSON.parse`: a mutable object whose
    properties the rewriters update in place, and the vscode-jsonrpc predicates
    `Message.isRequest`, `Message.isResponse` and `Message.isNotification`. */
module Messages {
  import opened Js

  /** The top-level object of a JSON-RPC message (`jsonrpc`, `id`, `method`, `params`,
      `result`, `error`) */
  class Message {
    var fields: map<string, JValue>

    constructor (fields: map<string, JValue>)
      ensures this.fields == fields
    {
      this.fields := fields;
    }
  }

  /** `o.key` for a property of the message object */
  function Get(fields: map<string, JValue>, key: string): Option<JValue> {
    if key in fields then Some(fields[key]) else None
  }

  /** `message.params` */
  function Params(fields: map<string, JValue>): Option<JValue> {
    Get(fields, "params")
  }

  /** The message after its `params` value has been updated in place (an absent `params`
      stays absent) */
  function WithParams(fields: map<string, JValue>, p: Option<JValue>): (r: map<string, JValue>)
    ensures forall k :: k in fields && k != "params" ==> k in r && r[k] == fields[k]
    ensures p.None? ==> r == fields
  {
    if p.Some? then fields["params" := p.value] else fields
  }

  /** Writing back the value read leaves the message as it was */
  lemma WithOwnParams(fields: map<string, JValue>)
    ensures WithParams(fields, Params(fields)) == fields
  {
    if "params" in fields {
      assert fields["params" := fields["params"]] == fields;
    }
  }

  /** The value a `switch (message.method)` compares against its labels; a non-string
      method matches no label */
  function MethodName(fields: map<string, JValue>): Option<string> {
    if "method" in fields && fields["method"].JStr? then Some(fields["method"].s) else None
  }

  predicate IsId(v: Option<JValue>) {
    v.Some? && (v.value.JStr? || v.value.JNum?)
  }

  /** `Message.isRequest`: a string method and a string or number id */
  predicate IsRequest(v: JValue) {
    v.JObj? && MethodName(v.fields).Some? && IsId(Get(v.fields, "id"))
  }

  /** `Message.isResponse`: a result or a truthy error, and a string, number or null id */
  predicate IsResponse(v: JValue) {
    v.JObj?
    && ("result" in v.fields || ("error" in v.fields && Truthy(v.fields["error"])))
    && (IsId(Get(v.fields, "id")) || Get(v.fields, "id") == Some(JNull))
  }

  /** `Message.isNotification`: a string method and no id */
  predicate IsNotification(v: JValue) {
    v.JObj? && MethodName(v.fields).Some? && "id" !in v.fields
  }
}
