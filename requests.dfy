/** `resolveRequestPath` of src/bal_ls/utils.ts: a `switch` on the request method whose
    cases rewrite one or two path-valued fields of `params` in place. The switch is kept as
    data (its labelled clauses, their bodies and whether they end in `break`) and run by a
    loop with an explicit fall-through flag. */
module Requests {
  import opened Text
  import opened Js
  import opened Platform
  import opened Paths
  import opened Messages

  /** One rewrite a `case` body performs on `params` */
  datatype Action =
    | ProcessId                                 // processId := process.pid
    | DocumentSelector                          // registrations[0]...documentSelector.push(..)
    | UriPathOf(field: string, dropFirst: bool) // field := URI.parse(field).path, maybe minus its first char
    | ServiceSpecUri                            // the spec URI of the second design-approach choice
    | DocumentUri(forModify: bool)              // documentIdentifier.uri := a syntax-tree normaliser of it
    | ParseOnly(field: string)                  // URI.parse(field) evaluated and discarded
    | NormalizedFilePath(typed: bool)           // filePath := normalizePath / normalizeTypePath
    | SequenceFilePath                          // filePath re-rooted at BASE_DIR
    | ResourceFilePath                          // filePath := a fixed path

  /** A `case` group of the switch: its body, and whether it ends in `break` */
  datatype Clause = Clause(body: seq<Action>, breaks: bool)

  const INITIALIZE: string := "initialize"
  const REGISTER_CAPABILITY: string := "client" + "/" + "registerCapability"
  const SEQUENCE_DIAGRAM: string := "sequenceModelGeneratorService" + "/" + "getSequenceDiagramModel"
  const ARTIFACTS: string := "designModelService" + "/" + "artifacts"
  const SYNTAX_TREE: string := "ballerinaDocument" + "/" + "syntaxTree"
  const SYNTAX_TREE_MODIFY: string := "ballerinaDocument" + "/" + "syntaxTreeModify"

  /** The number of clauses, `default` excluded */
  const CLAUSE_COUNT: nat := 26

  /** The clauses of the switch in source order; `EntryClause` gives their labels */
  function ClauseAt(i: int): Clause
    requires 0 <= i < CLAUSE_COUNT
  {
    match i
    case 0 => Clause([ProcessId], true)
    case 1 => Clause([DocumentSelector], true)
    case 2 => Clause([UriPathOf("filePath", false)], true)
    case 3 => Clause([UriPathOf("filePathUri", true)], true)
    case 4 => Clause([UriPathOf("projectPath", false)], true)
    case 5 => Clause([UriPathOf("configFilePath", true)], true)
    case 6 => Clause([UriPathOf("filePath", true), ServiceSpecUri], true)
    case 7 => Clause([UriPathOf("documentFilePath", true)], true)
    case 8 => Clause([UriPathOf("fileName", true), UriPathOf("projectPath", true)], true)
    case 9 => Clause([UriPathOf("documentUri", true)], true)
    case 10 => Clause([DocumentUri(false)], true)
    case 11 => Clause([ParseOnly("filePath"), NormalizedFilePath(false)], true)
    case 12 => Clause([ParseOnly("filePath"), NormalizedFilePath(false)], true)
    case 13 => Clause([ParseOnly("filePath"), NormalizedFilePath(false)], true)
    case 14 => Clause([SequenceFilePath], false)
    case 15 => Clause([ResourceFilePath], true)
    case 16 => Clause([NormalizedFilePath(false)], true)
    case 17 => Clause([NormalizedFilePath(false)], true)
    case 18 => Clause([NormalizedFilePath(false)], true)
    case 19 => Clause([NormalizedFilePath(false)], true)
    case 20 => Clause([NormalizedFilePath(false)], true)
    case 21 => Clause([NormalizedFilePath(false)], true)
    case 22 => Clause([DocumentUri(true)], true)
    case 23 => Clause([ParseOnly("projectPath")], false)
    case 24 => Clause([NormalizedFilePath(false)], true)
    case _ => Clause([NormalizedFilePath(true)], true)
  }

  /** The clause `switch (message.method)` jumps to: the one labelled with the method, or
      `CLAUSE_COUNT` for `default`, which does nothing. Every label but `initialize` has the form
      `service/operation`, and is looked up by its service first. */
  function EntryClause(name: Option<string>): (i: nat)
    ensures i <= CLAUSE_COUNT
  {
    if name.None? then CLAUSE_COUNT
    else
      var k := IndexOf(name.value, "/");
      if k < 0 then (if name.value == INITIALIZE then 0 else CLAUSE_COUNT)
      else ServiceEntry(name.value[..k], name.value[k + 1..])
  }

  /** The clause labelled `service/op` */
  function ServiceEntry(service: string, op: string): (i: nat)
    ensures i <= CLAUSE_COUNT
  {
    match service
    case "client" => if op == "registerCapability" then 1 else CLAUSE_COUNT
    case "typesManager" => TypesManagerEntry(op)
    case "xmlToRecordTypes" => if op == "convert" then 2 else CLAUSE_COUNT
    case "serviceDesign" => ServiceDesignEntry(op)
    case "bi-diagram" => if op == "getVisibleVariableTypes" then 2 else CLAUSE_COUNT
    case "expressionEditor" => ExpressionEditorEntry(op)
    case "flowDesignService" => FlowDesignServiceEntry(op)
    case "jsonToRecordTypes" => if op == "convert" then 3 else CLAUSE_COUNT
    case "designModelService" => DesignModelServiceEntry(op)
    case "configEditor" => ConfigEditorEntry(op)
    case "icpService" => if op == "isIcpEnabled" then 4 else CLAUSE_COUNT
    case "openAPILSExtension" => if op == "generateOpenAPI" then 7 else CLAUSE_COUNT
    case "persistERGeneratorService" => if op == "getPersistERModels" then 9 else CLAUSE_COUNT
    case "ballerinaDocument" => BallerinaDocumentEntry(op)
    case "sequenceModelGeneratorService" => if op == "getSequenceDiagramModel" then 14 else CLAUSE_COUNT
    case "dataMapper" => if op == "visualizable" then 20 else CLAUSE_COUNT
    case _ => CLAUSE_COUNT
  }

  function TypesManagerEntry(op: string): (i: nat)
    ensures i <= CLAUSE_COUNT
  {
    match op
    case "getTypes" | "updateType" | "updateTypes" | "createGraphqlClassType"
      | "getGraphqlType" => 2
    case _ => CLAUSE_COUNT
  }

  function ServiceDesignEntry(op: string): (i: nat)
    ensures i <= CLAUSE_COUNT
  {
    match op
    case "updateFunction" | "getListenerFromSource" | "updateListener" | "updateService"
      | "getListeners" | "getServiceModel" | "addListener" | "addFunction"
      | "getServiceClassModelFromSource" | "updateClassField" | "addField" => 2
    case "addService" => 6
    case "getServiceFromSource" => 12
    case "addResource" => 15
    case _ => CLAUSE_COUNT
  }

  function ExpressionEditorEntry(op: string): (i: nat)
    ensures i <= CLAUSE_COUNT
  {
    match op
    case "visibleVariableTypes" => 2
    case "diagnostics" => 24
    case "types" => 25
    case _ => CLAUSE_COUNT
  }

  function FlowDesignServiceEntry(op: string): (i: nat)
    ensures i <= CLAUSE_COUNT
  {
    match op
    case "deleteFlowNode" => 2
    case "functionDefinition" => 8
    case "getEnclosedFunctionDef" => 11
    case "getFlowModel" => 13
    case "getAvailableNodes" => 16
    case "search" => 17
    case "getCopilotContext" => 18
    case "getNodeTemplate" => 19
    case "getSourceCode" => 21
    case _ => CLAUSE_COUNT
  }

  function DesignModelServiceEntry(op: string): (i: nat)
    ensures i <= CLAUSE_COUNT
  {
    match op
    case "getDesignModel" => 4
    case "artifacts" => 23
    case _ => CLAUSE_COUNT
  }

  function ConfigEditorEntry(op: string): (i: nat)
    ensures i <= CLAUSE_COUNT
  {
    match op
    case "getConfigVariables" => 4
    case "updateConfigVariables" => 5
    case _ => CLAUSE_COUNT
  }

  function BallerinaDocumentEntry(op: string): (i: nat)
    ensures i <= CLAUSE_COUNT
  {
    match op
    case "syntaxTree" => 10
    case "syntaxTreeModify" => 22
    case _ => CLAUSE_COUNT
  }

  /** The switch as a table: clause `i` is `ClauseAt(i)` */
  function Clauses(): (t: seq<Clause>)
    ensures |t| == CLAUSE_COUNT
  {
    seq(CLAUSE_COUNT, ClauseAt)
  }

  /** The actions a switch with clauses `table` runs from clause `i` on: its body and,
      without a `break`, those of the following clauses */
  function FallFrom(table: seq<Clause>, i: nat): seq<Action>
    requires i <= |table|
    decreases |table| - i
  {
    if i == |table| then []
    else table[i].body + (if table[i].breaks then [] else FallFrom(table, i + 1))
  }

  /** The actions the switch runs for a method */
  function Selected(name: Option<string>): seq<Action> {
    FallFrom(Clauses(), EntryClause(name))
  }

  // ---------------------------------------------------------------------------------------
  // The case bodies, on the value of `message.params` (None when absent)

  /** `o.key = x` on an object */
  function Put(v: JValue, key: string, x: JValue): JValue
    requires v.JObj?
  {
    JObj(v.fields[key := x])
  }

  /** `initializeParams.processId = process.pid` */
  function SetProcessId(cfg: Config, p: Option<JValue>): Result<Option<JValue>> {
    var q :- SetProp(p, "processId", JNum(cfg.pid));
    Ok(Some(q))
  }

  /** The selector the bridge registers for its own scheme */
  function BallerinaSelector(cfg: Config): JValue {
    JObj(map["language" := JStr(cfg.language), "scheme" := JStr(cfg.scheme)])
  }

  /** `registrations.length > 0`: an array or a string has a length; an object has what its
      `length` key holds, compared as a number; anything else has none, and `undefined > 0`
      is false */
  predicate HasFirstEntry(regs: JValue) {
    match regs
    case JArr(items) => |items| > 0
    case JStr(s) => |s| > 0
    case JObj(f) => "length" in f && PositiveLength(f["length"])
    case _ => false
  }

  /** `v > 0` for a number, a boolean (1 or 0) or null (0) */
  predicate PositiveLength(v: JValue) {
    match v
    case JNum(n) => n > 0
    case JBool(b) => b
    case _ => false
  }

  /** `registrations[0]`: an element, a one-character string, or an object's `"0"` key */
  function FirstEntry(regs: JValue): Option<JValue>
    requires HasFirstEntry(regs)
  {
    match regs
    case JArr(items) => Some(items[0])
    case JStr(s) => Some(JStr(s[..1]))
    case JObj(f) => if "0" in f then Some(f["0"]) else None
  }

  /** `registrations` after its first entry was changed in place */
  function WithFirstEntry(regs: JValue, first: JValue): JValue
    requires (regs.JArr? && |regs.items| > 0) || regs.JObj?
  {
    if regs.JArr? then JArr(regs.items[0 := first]) else Put(regs, "0", first)
  }

  /** `if (registrations.length > 0) registrations[0].registerOptions.documentSelector.push(..)` */
  function AppendDocumentSelector(cfg: Config, p: Option<JValue>): Result<Option<JValue>> {
    var regs :- Prop(p, "registrations");
    if regs.None? || regs.value.JNull? then Throws
    else if !HasFirstEntry(regs.value) then Ok(p)
    else
      var first := FirstEntry(regs.value);
      var options :- Prop(first, "registerOptions");
      var selectors :- Prop(options, "documentSelector");
      if selectors.Some? && selectors.value.JArr? then
        var grown := JArr(selectors.value.items + [BallerinaSelector(cfg)]);
        var changed := Put(first.value, "registerOptions", Put(options.value, "documentSelector", grown));
        Ok(Some(Put(p.value, "registrations", WithFirstEntry(regs.value, changed))))
      else Throws
  }

  /** `if (params && key in params && params[key]) params[key] = URI.parse(params[key]).path`,
      with `.substring(1)` when `dropFirst` */
  function RewriteUriField(h: Helpers, p: Option<JValue>, field: string, dropFirst: bool): Result<Option<JValue>> {
    var present :- HasTruthy(p, field);
    if !present then Ok(p)
    else
      var path := h.uriParsePath(ToJsString(p.value.fields[field]));
      if path.None? then Throws
      else Ok(Some(Put(p.value, field, JStr(if dropFirst then DropFirst(path.value) else path.value))))
  }

  /** The guard of the field `params.service.properties.designApproach.choices`: every value
      on the way is a (non-null) object, and the last an array */
  predicate ReachesChoices(v: JValue) {
    v.JObj? && "service" in v.fields
    && var service := v.fields["service"];
    service.JObj? && "properties" in service.fields
    && var props := service.fields["properties"];
    props.JObj? && "designApproach" in props.fields
    && var approach := props.fields["designApproach"];
    approach.JObj? && "choices" in approach.fields && approach.fields["choices"].JArr?
  }

  function ChoicesOf(v: JValue): seq<JValue>
    requires ReachesChoices(v)
  {
    v.fields["service"].fields["properties"].fields["designApproach"].fields["choices"].items
  }

  /** `params` with its design-approach choices replaced */
  function WithChoices(v: JValue, choices: seq<JValue>): JValue
    requires ReachesChoices(v)
  {
    var service := v.fields["service"];
    var props := service.fields["properties"];
    var approach := props.fields["designApproach"];
    Put(v, "service", Put(service, "properties", Put(props, "designApproach",
      Put(approach, "choices", JArr(choices)))))
  }

  /** The second `if` of `serviceDesign/addService`: `choices[1].properties.spec.value`, when
      truthy, is replaced by its URI path minus the first character */
  function RewriteServiceSpec(h: Helpers, p: Option<JValue>): Result<Option<JValue>> {
    if p.None? || !Truthy(p.value) then Ok(p)
    else if !IsObjectLike(p.value) then Throws
    else if !ReachesChoices(p.value) then Ok(p)
    else
      var choices := ChoicesOf(p.value);
      var second := if |choices| > 1 then Some(choices[1]) else None;
      var props :- Prop(second, "properties");
      var spec :- Prop(props, "spec");
      var specUri :- Prop(spec, "value");
      if specUri.None? || !Truthy(specUri.value) then Ok(p)
      else
        var path := h.uriParsePath(ToJsString(specUri.value));
        if path.None? then Throws
        else
          var newSpec := Put(spec.value, "value", JStr(DropFirst(path.value)));
          var newSecond := Put(second.value, "properties", Put(props.value, "spec", newSpec));
          Ok(Some(WithChoices(p.value, choices[1 := newSecond])))
  }

  /** The guard of the syntax-tree cases: `params.documentIdentifier.uri` is a string reached
      through objects */
  function DocumentIdentifierUri(p: Option<JValue>): Option<string> {
    if p.Some? && p.value.JObj? && "documentIdentifier" in p.value.fields then
      var id := p.value.fields["documentIdentifier"];
      if id.JObj? && "uri" in id.fields && id.fields["uri"].JStr? then Some(id.fields["uri"].s)
      else None
    else None
  }

  /** The syntax-tree cases: the decoded URI path is computed (and may throw) but unused; the
      URI itself is replaced by a normaliser's result */
  function RewriteDocumentUri(h: Helpers, p: Option<JValue>, forModify: bool): Result<Option<JValue>> {
    var uri := DocumentIdentifierUri(p);
    if uri.None? then Ok(p)
    else
      var path := h.uriParsePath(uri.value);
      if path.None? then Throws
      else if h.decodeComponent(path.value).None? then Throws
      else
        var id := p.value.fields["documentIdentifier"];
        var fixed := if forModify then NormalizeFilePathForSyntaxTreeModify(h, uri.value)
                     else NormalizeFilePathForSyntaxTree(uri.value);
        Ok(Some(Put(p.value, "documentIdentifier", Put(id, "uri", JStr(fixed)))))
  }

  /** `URI.parse(params[field]).path` evaluated for its side effect of throwing */
  function ProbeUriField(h: Helpers, p: Option<JValue>, field: string): Result<Option<JValue>> {
    var present :- HasTruthy(p, field);
    if !present then Ok(p)
    else if h.uriParsePath(ToJsString(p.value.fields[field])).None? then Throws
    else Ok(p)
  }

  /** `filePath = normalizePath(filePath)` (or `normalizeTypePath`); a non-string has no
      `startsWith` and throws */
  function NormalizeFileField(h: Helpers, p: Option<JValue>, typed: bool): Result<Option<JValue>> {
    var present :- HasTruthy(p, "filePath");
    if !present then Ok(p)
    else
      var v := p.value.fields["filePath"];
      if !v.JStr? then Throws
      else
        var fixed :- if typed then NormalizeTypePath(h, v.s) else NormalizePath(h, v.s);
        Ok(Some(Put(p.value, "filePath", JStr(fixed))))
  }

  /** The sequence-diagram path: backslashes to slashes, a leading BASE_DIR dropped, then
      rejoined to BASE_DIR and normalised */
  function SequencePath(cfg: Config, h: Helpers, path: string): string {
    var normalized := ReplaceAll(path, "\\", "/");
    var clean := if StartsWith(normalized, cfg.baseDir) then normalized[|cfg.baseDir|..] else normalized;
    h.normalize(h.join([cfg.baseDir, clean]))
  }

  function RewriteSequencePath(cfg: Config, h: Helpers, p: Option<JValue>): Result<Option<JValue>> {
    var present :- HasTruthy(p, "filePath");
    if !present then Ok(p)
    else
      var v := p.value.fields["filePath"];
      if !v.JStr? then Throws
      else Ok(Some(Put(p.value, "filePath", JStr(SequencePath(cfg, h, v.s)))))
  }

  function SetResourcePath(p: Option<JValue>): Result<Option<JValue>> {
    var present :- HasTruthy(p, "filePath");
    if !present then Ok(p)
    else Ok(Some(Put(p.value, "filePath", JStr(ADD_RESOURCE_PATH))))
  }

  function Perform(cfg: Config, h: Helpers, a: Action, p: Option<JValue>): Result<Option<JValue>> {
    match a
    case ProcessId => SetProcessId(cfg, p)
    case DocumentSelector => AppendDocumentSelector(cfg, p)
    case UriPathOf(field, dropFirst) => RewriteUriField(h, p, field, dropFirst)
    case ServiceSpecUri => RewriteServiceSpec(h, p)
    case DocumentUri(forModify) => RewriteDocumentUri(h, p, forModify)
    case ParseOnly(field) => ProbeUriField(h, p, field)
    case NormalizedFilePath(typed) => NormalizeFileField(h, p, typed)
    case SequenceFilePath => RewriteSequencePath(cfg, h, p)
    case ResourceFilePath => SetResourcePath(p)
  }

  /** The value of `params` after a run of actions, and whether the run finished without
      throwing (the updates made before a throw stay) */
  datatype Outcome = Outcome(params: Option<JValue>, ok: bool)

  function RunActions(cfg: Config, h: Helpers, acts: seq<Action>, p: Option<JValue>): Outcome
    decreases |acts|
  {
    if acts == [] then Outcome(p, true)
    else match Perform(cfg, h, acts[0], p)
      case Throws => Outcome(p, false)
      case Ok(q) => RunActions(cfg, h, acts[1..], q)
  }

  /** What `resolveRequestPath` does to a message */
  function RequestOutcome(cfg: Config, h: Helpers, fields: map<string, JValue>): Outcome {
    RunActions(cfg, h, Selected(MethodName(fields)), Params(fields))
  }

  // ---------------------------------------------------------------------------------------
  // The switch, run step by step

  /** Runs a switch with clauses `table` from clause `entry`: collects bodies while
      falling through and stops after the first clause that ends in `break` */
  method SelectClauses(table: seq<Clause>, entry: nat) returns (acts: seq<Action>)
    requires entry <= |table|
    ensures acts == FallFrom(table, entry)
  {
    acts := [];
    var i := entry;
    while i < |table|
      invariant entry <= i <= |table|
      invariant acts + FallFrom(table, i) == FallFrom(table, entry)
    {
      CollectStep(table, acts, entry, i);
      acts := acts + table[i].body;
      if table[i].breaks {
        return;
      }
      i := i + 1;
    }
  }

  /** One step of `SelectClauses`: the body of clause `i` joins the collected actions */
  lemma CollectStep(table: seq<Clause>, acts: seq<Action>, entry: nat, i: nat)
    requires entry <= i < |table|
    requires acts + FallFrom(table, i) == FallFrom(table, entry)
    ensures table[i].breaks ==> acts + table[i].body == FallFrom(table, entry)
    ensures !table[i].breaks ==> (acts + table[i].body) + FallFrom(table, i + 1) == FallFrom(table, entry)
  {
    var c := table[i];
    assert acts + (c.body + FallFrom(table, i + 1)) == (acts + c.body) + FallFrom(table, i + 1);
  }

  /** `resolveRequestPath(message)`; false when it throws, with the updates made before the
      throw left in place */
  method ResolveRequestPath(m: Message, cfg: Config, h: Helpers) returns (ok: bool)
    modifies m
    ensures ok == RequestOutcome(cfg, h, old(m.fields)).ok
    ensures m.fields == WithParams(old(m.fields), RequestOutcome(cfg, h, old(m.fields)).params)
  {
    var acts := SelectClauses(Clauses(), EntryClause(MethodName(m.fields)));
    var start := m.fields;
    var p := Params(m.fields);
    var j := 0;
    while j < |acts|
      invariant 0 <= j <= |acts|
      invariant m.fields == WithParams(start, p)
      invariant RunActions(cfg, h, acts, Params(start)) == RunActions(cfg, h, acts[j..], p)
    {
      var r := Perform(cfg, h, acts[j], p);
      assert acts[j..][1..] == acts[j + 1..];
      if r.Throws? {
        return false;
      }
      p := r.value;
      m.fields := WithParams(start, p);
      j := j + 1;
    }
    return true;
  }

  // ---------------------------------------------------------------------------------------
  // What the switch selects

  /** The two-level lookup agrees with a comparison of the whole method name: a name
      `service/op` whose service holds no slash is looked up as exactly that pair */
  lemma EntryOfLabel(service: string, op: string)
    requires '/' !in service
    ensures EntryClause(Some(service + "/" + op)) == ServiceEntry(service, op)
  {
    var name := service + "/" + op;
    IndexOfFirst(service, '/', op);
    assert name[..|service|] == service;
    assert name[|service| + 1..] == op;
  }

  /** `sequenceModelGeneratorService/getSequenceDiagramModel` has no `break`: it runs its own
      body and then that of `serviceDesign/addResource` */
  lemma SequenceEntry()
    ensures ServiceEntry("sequenceModelGeneratorService", "getSequenceDiagramModel") == 14
  {
  }

  lemma FallFrom14()
    ensures FallFrom(Clauses(), 14) == [SequenceFilePath, ResourceFilePath]
  {
    assert Clauses()[14] == ClauseAt(14) && Clauses()[15] == ClauseAt(15);
  }

  lemma SelectsSequenceFallThrough()
    ensures Selected(Some(SEQUENCE_DIAGRAM)) == [SequenceFilePath, ResourceFilePath]
  {
    EntryOfLabel("sequenceModelGeneratorService", "getSequenceDiagramModel");
    SequenceEntry();
    FallFrom14();
  }

  /** `designModelService/artifacts` has no `break`: its discarded URI parse is followed by the
      `filePath` normalisation of `expressionEditor/diagnostics` */
  lemma ArtifactsEntry()
    ensures ServiceEntry("designModelService", "artifacts") == 23
  {
  }

  lemma FallFrom23()
    ensures FallFrom(Clauses(), 23) == [ParseOnly("projectPath"), NormalizedFilePath(false)]
  {
    assert Clauses()[23] == ClauseAt(23) && Clauses()[24] == ClauseAt(24);
  }

  lemma SelectsArtifactsFallThrough()
    ensures Selected(Some(ARTIFACTS)) == [ParseOnly("projectPath"), NormalizedFilePath(false)]
  {
    EntryOfLabel("designModelService", "artifacts");
    ArtifactsEntry();
    FallFrom23();
  }

  lemma InitializeEntry()
    ensures Selected(Some(INITIALIZE)) == [ProcessId]
  {
    var n := INITIALIZE;
    assert '/' !in n;
    NoCharNoContains(n, "/", '/');
    IndexOfFindsContained(n, "/");
    assert Clauses()[0] == ClauseAt(0);
  }

  lemma RegisterEntry()
    ensures Selected(Some(REGISTER_CAPABILITY)) == [DocumentSelector]
  {
    EntryOfLabel("client", "registerCapability");
    assert Clauses()[1] == ClauseAt(1);
  }

  // ---------------------------------------------------------------------------------------
  // What the switch does to a message

  /** A method that names no label falls to `default` and leaves the message as it was */
  lemma UnlabelledMethodUnchanged(cfg: Config, h: Helpers, fields: map<string, JValue>)
    requires EntryClause(MethodName(fields)) == CLAUSE_COUNT
    ensures RequestOutcome(cfg, h, fields) == Outcome(Params(fields), true)
    ensures WithParams(fields, RequestOutcome(cfg, h, fields).params) == fields
  {
    WithOwnParams(fields);
  }

  /** The services that head a `service/op` label */
  const LABELLED_SERVICES: set<string> := {"client", "typesManager", "xmlToRecordTypes",
    "serviceDesign", "bi-diagram", "expressionEditor", "flowDesignService", "jsonToRecordTypes",
    "designModelService", "configEditor", "icpService", "openAPILSExtension",
    "persistERGeneratorService", "ballerinaDocument", "sequenceModelGeneratorService", "dataMapper"}

  /** The converse of the label lookup: a name with no slash other than `initialize`, and a
      name whose service heads no label, select `default` */
  lemma NoLabelSelectsDefault(name: string)
    ensures !Contains(name, "/") && name != INITIALIZE ==> EntryClause(Some(name)) == CLAUSE_COUNT
    ensures var k := IndexOf(name, "/");
      k >= 0 && name[..k] !in LABELLED_SERVICES ==> EntryClause(Some(name)) == CLAUSE_COUNT
  {
    IndexOfFindsContained(name, "/");
  }

  /** `textDocument/hover`, a method the bridge passes through, is not rewritten */
  lemma HoverUnchanged(cfg: Config, h: Helpers, fields: map<string, JValue>)
    requires MethodName(fields) == Some("textDocument/hover")
    ensures RequestOutcome(cfg, h, fields) == Outcome(Params(fields), true)
    ensures WithParams(fields, RequestOutcome(cfg, h, fields).params) == fields
  {
    HoverEntry();
    UnlabelledMethodUnchanged(cfg, h, fields);
  }

  lemma HoverEntry()
    ensures EntryClause(Some("textDocument/hover")) == CLAUSE_COUNT
  {
    var service, op := "textDocument", "hover";
    assert service + "/" + op == "textDocument/hover";
    assert ServiceEntry(service, op) == CLAUSE_COUNT;
    EntryOfLabel(service, op);
  }

  /** `initialize` stamps `processId` on an object; on an array the write is invisible; on
      absent, null or primitive params the strict-mode write throws */
  lemma InitializeSetsProcessId(cfg: Config, h: Helpers, fields: map<string, JValue>)
    requires MethodName(fields) == Some(INITIALIZE)
    ensures var p := Params(fields);
      RequestOutcome(cfg, h, fields) ==
        match p
        case Some(JObj(f)) => Outcome(Some(JObj(f["processId" := JNum(cfg.pid)])), true)
        case Some(JArr(_)) => Outcome(p, true)
        case _ => Outcome(p, false)
  {
    InitializeEntry();
  }

  /** `client/registerCapability` appends the bridge's selector to the document selectors of
      the first registration, and changes nothing else */
  lemma RegistrationAppendsSelector(cfg: Config, h: Helpers, fields: map<string, JValue>,
                                    pf: map<string, JValue>, items: seq<JValue>,
                                    first: map<string, JValue>, options: map<string, JValue>,
                                    selectors: seq<JValue>)
    requires MethodName(fields) == Some(REGISTER_CAPABILITY)
    requires Params(fields) == Some(JObj(pf))
    requires "registrations" in pf && pf["registrations"] == JArr(items)
    requires |items| > 0 && items[0] == JObj(first)
    requires "registerOptions" in first && first["registerOptions"] == JObj(options)
    requires "documentSelector" in options && options["documentSelector"] == JArr(selectors)
    ensures RequestOutcome(cfg, h, fields) == Outcome(Some(JObj(pf["registrations" :=
      JArr(items[0 := JObj(first["registerOptions" :=
        JObj(options["documentSelector" := JArr(selectors + [BallerinaSelector(cfg)])])])])])), true)
  {
    RegisterEntry();
    RunOne(cfg, h, DocumentSelector, Params(fields));
  }

  /** The registration case throws when `params` or its `registrations` is missing or null,
      and does nothing when there is no registration */
  lemma RegistrationEdgeCases(cfg: Config, h: Helpers, fields: map<string, JValue>)
    requires MethodName(fields) == Some(REGISTER_CAPABILITY)
    ensures Params(fields).None? ==> !RequestOutcome(cfg, h, fields).ok
    ensures (Params(fields).Some? && Params(fields).value.JObj?
             && ("registrations" !in Params(fields).value.fields
                 || Params(fields).value.fields["registrations"] == JNull))
            ==> !RequestOutcome(cfg, h, fields).ok
    ensures (Params(fields).Some? && Params(fields).value.JObj?
             && "registrations" in Params(fields).value.fields
             && Params(fields).value.fields["registrations"] == JArr([]))
            ==> RequestOutcome(cfg, h, fields) == Outcome(Params(fields), true)
  {
    RegisterEntry();
    RunOne(cfg, h, DocumentSelector, Params(fields));
  }

  /** An object standing in for `registrations` is read as an array-like: its `length` key
      decides whether there is a first entry, which is its `"0"` key */
  lemma RegistrationArrayLike(cfg: Config, h: Helpers, fields: map<string, JValue>,
                              pf: map<string, JValue>, rf: map<string, JValue>)
    requires MethodName(fields) == Some(REGISTER_CAPABILITY)
    requires Params(fields) == Some(JObj(pf))
    requires "registrations" in pf && pf["registrations"] == JObj(rf)
    ensures !("length" in rf && PositiveLength(rf["length"])) ==>
      RequestOutcome(cfg, h, fields) == Outcome(Params(fields), true)
    ensures "length" in rf && PositiveLength(rf["length"]) && "0" !in rf ==>
      RequestOutcome(cfg, h, fields) == Outcome(Params(fields), false)
    ensures forall first: map<string, JValue>, options: map<string, JValue>, selectors: seq<JValue> ::
      ("length" in rf && PositiveLength(rf["length"]) && "0" in rf && rf["0"] == JObj(first)
       && "registerOptions" in first && first["registerOptions"] == JObj(options)
       && "documentSelector" in options && options["documentSelector"] == JArr(selectors))
      ==> RequestOutcome(cfg, h, fields) == Outcome(Some(JObj(pf["registrations" :=
            JObj(rf["0" := JObj(first["registerOptions" :=
              JObj(options["documentSelector" := JArr(selectors + [BallerinaSelector(cfg)])])])])])), true)
  {
    RegisterEntry();
    RunOne(cfg, h, DocumentSelector, Params(fields));
    ArrayLikeSelector(cfg, pf, rf);
  }

  /** The selector body on an array-like `registrations` */
  lemma ArrayLikeSelector(cfg: Config, pf: map<string, JValue>, rf: map<string, JValue>)
    requires "registrations" in pf && pf["registrations"] == JObj(rf)
    ensures !("length" in rf && PositiveLength(rf["length"])) ==>
      AppendDocumentSelector(cfg, Some(JObj(pf))) == Ok(Some(JObj(pf)))
    ensures "length" in rf && PositiveLength(rf["length"]) && "0" !in rf ==>
      AppendDocumentSelector(cfg, Some(JObj(pf))) == Throws
    ensures forall first: map<string, JValue>, options: map<string, JValue>, selectors: seq<JValue> ::
      ("length" in rf && PositiveLength(rf["length"]) && "0" in rf && rf["0"] == JObj(first)
       && "registerOptions" in first && first["registerOptions"] == JObj(options)
       && "documentSelector" in options && options["documentSelector"] == JArr(selectors))
      ==> AppendDocumentSelector(cfg, Some(JObj(pf))) == Ok(Some(JObj(pf["registrations" :=
            JObj(rf["0" := JObj(first["registerOptions" :=
              JObj(options["documentSelector" := JArr(selectors + [BallerinaSelector(cfg)])])])])])))
  {
  }

  /** The outcome of a last case body run on `p` */
  function Settle(p: Option<JValue>, r: Result<Option<JValue>>): Outcome {
    match r
    case Throws => Outcome(p, false)
    case Ok(q) => Outcome(q, true)
  }

  /** Running a single action */
  lemma RunOne(cfg: Config, h: Helpers, a: Action, p: Option<JValue>)
    ensures RunActions(cfg, h, [a], p) == Settle(p, Perform(cfg, h, a, p))
  {
    var r := Perform(cfg, h, a, p);
    if r.Ok? {
      assert [a][1..] == [];
    }
  }

  /** Running two actions: the second sees the first's result */
  lemma RunTwo(cfg: Config, h: Helpers, a: Action, b: Action, p: Option<JValue>)
    ensures RunActions(cfg, h, [a, b], p) ==
      match Perform(cfg, h, a, p)
      case Throws => Outcome(p, false)
      case Ok(q) => RunActions(cfg, h, [b], q)
  {
    assert [a, b][1..] == [b];
  }

  /** The clauses that rewrite one flat field by its URI path */
  lemma UriFieldClauses()
    ensures FallFrom(Clauses(), 2) == [UriPathOf("filePath", false)]
    ensures FallFrom(Clauses(), 3) == [UriPathOf("filePathUri", true)]
    ensures FallFrom(Clauses(), 4) == [UriPathOf("projectPath", false)]
    ensures FallFrom(Clauses(), 5) == [UriPathOf("configFilePath", true)]
    ensures FallFrom(Clauses(), 7) == [UriPathOf("documentFilePath", true)]
    ensures FallFrom(Clauses(), 9) == [UriPathOf("documentUri", true)]
  {
    assert Clauses()[2] == ClauseAt(2) && Clauses()[3] == ClauseAt(3);
    assert Clauses()[4] == ClauseAt(4) && Clauses()[5] == ClauseAt(5);
    assert Clauses()[7] == ClauseAt(7) && Clauses()[9] == ClauseAt(9);
  }

  /** The twenty methods of the first `filePath` group (`typesManager/getTypes`,
      `serviceDesign/addField`, ...) select exactly the flat `filePath` rewrite */
  lemma FlatFilePathLabel(service: string, op: string)
    requires '/' !in service && ServiceEntry(service, op) == 2
    ensures Selected(Some(service + "/" + op)) == [UriPathOf("filePath", false)]
  {
    EntryOfLabel(service, op);
    UriFieldClauses();
  }

  /** A flat-field clause runs its one rewrite */
  lemma UriFieldRuns(cfg: Config, h: Helpers, fields: map<string, JValue>, field: string, dropFirst: bool)
    requires Selected(MethodName(fields)) == [UriPathOf(field, dropFirst)]
    ensures RequestOutcome(cfg, h, fields) == Settle(Params(fields), RewriteUriField(h, Params(fields), field, dropFirst))
  {
    RunOne(cfg, h, UriPathOf(field, dropFirst), Params(fields));
  }

  /** A flat-field rewrite: nothing happens unless `params` is truthy and holds a truthy
      `field`; a truthy primitive `params` makes the `in` operator throw; otherwise the field
      becomes its URI path (minus the first character when `dropFirst`) */
  lemma UriFieldCases(h: Helpers, p: Option<JValue>, field: string, dropFirst: bool)
    ensures (p.None? || !Truthy(p.value) || p.value.JArr?
             || (p.value.JObj? && (field !in p.value.fields || !Truthy(p.value.fields[field]))))
            ==> RewriteUriField(h, p, field, dropFirst) == Ok(p)
    ensures p.Some? && Truthy(p.value) && !IsObjectLike(p.value) ==> RewriteUriField(h, p, field, dropFirst) == Throws
    ensures p.Some? && p.value.JObj? && field in p.value.fields && Truthy(p.value.fields[field]) ==>
      RewriteUriField(h, p, field, dropFirst) ==
        match h.uriParsePath(ToJsString(p.value.fields[field]))
        case None => Throws
        case Some(x) => Ok(Some(JObj(p.value.fields[field := JStr(if dropFirst then DropFirst(x) else x)])))
  {
  }

  /** Every case body keeps absent `params` absent */
  lemma PerformKeepsAbsent(cfg: Config, h: Helpers, a: Action)
    ensures Perform(cfg, h, a, None) == Throws || Perform(cfg, h, a, None) == Ok(None)
  {
  }

  lemma {:induction false} RunKeepsAbsent(cfg: Config, h: Helpers, acts: seq<Action>)
    ensures RunActions(cfg, h, acts, None).params == None
    decreases |acts|
  {
    if acts != [] {
      PerformKeepsAbsent(cfg, h, acts[0]);
      if Perform(cfg, h, acts[0], None).Ok? {
        RunKeepsAbsent(cfg, h, acts[1..]);
      }
    }
  }

  /** A request without `params` leaves `resolveRequestPath` unchanged, whatever its method,
      even when a case body throws */
  lemma NoParamsNoChange(cfg: Config, h: Helpers, fields: map<string, JValue>)
    requires "params" !in fields
    ensures WithParams(fields, RequestOutcome(cfg, h, fields).params) == fields
  {
    RunKeepsAbsent(cfg, h, Selected(MethodName(fields)));
  }

  /** The sequence-diagram request ends with the fixed `addResource` path: its own rewrite is
      overwritten by the clause it falls into, unless that rewrite produced an empty path */
  lemma SequenceDiagramPath(cfg: Config, h: Helpers, fields: map<string, JValue>,
                            f: map<string, JValue>, x: string)
    requires MethodName(fields) == Some(SEQUENCE_DIAGRAM)
    requires Params(fields) == Some(JObj(f)) && "filePath" in f && f["filePath"] == JStr(x) && x != []
    ensures RequestOutcome(cfg, h, fields) ==
      Outcome(Some(JObj(f["filePath" := JStr(if SequencePath(cfg, h, x) == [] then [] else ADD_RESOURCE_PATH)])), true)
  {
    SequenceRunsTwoBodies(cfg, h, fields);
    var y := SequencePath(cfg, h, x);
    var g := f["filePath" := JStr(y)];
    assert RewriteSequencePath(cfg, h, Params(fields)) == Ok(Some(JObj(g)));
    assert g["filePath" := JStr(ADD_RESOURCE_PATH)] == f["filePath" := JStr(ADD_RESOURCE_PATH)];
  }

  lemma SequenceRunsTwoBodies(cfg: Config, h: Helpers, fields: map<string, JValue>)
    requires MethodName(fields) == Some(SEQUENCE_DIAGRAM)
    ensures RequestOutcome(cfg, h, fields) ==
      match RewriteSequencePath(cfg, h, Params(fields))
      case Throws => Outcome(Params(fields), false)
      case Ok(q) => Settle(q, SetResourcePath(q))
  {
    SelectsSequenceFallThrough();
    RunTwo(cfg, h, SequenceFilePath, ResourceFilePath, Params(fields));
    var r := RewriteSequencePath(cfg, h, Params(fields));
    if r.Ok? {
      RunOne(cfg, h, ResourceFilePath, r.value);
    }
  }

  /** A path already under `BASE_DIR` is not re-rooted twice */
  lemma SequencePathNoDuplicate(cfg: Config, h: Helpers, y: string)
    requires '\\' !in cfg.baseDir && '\\' !in y && !StartsWith(y, cfg.baseDir)
    ensures SequencePath(cfg, h, cfg.baseDir + y) == SequencePath(cfg, h, y)
  {
    var x := cfg.baseDir + y;
    assert '\\' !in x;
    NoCharNoContains(x, "\\", '\\');
    NoCharNoContains(y, "\\", '\\');
    ReplaceAllAbsent(x, "\\", "/");
    ReplaceAllAbsent(y, "\\", "/");
    assert x[..|cfg.baseDir|] == cfg.baseDir;
    assert x[|cfg.baseDir|..] == y;
  }

  /** `designModelService/artifacts` parses `projectPath` without storing the result (the
      assignment is commented out), then falls into the `filePath` normalisation */
  lemma ArtifactsNormalizesFilePath(cfg: Config, h: Helpers, fields: map<string, JValue>,
                                    f: map<string, JValue>, x: string)
    requires MethodName(fields) == Some(ARTIFACTS)
    requires Params(fields) == Some(JObj(f)) && "filePath" in f && f["filePath"] == JStr(x) && x != []
    ensures ("projectPath" !in f || !Truthy(f["projectPath"])
             || h.uriParsePath(ToJsString(f["projectPath"])).Some?) ==>
      RequestOutcome(cfg, h, fields) ==
        match NormalizePath(h, x)
        case Ok(y) => Outcome(Some(JObj(f["filePath" := JStr(y)])), true)
        case Throws => Outcome(Params(fields), false)
    ensures ("projectPath" in f && Truthy(f["projectPath"])
             && h.uriParsePath(ToJsString(f["projectPath"])).None?) ==>
      RequestOutcome(cfg, h, fields) == Outcome(Params(fields), false)
  {
    ArtifactsRunsProbeThenNormalize(cfg, h, fields);
    ProbeKeepsParams(h, Params(fields), "projectPath");
    NormalizeFileFieldCases(h, Params(fields), false);
  }

  lemma ArtifactsRunsProbeThenNormalize(cfg: Config, h: Helpers, fields: map<string, JValue>)
    requires MethodName(fields) == Some(ARTIFACTS)
    ensures RequestOutcome(cfg, h, fields) ==
      match ProbeUriField(h, Params(fields), "projectPath")
      case Throws => Outcome(Params(fields), false)
      case Ok(q) => Settle(q, NormalizeFileField(h, q, false))
  {
    SelectsArtifactsFallThrough();
    RunTwo(cfg, h, ParseOnly("projectPath"), NormalizedFilePath(false), Params(fields));
    RunOne(cfg, h, NormalizedFilePath(false), Params(fields));
  }

  /** A discarded URI parse changes nothing; it throws exactly when its guard throws or the
      parse itself fails */
  lemma ProbeKeepsParams(h: Helpers, p: Option<JValue>, field: string)
    ensures ProbeUriField(h, p, field) == Throws || ProbeUriField(h, p, field) == Ok(p)
    ensures ProbeUriField(h, p, field).Throws? <==>
      HasTruthy(p, field).Throws?
      || (HasTruthy(p, field) == Ok(true) && h.uriParsePath(ToJsString(p.value.fields[field])).None?)
  {
  }

  lemma SyntaxTreeEntries()
    ensures ServiceEntry("ballerinaDocument", "syntaxTree") == 10
    ensures ServiceEntry("ballerinaDocument", "syntaxTreeModify") == 22
  {
  }

  lemma FallFrom10()
    ensures FallFrom(Clauses(), 10) == [DocumentUri(false)]
  {
    assert Clauses()[10] == ClauseAt(10);
  }

  lemma FallFrom22()
    ensures FallFrom(Clauses(), 22) == [DocumentUri(true)]
  {
    assert Clauses()[22] == ClauseAt(22);
  }

  /** Each syntax-tree method selects the document-URI rewrite with its own normaliser */
  lemma SyntaxTreeClauses(forModify: bool)
    ensures Selected(Some(if forModify then SYNTAX_TREE_MODIFY else SYNTAX_TREE)) == [DocumentUri(forModify)]
  {
    SyntaxTreeEntries();
    if forModify {
      EntryOfLabel("ballerinaDocument", "syntaxTreeModify");
      FallFrom22();
    } else {
      EntryOfLabel("ballerinaDocument", "syntaxTree");
      FallFrom10();
    }
  }

  /** The syntax-tree requests run the document-URI rewrite alone */
  lemma SyntaxTreeRunsDocumentUri(cfg: Config, h: Helpers, fields: map<string, JValue>, forModify: bool)
    requires MethodName(fields) == Some(if forModify then SYNTAX_TREE_MODIFY else SYNTAX_TREE)
    ensures RequestOutcome(cfg, h, fields) == Settle(Params(fields), RewriteDocumentUri(h, Params(fields), forModify))
  {
    SyntaxTreeClauses(forModify);
    RunOne(cfg, h, DocumentUri(forModify), Params(fields));
  }

  /** The document-URI rewrite replaces a string `documentIdentifier.uri` by the normaliser's
      result, after a URI parse and a percent-decoding that may throw; any other shape of
      `params` is left alone */
  lemma DocumentUriCases(h: Helpers, p: Option<JValue>, forModify: bool)
    ensures DocumentIdentifierUri(p).None? ==> RewriteDocumentUri(h, p, forModify) == Ok(p)
    ensures var u := DocumentIdentifierUri(p);
      u.Some? ==>
        p.Some? && p.value.JObj? && "documentIdentifier" in p.value.fields
        && p.value.fields["documentIdentifier"].JObj?
        && RewriteDocumentUri(h, p, forModify) ==
          if h.uriParsePath(u.value).None? || h.decodeComponent(h.uriParsePath(u.value).value).None? then
            Throws
          else
            var id := p.value.fields["documentIdentifier"];
            var fixed := if forModify then NormalizeFilePathForSyntaxTreeModify(h, u.value)
                         else NormalizeFilePathForSyntaxTree(u.value);
            Ok(Some(JObj(p.value.fields["documentIdentifier" := JObj(id.fields["uri" := JStr(fixed)])])))
  {
  }

  /** The spec URI of `serviceDesign/addService`: the second choice's `properties.spec.value`
      becomes its URI path minus the first character; with fewer than two choices the read of
      `choices[1].properties` throws */
  /** `choices[1].properties.spec` is reached through objects */
  predicate ReachesSpec(second: JValue) {
    second.JObj? && "properties" in second.fields
    && second.fields["properties"].JObj? && "spec" in second.fields["properties"].fields
  }

  function SpecOf(second: JValue): JValue
    requires ReachesSpec(second)
  {
    second.fields["properties"].fields["spec"]
  }

  /** Params that fail the guard of the design-approach rewrite are kept, except that `in` on
      a truthy primitive throws */
  lemma ServiceSpecGuard(h: Helpers, p: Option<JValue>)
    ensures p.None? || !Truthy(p.value) ==> RewriteServiceSpec(h, p) == Ok(p)
    ensures p.Some? && Truthy(p.value) && !IsObjectLike(p.value) ==> RewriteServiceSpec(h, p) == Throws
    ensures p.Some? && IsObjectLike(p.value) && !ReachesChoices(p.value) ==> RewriteServiceSpec(h, p) == Ok(p)
  {
  }

  /** Past the guard: `choices[1].properties.spec` must be reachable or the read throws; a
      falsy or absent `value` leaves params as they were, a truthy one becomes its URI path
      minus the first character */
  lemma ServiceSpecRewrite(h: Helpers, v: JValue)
    requires ReachesChoices(v)
    ensures |ChoicesOf(v)| < 2 ==> RewriteServiceSpec(h, Some(v)) == Throws
    ensures var c := ChoicesOf(v);
      |c| >= 2 && !ReachesSpec(c[1]) ==> RewriteServiceSpec(h, Some(v)) == Throws
    ensures var c := ChoicesOf(v);
      |c| >= 2 && ReachesSpec(c[1]) && SpecOf(c[1]).JNull? ==> RewriteServiceSpec(h, Some(v)) == Throws
    ensures var c := ChoicesOf(v);
      (|c| >= 2 && ReachesSpec(c[1]) && !SpecOf(c[1]).JNull?
       && (!SpecOf(c[1]).JObj? || "value" !in SpecOf(c[1]).fields || !Truthy(SpecOf(c[1]).fields["value"])))
      ==> RewriteServiceSpec(h, Some(v)) == Ok(Some(v))
    ensures var c := ChoicesOf(v);
      (|c| >= 2 && ReachesSpec(c[1]) && SpecOf(c[1]).JObj?
       && "value" in SpecOf(c[1]).fields && Truthy(SpecOf(c[1]).fields["value"])) ==>
      var props := c[1].fields["properties"];
      var spec := SpecOf(c[1]);
      RewriteServiceSpec(h, Some(v)) ==
        match h.uriParsePath(ToJsString(spec.fields["value"]))
        case None => Throws
        case Some(x) => Ok(Some(WithChoices(v, c[1 := JObj(c[1].fields["properties" :=
          JObj(props.fields["spec" := JObj(spec.fields["value" := JStr(DropFirst(x))])])])])))
  {
  }

  /** The clauses that normalise `filePath` with `normalizePath` (or, for
      `expressionEditor/types`, `normalizeTypePath`) */
  lemma NormalizedClauses()
    ensures forall i | 16 <= i <= 21 || i == 24 :: FallFrom(Clauses(), i) == [NormalizedFilePath(false)]
    ensures forall i | 11 <= i <= 13 ::
      FallFrom(Clauses(), i) == [ParseOnly("filePath"), NormalizedFilePath(false)]
    ensures FallFrom(Clauses(), 25) == [NormalizedFilePath(true)]
  {
    forall i | 16 <= i <= 21 || i == 24
      ensures FallFrom(Clauses(), i) == [NormalizedFilePath(false)]
    {
      NormalizedClause(i);
    }
    forall i | 11 <= i <= 13
      ensures FallFrom(Clauses(), i) == [ParseOnly("filePath"), NormalizedFilePath(false)]
    {
      NormalizedClause(i);
    }
    NormalizedClause(25);
  }

  /** One normalising clause */
  lemma NormalizedClause(i: nat)
    requires 11 <= i <= 13 || 16 <= i <= 21 || i == 24 || i == 25
    ensures 11 <= i <= 13 ==> FallFrom(Clauses(), i) == [ParseOnly("filePath"), NormalizedFilePath(false)]
    ensures (16 <= i <= 21 || i == 24) ==> FallFrom(Clauses(), i) == [NormalizedFilePath(false)]
    ensures i == 25 ==> FallFrom(Clauses(), i) == [NormalizedFilePath(true)]
  {
    assert Clauses()[i] == ClauseAt(i);
  }

  /** The normalising clauses: a truthy string `filePath` is replaced by the normaliser's
      result and a truthy non-string one makes `startsWith` throw; params without a truthy
      `filePath` are kept, except that `in` on a truthy primitive throws */
  lemma NormalizeFileFieldCases(h: Helpers, p: Option<JValue>, typed: bool)
    ensures (p.None? || !Truthy(p.value) || p.value.JArr?
             || (p.value.JObj? && ("filePath" !in p.value.fields || !Truthy(p.value.fields["filePath"]))))
            ==> NormalizeFileField(h, p, typed) == Ok(p)
    ensures p.Some? && Truthy(p.value) && !IsObjectLike(p.value) ==> NormalizeFileField(h, p, typed) == Throws
    ensures (p.Some? && p.value.JObj? && "filePath" in p.value.fields && Truthy(p.value.fields["filePath"])
             && !p.value.fields["filePath"].JStr?) ==> NormalizeFileField(h, p, typed) == Throws
    ensures (p.Some? && p.value.JObj? && "filePath" in p.value.fields && Truthy(p.value.fields["filePath"])
             && p.value.fields["filePath"].JStr?) ==>
      var x := p.value.fields["filePath"].s;
      NormalizeFileField(h, p, typed) ==
        match (if typed then NormalizeTypePath(h, x) else NormalizePath(h, x))
        case Throws => Throws
        case Ok(y) => Ok(Some(JObj(p.value.fields["filePath" := JStr(y)])))
  {
  }
}
