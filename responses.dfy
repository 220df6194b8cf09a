/** `resolveResponseMessage` of src/bal_ls/utils.ts: a response carrying a design model has
    the `location.filePath` of every connection, listener and service turned back into a
    path under the client's scheme; any other response is returned untouched. */
module Responses {
  import opened Text
  import opened Js
  import opened Platform
  import opened Messages

  /** `SCHEME:` followed by the path with its backslashes turned into slashes and the first
      occurrence of `BASE_DIR` removed */
  function Relocated(cfg: Config, path: string): string {
    cfg.scheme + ":" + ReplaceFirst(ReplaceAll(path, "\\", "/"), cfg.baseDir, "")
  }

  /** The body of one `forEach` callback: `entry.location.filePath` must be a string reached
      through objects, or the read (or `.replace`) throws */
  predicate HasLocation(v: JValue) {
    v.JObj? && "location" in v.fields && v.fields["location"].JObj?
    && "filePath" in v.fields["location"].fields && v.fields["location"].fields["filePath"].JStr?
  }

  function LocationPath(v: JValue): string
    requires HasLocation(v)
  {
    v.fields["location"].fields["filePath"].s
  }

  function RelocateEntry(cfg: Config, v: JValue): (r: Result<JValue>)
    ensures r.Ok? <==> HasLocation(v)
  {
    if HasLocation(v) then
      var loc := v.fields["location"];
      Ok(JObj(v.fields["location" := JObj(loc.fields["filePath" := JStr(Relocated(cfg, LocationPath(v)))])]))
    else Throws
  }

  /** The array after a `forEach` over it, and whether the loop finished: entries before the
      first failing one are rewritten, that one and the rest are left as they were */
  datatype Pass = Pass(items: seq<JValue>, ok: bool)

  function RelocateAll(cfg: Config, items: seq<JValue>): (r: Pass)
    ensures |r.items| == |items|
    decreases |items|
  {
    if items == [] then Pass([], true)
    else match RelocateEntry(cfg, items[0])
      case Throws => Pass(items, false)
      case Ok(x) =>
        var rest := RelocateAll(cfg, items[1..]);
        Pass([x] + rest.items, rest.ok)
  }

  /** The guard `message.result && typeof message.result === "object" && "designModel" in
      message.result && message.result.designModel` (an array result has no such key) */
  predicate HasDesignModel(fields: map<string, JValue>) {
    "result" in fields && fields["result"].JObj?
    && "designModel" in fields["result"].fields && Truthy(fields["result"].fields["designModel"])
  }

  /** The message with its design model's properties replaced */
  function WithModel(fields: map<string, JValue>, model: map<string, JValue>): map<string, JValue>
    requires HasDesignModel(fields)
  {
    fields["result" := JObj(fields["result"].fields["designModel" := JObj(model)])]
  }

  /** The three arrays, in the order their loops run */
  const MODEL_ARRAYS: seq<string> := ["connections", "listeners", "services"]

  /** The model after the loops over `keys` (stopping at the first that throws); a key whose
      value is not an array has no `forEach` and throws */
  function RelocateArrays(cfg: Config, model: map<string, JValue>, keys: seq<string>): (r: (map<string, JValue>, bool))
    ensures r.0.Keys == model.Keys
    decreases |keys|
  {
    if keys == [] then (model, true)
    else if keys[0] !in model || !model[keys[0]].JArr? then (model, false)
    else
      var pass := RelocateAll(cfg, model[keys[0]].items);
      var next := model[keys[0] := JArr(pass.items)];
      if !pass.ok then (next, false) else RelocateArrays(cfg, next, keys[1..])
  }

  /** The message after `resolveResponseMessage`, and whether it returned without throwing */
  datatype Response = Response(fields: map<string, JValue>, ok: bool)

  function ResponseOutcome(cfg: Config, fields: map<string, JValue>): Response {
    if !HasDesignModel(fields) then Response(fields, true)
    else
      var dm := fields["result"].fields["designModel"];
      if !dm.JObj? then Response(fields, false)
      else
        var (model, ok) := RelocateArrays(cfg, dm.fields, MODEL_ARRAYS);
        Response(WithModel(fields, model), ok)
  }

  // ---------------------------------------------------------------------------------------
  // The loops

  /** `items.forEach(entry => ...)`, rewriting entries until one throws */
  method RelocateEach(cfg: Config, items: seq<JValue>) returns (out: seq<JValue>, ok: bool)
    ensures Pass(out, ok) == RelocateAll(cfg, items)
  {
    var j := 0;
    var done: seq<JValue> := [];
    while j < |items|
      invariant 0 <= j <= |items|
      invariant RelocateAll(cfg, items)
        == Pass(done + RelocateAll(cfg, items[j..]).items, RelocateAll(cfg, items[j..]).ok)
    {
      var r := RelocateEntry(cfg, items[j]);
      RelocateAllAt(cfg, items, j);
      if r.Throws? {
        return done + items[j..], false;
      }
      var rest := RelocateAll(cfg, items[j + 1..]);
      assert RelocateAll(cfg, items[j..]) == Pass([r.value] + rest.items, rest.ok);
      assert done + ([r.value] + rest.items) == (done + [r.value]) + rest.items;
      done := done + [r.value];
      j := j + 1;
    }
    assert items[j..] == [];
    assert done + [] == done;
    return done, true;
  }

  /** One step of the pass: the entry at `j` either stops it or is rewritten before the rest */
  lemma RelocateAllAt(cfg: Config, items: seq<JValue>, j: nat)
    requires j < |items|
    ensures RelocateEntry(cfg, items[j]).Throws? ==> RelocateAll(cfg, items[j..]) == Pass(items[j..], false)
    ensures RelocateEntry(cfg, items[j]).Ok? ==>
      var rest := RelocateAll(cfg, items[j + 1..]);
      RelocateAll(cfg, items[j..]) == Pass([RelocateEntry(cfg, items[j]).value] + rest.items, rest.ok)
  {
    assert items[j..][0] == items[j];
    assert items[j..][1..] == items[j + 1..];
  }

  /** `resolveResponseMessage(message)`; false when it throws, with the entries rewritten
      before the throw left in place */
  method ResolveResponseMessage(m: Message, cfg: Config) returns (ok: bool)
    modifies m
    ensures ok == ResponseOutcome(cfg, old(m.fields)).ok
    ensures m.fields == ResponseOutcome(cfg, old(m.fields)).fields
  {
    if !HasDesignModel(m.fields) {
      return true;
    }
    var start := m.fields;
    var dm := m.fields["result"].fields["designModel"];
    if !dm.JObj? {
      return false;
    }
    var model := dm.fields;
    var result := start["result"];
    assert result.fields["designModel" := JObj(model)] == result.fields;
    assert start["result" := JObj(result.fields)] == start;
    var k := 0;
    while k < |MODEL_ARRAYS|
      invariant 0 <= k <= |MODEL_ARRAYS|
      invariant m.fields == WithModel(start, model)
      invariant RelocateArrays(cfg, dm.fields, MODEL_ARRAYS) == RelocateArrays(cfg, model, MODEL_ARRAYS[k..])
    {
      var key := MODEL_ARRAYS[k];
      assert MODEL_ARRAYS[k..][0] == key && MODEL_ARRAYS[k..][1..] == MODEL_ARRAYS[k + 1..];
      if key !in model || !model[key].JArr? {
        return false;
      }
      var items, passed := RelocateEach(cfg, model[key].items);
      model := model[key := JArr(items)];
      m.fields := WithModel(start, model);
      if !passed {
        return false;
      }
      k := k + 1;
    }
    assert MODEL_ARRAYS[k..] == [];
    return true;
  }

  // ---------------------------------------------------------------------------------------
  // Properties

  /** A response without a truthy design model is returned unchanged */
  lemma NoDesignModelUnchanged(cfg: Config, fields: map<string, JValue>)
    requires !HasDesignModel(fields)
    ensures ResponseOutcome(cfg, fields) == Response(fields, true)
  {
  }

  /** Only `result` can change: `id`, `jsonrpc` and every other property are kept */
  lemma ResponseKeepsOtherFields(cfg: Config, fields: map<string, JValue>, k: string)
    requires k in fields && k != "result"
    ensures k in ResponseOutcome(cfg, fields).fields && ResponseOutcome(cfg, fields).fields[k] == fields[k]
    ensures "result" in fields <==> "result" in ResponseOutcome(cfg, fields).fields
  {
  }

  /** A path under `BASE_DIR` with forward slashes becomes `SCHEME:` and the rest of it */
  lemma RelocatedUnderBase(cfg: Config, rest: string)
    requires '\\' !in cfg.baseDir && '\\' !in rest
    ensures Relocated(cfg, cfg.baseDir + rest) == cfg.scheme + ":" + rest
  {
    var p := cfg.baseDir + rest;
    assert '\\' !in p;
    NoCharContained(p, '\\');
    ReplaceAllAbsent(p, "\\", "/");
    assert p[..|cfg.baseDir|] == cfg.baseDir;
    ReplaceFirstAtStart(p, cfg.baseDir, "");
    assert p[|cfg.baseDir|..] == rest;
  }

  lemma {:induction false} NoCharContained(s: string, c: char)
    requires c !in s
    ensures !Contains(s, [c])
    decreases |s|
  {
    if |s| > 0 {
      assert s[..1] == [s[0]];
      NoCharContained(s[1..], c);
    }
  }

  /** Backslashes are folded before the prefix is removed, so a Windows-style path under a
      slash-separated `BASE_DIR` is relocated too */
  lemma RelocatedFoldsBackslashes(cfg: Config, path: string)
    ensures Relocated(cfg, path) == Relocated(cfg, ReplaceAll(path, "\\", "/"))
  {
    SlashesFree(path);
    NoCharContained(ReplaceAll(path, "\\", "/"), '\\');
    ReplaceAllAbsent(ReplaceAll(path, "\\", "/"), "\\", "/");
  }

  lemma {:induction false} SlashesFree(s: string)
    ensures '\\' !in ReplaceAll(s, "\\", "/")
    decreases |s|
  {
    if |s| > 0 {
      SlashesFree(s[1..]);
      if StartsWith(s, "\\") {
        assert ReplaceAll(s, "\\", "/") == "/" + ReplaceAll(s[1..], "\\", "/");
      } else {
        assert ReplaceAll(s, "\\", "/") == [s[0]] + ReplaceAll(s[1..], "\\", "/");
        assert s[..1] == [s[0]];
      }
    }
  }

  /** A pass that finishes rewrote every entry; one that stops did so at an entry without a
      string `location.filePath`, having rewritten exactly the entries before it */
  lemma RelocateAllSpec(cfg: Config, items: seq<JValue>)
    ensures var r := RelocateAll(cfg, items);
      r.ok <==> forall i :: 0 <= i < |items| ==> HasLocation(items[i])
    ensures var r := RelocateAll(cfg, items);
      forall i :: 0 <= i < |items| && (forall j :: 0 <= j <= i ==> HasLocation(items[j])) ==>
        r.items[i] == RelocateEntry(cfg, items[i]).value
    ensures var r := RelocateAll(cfg, items);
      forall i :: 0 <= i < |items| && !HasLocation(items[i]) ==> r.items[i] == items[i]
  {
    RelocateAllFinishes(cfg, items);
    RelocateAllRewrites(cfg, items);
    RelocateAllKeepsBad(cfg, items);
  }

  lemma {:induction false} RelocateAllFinishes(cfg: Config, items: seq<JValue>)
    ensures RelocateAll(cfg, items).ok <==> forall i :: 0 <= i < |items| ==> HasLocation(items[i])
    decreases |items|
  {
    if items != [] && HasLocation(items[0]) {
      RelocateAllFinishes(cfg, items[1..]);
      var r := RelocateAll(cfg, items);
      if !r.ok {
        var i :| 0 <= i < |items[1..]| && !HasLocation(items[1..][i]);
        assert !HasLocation(items[i + 1]);
      }
      if !(forall i :: 0 <= i < |items| ==> HasLocation(items[i])) {
        var i :| 0 <= i < |items| && !HasLocation(items[i]);
        assert i > 0 && items[1..][i - 1] == items[i];
      }
    }
  }

  lemma {:induction false} RelocateAllRewrites(cfg: Config, items: seq<JValue>)
    ensures var r := RelocateAll(cfg, items);
      forall i :: 0 <= i < |items| && (forall j :: 0 <= j <= i ==> HasLocation(items[j])) ==>
        r.items[i] == RelocateEntry(cfg, items[i]).value
    decreases |items|
  {
    if items != [] && HasLocation(items[0]) {
      RelocateAllRewrites(cfg, items[1..]);
      var r := RelocateAll(cfg, items);
      var rest := RelocateAll(cfg, items[1..]);
      assert r.items == [RelocateEntry(cfg, items[0]).value] + rest.items;
      forall i | 0 <= i < |items| && (forall j :: 0 <= j <= i ==> HasLocation(items[j]))
        ensures r.items[i] == RelocateEntry(cfg, items[i]).value
      {
        if i > 0 {
          assert items[1..][i - 1] == items[i];
          assert forall j :: 0 <= j <= i - 1 ==> items[1..][j] == items[j + 1];
        }
      }
    }
  }

  lemma {:induction false} RelocateAllKeepsBad(cfg: Config, items: seq<JValue>)
    ensures var r := RelocateAll(cfg, items);
      forall i :: 0 <= i < |items| && !HasLocation(items[i]) ==> r.items[i] == items[i]
    decreases |items|
  {
    if items != [] && HasLocation(items[0]) {
      RelocateAllKeepsBad(cfg, items[1..]);
      var r := RelocateAll(cfg, items);
      var rest := RelocateAll(cfg, items[1..]);
      assert r.items == [RelocateEntry(cfg, items[0]).value] + rest.items;
      forall i | 0 <= i < |items| && !HasLocation(items[i])
        ensures r.items[i] == items[i]
      {
        assert i > 0 && items[1..][i - 1] == items[i];
      }
    }
  }

  /** Entries after the one that stops the pass are untouched */
  lemma {:induction false} RelocateAllStops(cfg: Config, items: seq<JValue>, k: nat)
    requires k < |items| && !HasLocation(items[k])
    ensures RelocateAll(cfg, items).items[k..] == items[k..]
    ensures !RelocateAll(cfg, items).ok
    decreases |items|
  {
    if HasLocation(items[0]) {
      assert k > 0 && items[1..][k - 1] == items[k];
      RelocateAllStops(cfg, items[1..], k - 1);
      assert items[1..][k - 1..] == items[k..];
    }
  }

  /** `model[key]` is an array whose every entry has a string `location.filePath` */
  predicate Relocatable(model: map<string, JValue>, key: string) {
    key in model && model[key].JArr?
    && forall i :: 0 <= i < |model[key].items| ==> HasLocation(model[key].items[i])
  }

  /** The first `j` keys are relocatable */
  predicate RelocatableUpTo(model: map<string, JValue>, keys: seq<string>, j: nat)
    requires j <= |keys|
  {
    forall i :: 0 <= i < j ==> Relocatable(model, keys[i])
  }

  predicate Distinct(keys: seq<string>) {
    forall i, j :: 0 <= i < j < |keys| ==> keys[i] != keys[j]
  }

  /** The loops neither add nor remove a key, and leave every key they do not visit alone */
  lemma {:induction false} RelocateArraysKeepsOthers(cfg: Config, model: map<string, JValue>, keys: seq<string>)
    ensures var r := RelocateArrays(cfg, model, keys);
      r.0.Keys == model.Keys && forall k :: k in model && k !in keys ==> r.0[k] == model[k]
    decreases |keys|
  {
    if keys != [] && keys[0] in model && model[keys[0]].JArr? {
      var pass := RelocateAll(cfg, model[keys[0]].items);
      var next := model[keys[0] := JArr(pass.items)];
      if pass.ok {
        RelocateArraysKeepsOthers(cfg, next, keys[1..]);
        forall k | k in model && k !in keys ensures k !in keys[1..] && k != keys[0] {}
      }
    }
  }

  /** Dropping the first of distinct keys */
  lemma DistinctTail(keys: seq<string>)
    requires Distinct(keys) && keys != []
    ensures Distinct(keys[1..])
    ensures forall i :: 1 <= i < |keys| ==> keys[i] != keys[0]
    ensures keys[0] !in keys[1..]
  {
    forall i, j | 0 <= i < j < |keys[1..]| ensures keys[1..][i] != keys[1..][j] {
      assert keys[1..][i] == keys[i + 1] && keys[1..][j] == keys[j + 1];
    }
  }

  /** After the first key's pass finished, the rest of the keys see the same relocatability */
  lemma RelocatableAfterFirst(model: map<string, JValue>, keys: seq<string>, x: JValue, j: nat)
    requires Distinct(keys) && 1 <= j <= |keys|
    ensures RelocatableUpTo(model[keys[0] := x], keys[1..], j - 1)
       <==> (forall i :: 1 <= i < j ==> Relocatable(model, keys[i]))
  {
    DistinctTail(keys);
    var next := model[keys[0] := x];
    forall i | 1 <= i < |keys| ensures Relocatable(next, keys[1..][i - 1]) <==> Relocatable(model, keys[i]) {
      assert keys[1..][i - 1] == keys[i];
    }
  }

  /** The loops finish exactly when every array they visit is relocatable */
  lemma {:induction false} RelocateArraysFinishes(cfg: Config, model: map<string, JValue>, keys: seq<string>)
    requires Distinct(keys)
    ensures RelocateArrays(cfg, model, keys).1 <==> RelocatableUpTo(model, keys, |keys|)
    decreases |keys|
  {
    if keys != [] {
      if keys[0] in model && model[keys[0]].JArr? {
        var pass := RelocateAll(cfg, model[keys[0]].items);
        var next := model[keys[0] := JArr(pass.items)];
        RelocateAllFinishes(cfg, model[keys[0]].items);
        if pass.ok {
          DistinctTail(keys);
          RelocateArraysFinishes(cfg, next, keys[1..]);
          RelocatableAfterFirst(model, keys, JArr(pass.items), |keys|);
        }
      }
    }
  }

  /** A key whose predecessors were all relocatable gets the array its pass produced; a key
      that comes after one that was not is left alone */
  lemma {:induction false} RelocateArraysRewrites(cfg: Config, model: map<string, JValue>, keys: seq<string>, j: nat)
    requires Distinct(keys) && j < |keys| && keys[j] in model
    ensures RelocatableUpTo(model, keys, j) && model[keys[j]].JArr? ==>
      RelocateArrays(cfg, model, keys).0[keys[j]] == JArr(RelocateAll(cfg, model[keys[j]].items).items)
    ensures !RelocatableUpTo(model, keys, j) ==> RelocateArrays(cfg, model, keys).0[keys[j]] == model[keys[j]]
    decreases |keys|
  {
    RelocateArraysKeepsOthers(cfg, model, keys);
    if keys[0] in model && model[keys[0]].JArr? {
      var pass := RelocateAll(cfg, model[keys[0]].items);
      var next := model[keys[0] := JArr(pass.items)];
      RelocateAllFinishes(cfg, model[keys[0]].items);
      DistinctTail(keys);
      if j == 0 {
        if pass.ok {
          RelocateArraysKeepsOthers(cfg, next, keys[1..]);
        }
      } else if pass.ok {
        assert keys[1..][j - 1] == keys[j] && keys[j] != keys[0];
        RelocateArraysRewrites(cfg, next, keys[1..], j - 1);
        RelocatableAfterFirst(model, keys, JArr(pass.items), j);
        assert Relocatable(model, keys[0]);
      } else {
        assert !Relocatable(model, keys[0]) && keys[j] != keys[0];
      }
    } else if j > 0 {
      assert !Relocatable(model, keys[0]);
    }
  }

  lemma ModelArraysDistinct()
    ensures Distinct(MODEL_ARRAYS)
  {
  }

  /** A design model that is not an object throws at its first `forEach`; an object has its
      three arrays relocated, and the call returns exactly when every entry of all three has a
      string `location.filePath`. No key of the model or of `result` is added or dropped, and
      every key other than the three arrays is kept. */
  lemma ResponseRelocatesModel(cfg: Config, fields: map<string, JValue>)
    requires HasDesignModel(fields)
    ensures var dm := fields["result"].fields["designModel"];
      !dm.JObj? ==> ResponseOutcome(cfg, fields) == Response(fields, false)
    ensures var dm := fields["result"].fields["designModel"];
      var r := ResponseOutcome(cfg, fields);
      dm.JObj? ==>
        (r.ok <==> forall i :: 0 <= i < |MODEL_ARRAYS| ==> Relocatable(dm.fields, MODEL_ARRAYS[i]))
        && r.fields.Keys == fields.Keys
        && r.fields["result"].JObj? && r.fields["result"].fields.Keys == fields["result"].fields.Keys
        && (forall k :: k in fields["result"].fields && k != "designModel" ==>
              r.fields["result"].fields[k] == fields["result"].fields[k])
        && r.fields["result"].fields["designModel"].JObj?
        && var model := r.fields["result"].fields["designModel"].fields;
        model.Keys == dm.fields.Keys
        && forall k :: k in dm.fields && k !in MODEL_ARRAYS ==> model[k] == dm.fields[k]
  {
    var dm := fields["result"].fields["designModel"];
    if dm.JObj? {
      ModelArraysDistinct();
      RelocateArraysFinishes(cfg, dm.fields, MODEL_ARRAYS);
      RelocateArraysKeepsOthers(cfg, dm.fields, MODEL_ARRAYS);
    }
  }

  /** Each of the three arrays whose predecessors were all relocatable gets its pass's
      result, so on success every entry is rewritten by `RelocateEntry`; an array after one
      that was not relocatable is left as it was */
  lemma ResponseRewritesArrays(cfg: Config, fields: map<string, JValue>, j: nat)
    requires HasDesignModel(fields) && fields["result"].fields["designModel"].JObj?
    requires j < |MODEL_ARRAYS|
    ensures var dm := fields["result"].fields["designModel"].fields;
      var model := ResponseOutcome(cfg, fields).fields["result"].fields["designModel"].fields;
      var key := MODEL_ARRAYS[j];
      key in dm ==>
        (RelocatableUpTo(dm, MODEL_ARRAYS, j) && dm[key].JArr? ==>
           model[key] == JArr(RelocateAll(cfg, dm[key].items).items))
        && (ResponseOutcome(cfg, fields).ok ==>
           dm[key].JArr? && model[key].JArr? && |model[key].items| == |dm[key].items|
           && forall i :: 0 <= i < |dm[key].items| ==>
                HasLocation(dm[key].items[i]) && model[key].items[i] == RelocateEntry(cfg, dm[key].items[i]).value)
        && (!RelocatableUpTo(dm, MODEL_ARRAYS, j) ==> model[key] == dm[key])
  {
    var dm := fields["result"].fields["designModel"].fields;
    var key := MODEL_ARRAYS[j];
    ModelArraysDistinct();
    if key in dm {
      RelocateArraysRewrites(cfg, dm, MODEL_ARRAYS, j);
      RelocateArraysFinishes(cfg, dm, MODEL_ARRAYS);
      if ResponseOutcome(cfg, fields).ok {
        assert Relocatable(dm, MODEL_ARRAYS[j]);
        RelocateAllSpec(cfg, dm[key].items);
      }
    }
  }
}
