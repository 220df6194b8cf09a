/** The slice of JavaScript semantics the rewriters depend on: JSON values, truthiness,
    `String(v)`, property reads and writes that throw a TypeError on `undefined`/`null` (and,
    in strict-mode code, on writes to primitives), the `in` operator, and `parseInt(s, 10)`. */
module Js {
  import opened Text

  datatype Option<T> = None | Some(value: T)

  /** The completion of a JavaScript expression: a value, or a thrown exception */
  datatype Result<T> = Ok(value: T) | Throws {
    predicate IsFailure() { Throws? }
    function PropagateFailure<U>(): Result<U> requires Throws? { Throws }
    function Extract(): T requires Ok? { value }
  }

  /** A value as produced by `JSON.parse` (numbers are the integers the rewriters meet) */
  datatype JValue =
    | JNull
    | JBool(b: bool)
    | JNum(n: int)
    | JStr(s: string)
    | JArr(items: seq<JValue>)
    | JObj(fields: map<string, JValue>)

  /** `!!v` */
  predicate Truthy(v: JValue) {
    match v
    case JNull => false
    case JBool(b) => b
    case JNum(n) => n != 0
    case JStr(s) => s != []
    case _ => true
  }

  /** `typeof v === "object" && v`: an object or an array */
  predicate IsObjectLike(v: JValue) {
    v.JObj? || v.JArr?
  }

  function DigitChar(d: nat): char
    requires d < 10
  {
    "0123456789"[d]
  }

  function NatToString(n: nat): (s: string)
    ensures |s| >= 1
    decreases n
  {
    if n < 10 then [DigitChar(n)] else NatToString(n / 10) + [DigitChar(n % 10)]
  }

  /** `String(n)` for an integral number */
  function IntToString(n: int): string {
    if n < 0 then "-" + NatToString(-n) else NatToString(n)
  }

  /** `String(v)`, the coercion a string parameter applies to a non-string argument */
  function ToJsString(v: JValue): string
    decreases v, 1
  {
    match v
    case JNull => "null"
    case JBool(b) => if b then "true" else "false"
    case JNum(n) => IntToString(n)
    case JStr(s) => s
    case JArr(items) => ElementsToString(v, items)
    case JObj(_) => "[object Object]"
  }

  /** `items.join(",")` with `null` elements shown as empty strings */
  function ElementsToString(parent: JValue, items: seq<JValue>): string
    requires forall i :: 0 <= i < |items| ==> items[i] < parent
    decreases parent, 0, |items|
  {
    if |items| == 0 then []
    else
      var head := if items[0].JNull? then [] else ToJsString(items[0]);
      if |items| == 1 then head else head + "," + ElementsToString(parent, items[1..])
  }

  /** `v.key` where `v` is `undefined` (None) or a present value */
  function Prop(v: Option<JValue>, key: string): (r: Result<Option<JValue>>)
    ensures r.Throws? <==> v.None? || v.value.JNull?
    ensures r.Ok? && r.value.Some? ==>
      v.value.JObj? && key in v.value.fields && r.value.value == v.value.fields[key]
    ensures v.Some? && v.value.JObj? && key in v.value.fields ==> r == Ok(Some(v.value.fields[key]))
  {
    match v
    case None => Throws
    case Some(JNull) => Throws
    case Some(JObj(f)) => Ok(if key in f then Some(f[key]) else None)
    case Some(_) => Ok(None)
  }

  /** `key in v` for a truthy `v` (a TypeError on a primitive) */
  function In(v: JValue, key: string): Result<bool>
    requires Truthy(v)
  {
    match v
    case JObj(f) => Ok(key in f)
    case JArr(_) => Ok(false)
    case _ => Throws
  }

  /** `v && key in v && v[key]`, the guard of every flat-field rewrite */
  function HasTruthy(v: Option<JValue>, key: string): (r: Result<bool>)
    ensures r == Ok(true) ==>
      v.Some? && v.value.JObj? && key in v.value.fields && Truthy(v.value.fields[key])
  {
    if v.None? || !Truthy(v.value) then Ok(false)
    else
      var present :- In(v.value, key);
      Ok(present && Truthy(v.value.fields[key]))
  }

  /** `v.key = x` in strict-mode code; a non-index property of an array is invisible to JSON */
  function SetProp(v: Option<JValue>, key: string, x: JValue): (r: Result<JValue>)
    ensures r.Ok? ==> v.Some? && (v.value.JObj? || v.value.JArr?)
    ensures r.Ok? && v.value.JObj? ==> r.value == JObj(v.value.fields[key := x])
    ensures r.Ok? && v.value.JArr? ==> r.value == v.value
  {
    match v
    case Some(JObj(f)) => Ok(JObj(f[key := x]))
    case Some(JArr(_)) => Ok(v.value)
    case _ => Throws
  }

  predicate IsDigit(c: char) {
    '0' <= c <= '9'
  }

  function DigitPrefix(s: string): (d: string)
    ensures StartsWith(s, d)
    ensures forall i :: 0 <= i < |d| ==> IsDigit(d[i])
    ensures |d| < |s| ==> !IsDigit(s[|d|])
    decreases |s|
  {
    if |s| > 0 && IsDigit(s[0]) then [s[0]] + DigitPrefix(s[1..]) else []
  }

  function DigitsValue(d: string): nat
    requires forall i :: 0 <= i < |d| ==> IsDigit(d[i])
    decreases |d|
  {
    if |d| == 0 then 0
    else
      assert IsDigit(d[|d| - 1]);
      10 * DigitsValue(d[..|d| - 1]) + (d[|d| - 1] as int - '0' as int)
  }

  /** `parseInt(s, 10)`; None stands for NaN. Precision loss past 2^53 is not modelled. */
  function ParseInt(s: string): Option<int> {
    var t := TrimStart(s);
    var signed := |t| > 0 && (t[0] == '-' || t[0] == '+');
    var u := if signed then t[1..] else t;
    var d := DigitPrefix(u);
    var magnitude: int := if |d| == 0 then 0 else DigitsValue(d);
    if |d| == 0 then None
    else if signed && t[0] == '-' then Some(-magnitude)
    else Some(magnitude)
  }

  /** `String(n)` consists of decimal digits only */
  lemma {:induction false} NatDigits(n: nat)
    ensures forall i :: 0 <= i < |NatToString(n)| ==> IsDigit(NatToString(n)[i])
    decreases n
  {
    if n >= 10 {
      NatDigits(n / 10);
    }
  }

  lemma {:induction false} DigitPrefixOfDigits(d: string)
    requires forall i :: 0 <= i < |d| ==> IsDigit(d[i])
    ensures DigitPrefix(d) == d
    decreases |d|
  {
    if |d| > 0 {
      DigitPrefixOfDigits(d[1..]);
    }
  }

  lemma DigitCharValue(k: nat)
    requires k < 10
    ensures DigitChar(k) as int - '0' as int == k
  {
  }

  lemma {:induction false} DigitsOfNat(n: nat)
    ensures NatDigitsValid(n) && DigitsValue(NatToString(n)) == n
    decreases n
  {
    NatDigits(n);
    var s := NatToString(n);
    if n < 10 {
      DigitCharValue(n);
      assert s[..0] == [];
    } else {
      DigitsOfNat(n / 10);
      DigitCharValue(n % 10);
      assert s[..|s| - 1] == NatToString(n / 10);
    }
  }

  predicate NatDigitsValid(n: nat) {
    forall i :: 0 <= i < |NatToString(n)| ==> IsDigit(NatToString(n)[i])
  }

  /** `parseInt(String(n), 10)` gives `n` back */
  lemma ParseIntOfNat(n: nat)
    ensures ParseInt(NatToString(n)) == Some(n)
  {
    var s := NatToString(n);
    NatDigits(n);
    assert IsDigit(s[0]);
    assert !IsJsSpace(s[0]);
    var t := TrimStart(s);
    assert t == s;
    assert s[0] != '-' && s[0] != '+';
    DigitPrefixOfDigits(s);
    DigitsOfNat(n);
    assert DigitPrefix(s) == s && DigitsValue(s) == n;
  }

  predicate IsHexDigit(c: char) {
    IsDigit(c) || 'a' <= c <= 'f' || 'A' <= c <= 'F'
  }

  function HexDigitValue(c: char): (v: nat)
    requires IsHexDigit(c)
    ensures v < 16
  {
    if IsDigit(c) then c as int - '0' as int
    else if 'a' <= c <= 'f' then c as int - 'a' as int + 10
    else c as int - 'A' as int + 10
  }

  function HexPrefix(s: string): (d: string)
    ensures StartsWith(s, d)
    ensures forall i :: 0 <= i < |d| ==> IsHexDigit(d[i])
    ensures |d| < |s| ==> !IsHexDigit(s[|d|])
    decreases |s|
  {
    if |s| > 0 && IsHexDigit(s[0]) then [s[0]] + HexPrefix(s[1..]) else []
  }

  function HexValue(d: string): nat
    requires forall i :: 0 <= i < |d| ==> IsHexDigit(d[i])
    decreases |d|
  {
    if |d| == 0 then 0
    else
      assert IsHexDigit(d[|d| - 1]);
      16 * HexValue(d[..|d| - 1]) + HexDigitValue(d[|d| - 1])
  }

  /** `u` starts with `0x` or `0X` */
  predicate HexMarked(u: string) {
    |u| >= 2 && u[0] == '0' && (u[1] == 'x' || u[1] == 'X')
  }

  /** `parseInt(s)` with no radix: after blanks and a sign, `0x` or `0X` selects base 16 and
      anything else base 10; None stands for NaN. */
  function ParseIntAuto(s: string): Option<int> {
    var t := TrimStart(s);
    var signed := |t| > 0 && (t[0] == '-' || t[0] == '+');
    var u := if signed then t[1..] else t;
    if !HexMarked(u) then ParseInt(s)
    else
      var d := HexPrefix(u[2..]);
      var magnitude: int := if |d| == 0 then 0 else HexValue(d);
      if |d| == 0 then None
      else if signed && t[0] == '-' then Some(-magnitude)
      else Some(magnitude)
  }

  /** Without a `0x` marker the radix-less `parseInt` is the decimal one */
  lemma DecimalWithoutMarker(s: string)
    ensures var t := TrimStart(s);
      var u := if |t| > 0 && (t[0] == '-' || t[0] == '+') then t[1..] else t;
      !HexMarked(u) ==> ParseIntAuto(s) == ParseInt(s)
  {
  }

  /** `parseInt(String(n))` gives `n` back: decimal digits never carry the hex marker */
  lemma ParseIntAutoOfNat(n: nat)
    ensures ParseIntAuto(NatToString(n)) == Some(n)
  {
    var s := NatToString(n);
    NatDigits(n);
    assert IsDigit(s[0]) && !IsJsSpace(s[0]);
    assert TrimStart(s) == s;
    assert s[0] != '-' && s[0] != '+';
    assert !HexMarked(s) by {
      if |s| >= 2 { assert IsDigit(s[1]); }
    }
    DecimalWithoutMarker(s);
    ParseIntOfNat(n);
  }

  /** A hex-marked text of hex digits reads as their base-16 value */
  lemma HexMarkedReads(s: string, d: string)
    requires |s| >= 2 && s[0] == '0' && (s[1] == 'x' || s[1] == 'X') && s[2..] == d
    requires |d| > 0 && forall i :: 0 <= i < |d| ==> IsHexDigit(d[i])
    ensures ParseIntAuto(s) == Some(HexValue(d))
  {
    assert !IsJsSpace(s[0]);
    var t := TrimStart(s);
    assert t == s;
    assert !(|t| > 0 && (t[0] == '-' || t[0] == '+'));
    assert HexMarked(s);
    HexPrefixAll(d);
    assert HexPrefix(s[2..]) == d;
  }

  lemma HexValueSnoc(d: string, c: char)
    requires (forall i :: 0 <= i < |d| ==> IsHexDigit(d[i])) && IsHexDigit(c)
    ensures HexValue(d + [c]) == 16 * HexValue(d) + HexDigitValue(c)
  {
    assert (d + [c])[..|d|] == d;
  }

  /** `LSDEBUG_PORT=0x1389` reads as port 5001 */
  lemma HexPortExample()
    ensures ParseIntAuto("0x1389") == Some(5001)
  {
    var s, d := "0x1389", "1389";
    HexValueOf1389();
    assert s[0] == '0' && s[1] == 'x' && s[2..] == d;
    HexMarkedReads(s, d);
  }

  lemma HexValueOf1389()
    ensures HexValue("1389") == 5001
  {
    var a, b, c, d := "1", "13", "138", "1389";
    assert a == [] + ['1'] && b == a + ['3'] && c == b + ['8'] && d == c + ['9'];
    HexValueSnoc([], '1');
    HexValueSnoc(a, '3');
    HexValueSnoc(b, '8');
    HexValueSnoc(c, '9');
  }

  /** A bare marker reads NaN, whatever follows it that is not a hex digit */
  lemma BareMarkerIsNaN(rest: string)
    requires rest == [] || !IsHexDigit(rest[0])
    ensures ParseIntAuto("0x" + rest) == None
  {
    var s := "0x" + rest;
    assert s[0] == '0' && !IsJsSpace(s[0]);
    assert TrimStart(s) == s;
    assert HexMarked(s) && s[2..] == rest;
  }

  lemma {:induction false} HexPrefixAll(d: string)
    requires forall i :: 0 <= i < |d| ==> IsHexDigit(d[i])
    ensures HexPrefix(d) == d
    decreases |d|
  {
    if |d| > 0 {
      HexPrefixAll(d[1..]);
    }
  }
}
