/** JavaScript values as the handlers see them: parsed JSON request bodies,
    database rows and the loose truthiness tests the code applies to them. */
module Js {
  import opened Text

  datatype Option<+T> = None | Some(value: T)

  /** A value of a parsed JSON body or a database row. Numbers are integers;
      `NaN` is the one other number the model needs (a failed `parseInt`).
      An object keeps its own properties in order. */
  datatype Value =
    | Undefined
    | Null
    | Bool(b: bool)
    | Num(n: int)
    | NaN
    | Str(s: string)
    | Arr(items: seq<Value>)
    | Obj(fields: seq<(string, Value)>)

  /** JavaScript truthiness: `!v` is false. */
  predicate Truthy(v: Value) {
    match v
    case Undefined => false
    case Null => false
    case NaN => false
    case Bool(b) => b
    case Num(n) => n != 0
    case Str(s) => s != ""
    case Arr(_) => true
    case Obj(_) => true
  }

  predicate Nullish(v: Value) {
    v.Null? || v.Undefined?
  }

  /** `v || null` */
  function OrNull(v: Value): Value {
    if Truthy(v) then v else Null
  }

  /** An exception thrown inside a handler: `Some(message)` when it is an
      `Error` instance, `None` for any other thrown value. */
  datatype Thrown = Thrown(message: Option<string>)

  /** The outcome of a step that may throw (parsing a body, a store call). */
  datatype Attempt<+T> = Done(value: T) | Throws(thrown: Thrown)

  /** The value of property `key` among an object's own properties; a later
      duplicate wins, as with `JSON.parse`. */
  function Lookup(fields: seq<(string, Value)>, key: string): (v: Value)
    ensures v != Undefined ==> exists i :: 0 <= i < |fields| && fields[i] == (key, v)
    ensures (forall i :: 0 <= i < |fields| ==> fields[i].0 != key) ==> v == Undefined
  {
    if fields == [] then Undefined
    else if fields[|fields| - 1].0 == key then fields[|fields| - 1].1
    else Lookup(fields[..|fields| - 1], key)
  }

  /** `v[key]` for a value that is not null or undefined. Strings, numbers,
      booleans and arrays have none of the keys the handlers read. */
  function Get(v: Value, key: string): Value
    requires !Nullish(v)
  {
    if v.Obj? then Lookup(v.fields, key) else Undefined
  }

  /** The `TypeError` V8 throws on `v[key]` when `v` is null or undefined. */
  function ReadError(v: Value, key: string): Thrown
    requires Nullish(v)
  {
    var what := if v.Null? then "null" else "undefined";
    Thrown(Some("Cannot read properties of " + what + " (reading '" + key + "')"))
  }

  /** `Object.entries(v)` (the pairs behind `Object.keys` and `Object.values`)
      for a truthy value: an object's own properties, an array's or a string's
      indexed elements, nothing for a number or a boolean. */
  function Entries(v: Value): (r: seq<(string, Value)>)
    requires Truthy(v)
    ensures v.Obj? ==> r == v.fields
    ensures v.Arr? ==> |r| == |v.items|
    ensures v.Str? ==> |r| == |v.s|
  {
    match v
    case Obj(fields) => fields
    case Arr(items) => Indexed(items)
    case Str(s) => Indexed(Characters(s))
    case _ => []
  }

  /** The pairs (index as a decimal string, element). */
  function Indexed(items: seq<Value>): (r: seq<(string, Value)>)
    ensures |r| == |items|
    ensures forall i :: 0 <= i < |items| ==> r[i] == (NatToString(i), items[i])
  {
    if items == [] then [] else Indexed(items[..|items| - 1]) + [(NatToString(|items| - 1), items[|items| - 1])]
  }

  /** A string's characters as one-character strings. */
  function Characters(s: string): (r: seq<Value>)
    ensures |r| == |s|
    ensures forall i :: 0 <= i < |s| ==> r[i] == Str([s[i]])
  {
    if s == [] then [] else Characters(s[..|s| - 1]) + [Str([s[|s| - 1]])]
  }

  /** `String(n)` for an integer. */
  function IntToString(n: int): string {
    if n < 0 then "-" + NatToString(-n) else NatToString(n)
  }

  /** `String(v)`, the conversion `TextEncoder.encode` applies to a non-string. */
  function ToJsString(v: Value): string
    decreases v, 1
  {
    match v
    case Undefined => "undefined"
    case Null => "null"
    case NaN => "NaN"
    case Bool(b) => if b then "true" else "false"
    case Num(n) => IntToString(n)
    case Str(s) => s
    case Arr(items) => JoinElements(v, items)
    case Obj(_) => "[object Object]"
  }

  /** `Array.prototype.join(',')`: null and undefined elements become empty. */
  function JoinElements(ghost whole: Value, items: seq<Value>): string
    requires whole.Arr? && items <= whole.items
    decreases whole, 0, |items|
  {
    if items == [] then ""
    else
      var last := items[|items| - 1];
      assert last < whole;
      var text := if Nullish(last) then "" else ToJsString(last);
      if |items| == 1 then text else JoinElements(whole, items[..|items| - 1]) + "," + text
  }

  /** The value of a character as a digit in bases up to 36, either case. */
  function RadixDigit(ch: char): Option<nat> {
    if '0' <= ch <= '9' then Some(ch as int - '0' as int)
    else if 'a' <= ch <= 'z' then Some(ch as int - 'a' as int + 10)
    else if 'A' <= ch <= 'Z' then Some(ch as int - 'A' as int + 10)
    else None
  }

  predicate IsRadixDigit(ch: char, radix: nat) {
    RadixDigit(ch).Some? && RadixDigit(ch).value < radix
  }

  /** Length of the longest prefix of digits of the given base. */
  function DigitRun(s: string, radix: nat): (k: nat)
    ensures k <= |s|
    ensures forall i :: 0 <= i < k ==> IsRadixDigit(s[i], radix)
    ensures k < |s| ==> !IsRadixDigit(s[k], radix)
  {
    if s != [] && IsRadixDigit(s[0], radix) then
      var k := 1 + DigitRun(s[1..], radix);
      assert forall i :: 1 <= i < k ==> s[i] == s[1..][i - 1];
      k
    else 0
  }

  lemma ProductNat(a: nat, b: nat)
    ensures a * b >= 0
  {
  }

  function RadixValue(ds: string, radix: nat): nat
    requires forall i :: 0 <= i < |ds| ==> IsRadixDigit(ds[i], radix)
  {
    if ds == [] then 0
    else
      var last := ds[|ds| - 1];
      var init := ds[..|ds| - 1];
      assert IsRadixDigit(last, radix);
      assert forall i :: 0 <= i < |init| ==> init[i] == ds[i];
      var rest := RadixValue(init, radix);
      ProductNat(radix, rest);
      radix * rest + RadixDigit(last).value
  }

  /** `parseInt(s)` with no radix: leading white space skipped, an optional
      sign, a `0x`/`0X` prefix selecting base 16, then the longest run of
      digits; `NaN` when that run is empty. */
  function ParseInt(input: string): Value {
    var t := TrimStart(input);
    var negative := t != [] && t[0] == '-';
    var unsigned := if t != [] && (t[0] == '-' || t[0] == '+') then t[1..] else t;
    var hex := |unsigned| >= 2 && unsigned[0] == '0' && (unsigned[1] == 'x' || unsigned[1] == 'X');
    var radix: nat := if hex then 16 else 10;
    var body := if hex then unsigned[2..] else unsigned;
    var k := DigitRun(body, radix);
    if k == 0 then NaN
    else
      var magnitude: int := RadixValue(body[..k], radix);
      Num(if negative then -magnitude else magnitude)
  }

  lemma {:induction false} RadixValueDecimal(ds: string)
    requires forall i :: 0 <= i < |ds| ==> IsDigit(ds[i])
    ensures forall i :: 0 <= i < |ds| ==> IsRadixDigit(ds[i], 10)
    ensures RadixValue(ds, 10) == DigitsValue(ds)
  {
    if ds != [] {
      RadixValueDecimal(ds[..|ds| - 1]);
    }
  }

  /** `parseInt(String(n))` gives `n` back for every non-negative integer. */
  lemma ParseIntOfDecimal(n: nat)
    ensures ParseInt(NatToString(n)) == Num(n)
  {
    var s := NatToString(n);
    assert TrimStart(s) == s;
    RadixValueDecimal(s);
    assert DigitRun(s, 10) == |s|;
    assert s[..|s|] == s;
    DigitsOfNat(n);
  }
}
