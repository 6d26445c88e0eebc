/**
 * The JavaScript values the client handles (option objects, request
 * parameters, header values) and the three language operations the client
 * relies on: truthiness (`if (v)`, `!v`), conversion to a string
 * (`String(v)`, which `+` with a string and template literals perform) and
 * property lookup (`o[name]`, `undefined` when absent).
 */
module JsValues {

  /**
   * A JavaScript value. Numbers are integers here; `Num(n)` stands for a
   * JavaScript number only when |n| <= 2^53 (see README, "Left out").
   */
  datatype JsValue =
    | Undefined
    | Null
    | Bool(b: bool)
    | Num(n: int)
    | Str(s: string)
    | Arr(elems: seq<JsValue>)
    | Obj(fields: map<string, JsValue>)

  /** `!!v`: undefined, null, false, 0 and "" are falsy, every array and object is truthy. */
  predicate Truthy(v: JsValue)
  {
    match v
    case Undefined => false
    case Null => false
    case Bool(b) => b
    case Num(n) => n != 0
    case Str(s) => s != ""
    case Arr(_) => true
    case Obj(_) => true
  }

  /**
   * Decimal rendering of an integer. It is what `String(n)` gives for an
   * integer below 1e21 in magnitude; from 1e21 on JavaScript switches to
   * exponent form (`"1e+21"`), which is not modelled.
   */
  function DecimalString(n: int): (r: string)
    ensures r != []
    decreases if n < 0 then 1 - n else n
  {
    if n < 0 then "-" + DecimalString(-n)
    else if n < 10 then [DigitChar(n)]
    else DecimalString(n / 10) + [DigitChar(n % 10)]
  }

  function DigitChar(d: int): char
    requires 0 <= d < 10
  {
    "0123456789"[d]
  }

  /** `String(v)`: arrays join their elements with "," (null and undefined elements become ""). */
  function ToStr(v: JsValue): string
    decreases v, 1
  {
    match v
    case Undefined => "undefined"
    case Null => "null"
    case Bool(b) => if b then "true" else "false"
    case Num(n) => DecimalString(n)
    case Str(s) => s
    case Arr(elems) => ElementsText(v, 0)
    case Obj(_) => "[object Object]"
  }

  /** The elements of array `arr` from index `i` on, each followed by "," except the last. */
  function ElementsText(arr: JsValue, i: nat): string
    requires arr.Arr? && i <= |arr.elems|
    decreases arr, 0, |arr.elems| - i
  {
    if i == |arr.elems| then ""
    else
      var e := arr.elems[i];
      var text := if e.Undefined? || e.Null? then "" else ToStr(e);
      if i + 1 == |arr.elems| then text else text + "," + ElementsText(arr, i + 1)
  }

  /** `o[name]` on the properties of an object; undefined when the property is absent. */
  function Lookup(fields: map<string, JsValue>, name: string): JsValue
  {
    if name in fields then fields[name] else Undefined
  }

  /** `o[name]` on any value: the property of a plain object, and undefined for anything else. */
  function Prop(o: JsValue, name: string): (r: JsValue)
    ensures r != Undefined ==> o.Obj? && name in o.fields && r == o.fields[name]
  {
    if o.Obj? then Lookup(o.fields, name) else Undefined
  }

  /** The own enumerable entries `Object.assign` and `Object.keys` see on a plain object. */
  function PlainEntries(v: JsValue): map<string, JsValue>
  {
    if v.Obj? then v.fields else map[]
  }

  /** `s.startsWith(prefix)`, also the meaning of a regular expression anchored with `^`. */
  predicate StartsWith(s: string, prefix: string)
  {
    |prefix| <= |s| && s[..|prefix|] == prefix
  }

  /** `s.toUpperCase()` on ASCII letters; other characters are left as they are. */
  function Upper(s: string): (r: string)
    ensures |r| == |s|
    ensures forall i :: 0 <= i < |s| ==> r[i] == UpperChar(s[i])
  {
    seq(|s|, i requires 0 <= i < |s| => UpperChar(s[i]))
  }

  function UpperChar(c: char): char
  {
    if 'a' <= c <= 'z' then (c as int - 32) as char else c
  }
}

/**
 * A plain JavaScript object that the client changes in place
 * (`o[k] = v`, `delete o[k]`). Its own entries are `entries`.
 */
module JsObjects {
  import opened JsValues

  class Dict {
    var entries: map<string, JsValue>

    constructor (init: map<string, JsValue>)
      ensures entries == init
    {
      entries := init;
    }
  }

  /** Deleting a key forgets any value just written to it. */
  lemma UpdateThenRemove(m: map<string, JsValue>, k: string, v: JsValue)
    ensures m[k := v] - {k} == m - {k}
  {
    var l, r := m[k := v] - {k}, m - {k};
    assert l.Keys == r.Keys;
    assert forall n :: n in l ==> l[n] == r[n];
  }

  /** Deleting a key twice is deleting it once. */
  lemma RemoveTwice(m: map<string, JsValue>, k: string)
    ensures (m - {k}) - {k} == m - {k}
  {
    var l, r := (m - {k}) - {k}, m - {k};
    assert l.Keys == r.Keys;
    assert forall n :: n in l ==> l[n] == r[n];
  }
}
