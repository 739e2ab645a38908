/** The JavaScript values an expression can evaluate to. Only the kinds the
    engine produces or consumes are kept: strings, numbers (integers: the
    grammar has only digit literals), booleans, objects (the user and request
    capabilities, the builtin tables), the builtin functions, and `undefined`. */
module JsValues {
  import opened Wrappers
  import opened Errors

  /** A callable value: one of the two builtins, or a zero-argument accessor
      such as `getRole` that yields a fixed value. */
  datatype Fn = InFn | IpRangeFn | Getter(result: Value)

  datatype Value =
    | VUndefined
    | VBool(b: bool)
    | VNum(n: int)
    | VStr(s: string)
    | VFun(f: Fn)
    | VObj(fields: map<string, Value>)

  /** JavaScript truthiness: `false`, `0`, `""` and `undefined` are falsy. */
  predicate Truthy(v: Value) {
    match v
    case VUndefined => false
    case VBool(b) => b
    case VNum(n) => n != 0
    case VStr(s) => s != ""
    case VFun(_) => true
    case VObj(_) => true
  }

  /** Decimal text of a natural number, as `String(n)` writes it. */
  function NatToString(n: nat): (s: string)
    ensures |s| > 0
    ensures forall i :: 0 <= i < |s| ==> '0' <= s[i] <= '9'
    decreases n
  {
    if n < 10 then [DigitChar(n)] else NatToString(n / 10) + [DigitChar(n % 10)]
  }

  function DigitChar(d: nat): char
    requires d < 10
  {
    ['0', '1', '2', '3', '4', '5', '6', '7', '8', '9'][d]
  }

  /** `Number(s)` for a run of decimal digits. */
  function DigitsValue(s: string): nat
    decreases |s|
  {
    if s == [] then 0
    else DigitsValue(s[..|s| - 1]) * 10 + DigitValue(s[|s| - 1])
  }

  function DigitValue(c: char): nat {
    if '0' <= c <= '9' then (c as int) - ('0' as int) else 0
  }

  /** `Number` reads back the text `String` writes. */
  lemma {:induction false} DigitsValueOfNatToString(n: nat)
    ensures DigitsValue(NatToString(n)) == n
    decreases n
  {
    if n >= 10 {
      var prefix := NatToString(n / 10);
      var s := prefix + [DigitChar(n % 10)];
      assert s[..|s| - 1] == prefix;
      DigitsValueOfNatToString(n / 10);
    }
  }

  /** The property name `obj[key]` looks up: JavaScript converts the key to
      a string. A function key (whose string is its source text) is None. */
  function PropertyKey(key: Value): Option<string> {
    match key
    case VStr(s) => Some(s)
    case VNum(n) => Some(if n < 0 then "-" + NatToString(-n) else NatToString(n))
    case VBool(b) => Some(if b then "true" else "false")
    case VUndefined => Some("undefined")
    case VObj(_) => Some("[object Object]")
    case VFun(_) => None
  }

  /** `obj[key]`: a field of an object, `undefined` for a missing field, and
      a `TypeError` when `obj` itself is `undefined`. */
  function Index(obj: Value, key: Value): (r: Result<Value, Error>)
    ensures r.Err? <==> obj.VUndefined?
    ensures r.Err? ==> r.error == TypeError(UndefinedObject)
    ensures obj.VObj? && key.VStr? ==>
      r == Ok(if key.s in obj.fields then obj.fields[key.s] else VUndefined)
  {
    match obj
    case VUndefined => Err(TypeError(UndefinedObject))
    case VObj(m) =>
      var k := PropertyKey(key);
      Ok(if k.Some? && k.value in m then m[k.value] else VUndefined)
    case _ => Ok(VUndefined)
  }
}
