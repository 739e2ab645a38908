/** The predefined environment: the `in` membership test and the `ip_range`
    CIDR test, in the one table both `PredefFunctionsSpec` and
    `PredefIdentSpec` hold. `ip_range` is a foreign library call; it is the
    `ipRange` oracle parameter of `Apply`. */
module Builtins {
  import opened JsValues

  /** `args.some((e) => e === value)`, scanning candidates left to right. */
  function SomeStrictlyEqual(candidates: seq<Value>, value: Value): (b: bool)
    ensures b <==> exists i :: 0 <= i < |candidates| && candidates[i] == value
    decreases |candidates|
  {
    if candidates == [] then false
    else candidates[0] == value || SomeStrictlyEqual(candidates[1..], value)
  }

  /** `in(value, ...candidates)`: the first argument is the value, the rest
      are the candidates. Called with no argument at all, `value` is
      `undefined` and there is no candidate. */
  function In(args: seq<Value>): (b: bool)
    ensures b <==> |args| > 0 && exists i :: 1 <= i < |args| && args[i] == args[0]
  {
    if args == [] then false
    else
      var b := SomeStrictlyEqual(args[1..], args[0]);
      assert b <==> exists i :: 1 <= i < |args| && args[i] == args[0] by {
        forall i | 1 <= i < |args| ensures args[1..][i - 1] == args[i] { }
      }
      b
  }

  /** `in(v)` with no candidates is false. */
  lemma InWithoutCandidates(v: Value)
    ensures !In([v])
  {
  }

  /** Strict comparison: a string never matches a number, whatever its digits. */
  lemma InIsStrict(s: string, n: int)
    ensures !In([VStr(s), VNum(n)])
    ensures !In([VNum(n), VStr(s)])
  {
  }

  /** The result depends only on the set of candidates: reordering or
      duplicating them changes nothing. */
  lemma InDependsOnCandidateSet(v: Value, c1: seq<Value>, c2: seq<Value>)
    requires forall x :: x in c1 <==> x in c2
    ensures In([v] + c1) == In([v] + c2)
  {
    var a1, a2 := [v] + c1, [v] + c2;
    if In(a1) {
      var i :| 1 <= i < |a1| && a1[i] == a1[0];
      assert c1[i - 1] in c2;
      var j :| 0 <= j < |c2| && c2[j] == c1[i - 1];
      assert a2[j + 1] == a2[0];
    }
    if In(a2) {
      var i :| 1 <= i < |a2| && a2[i] == a2[0];
      assert c2[i - 1] in c1;
      var j :| 0 <= j < |c1| && c1[j] == c2[i - 1];
      assert a1[j + 1] == a1[0];
    }
  }

  /** Invoking a callable value with arguments. */
  function Apply(f: Fn, args: seq<Value>, ipRange: seq<Value> -> Value): (r: Value)
    ensures f.InFn? ==> r == VBool(In(args))
    ensures f.Getter? ==> r == f.result
  {
    match f
    case InFn => VBool(In(args))
    case IpRangeFn => ipRange(args)
    case Getter(v) => v
  }

  /** The builtin table `{ ip_range, in }`. */
  const PredefFunctionsSpec: map<string, Value> :=
    map["ip_range" := VFun(IpRangeFn), "in" := VFun(InFn)]

  /** The identifier table is the same two entries. */
  const PredefIdentSpec: map<string, Value> := PredefFunctionsSpec

  /** A name is a builtin exactly when it is `in` or `ip_range`, and every
      builtin is a function. */
  function IsBuiltin(name: string): (b: bool)
    ensures b <==> name == "in" || name == "ip_range"
    ensures b ==> PredefFunctionsSpec[name].VFun?
  {
    name in PredefFunctionsSpec
  }
}
