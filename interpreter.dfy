/** The interpreter: evaluation of a node in an environment (the closures
    each node carries, gathered into one function) and the generic pre-order
    visitor used for the compile-time checks. */
module Interpreter {
  import opened Wrappers
  import opened Errors
  import opened JsValues
  import opened Builtins
  import opened Ast

  // -----------------------------------------------------------------------
  // Evaluation

  /** `ExecutionEnvironment`: the object a node reads its variables from and
      the object it reads predefined identifiers from. Both are values
      because JavaScript lets any object stand here; the intended shape has
      two objects. */
  datatype Env = Env(vars: Value, predefIdent: Value)

  /** `env.vars` and `env.predefIdent` read off an arbitrary environment object. */
  function EnvOf(obj: Value): (env: Env)
    requires obj.VObj?
    ensures "vars" !in obj.fields ==> env.vars == VUndefined
    ensures "predefIdent" !in obj.fields ==> env.predefIdent == VUndefined
  {
    Env(Index(obj, VStr("vars")).value, Index(obj, VStr("predefIdent")).value)
  }

  /** A node's `evaluate(env)`. `ipRange` stands for the foreign `ip_range`
      library function. */
  function Eval(n: Node, env: Env, ipRange: seq<Value> -> Value): Result<Value, Error>
    decreases n
  {
    match n
    case NumericLiteral(v) => Ok(VNum(v))
    case StringLiteral(v) => Ok(VStr(v))
    case Identifier(name) =>
      var value :- Index(env.predefIdent, VStr(name));
      Ok(if value == VUndefined then VStr(name) else value)
    case Variable(name) =>
      var value :- Index(env.vars, VStr(name));
      if value == VUndefined then Err(ExecutionError(name)) else Ok(value)
    case MemberExpression(o, p) =>
      var objValue :- Eval(o, env, ipRange);
      var propValue :- Eval(p, env, ipRange);
      var toReturn :- Index(objValue, propValue);
      Ok(if toReturn.VFun? then Apply(toReturn.f, [], ipRange) else toReturn)
    case CallExpression(callee, args) =>
      var resolvedArgs :- EvalAll(args, env, ipRange);
      var resolvedCallee :- Eval(callee, env, ipRange);
      if resolvedCallee.VFun? then Ok(Apply(resolvedCallee.f, resolvedArgs, ipRange))
      else Err(DynamicEval)
    case EqualityOperation(op, l, r) =>
      var lv :- Eval(l, env, ipRange);
      var rv :- Eval(r, env, ipRange);
      if op == "==" then Ok(VBool(lv == rv))
      else if op == "!=" then Ok(VBool(lv != rv))
      else Err(DynamicEval)
  }

  /** `args.map((a) => a.evaluate(env))`: in order, the first exception wins. */
  function EvalAll(args: seq<Node>, env: Env, ipRange: seq<Value> -> Value): (r: Result<seq<Value>, Error>)
    ensures r.Ok? ==> |r.value| == |args|
    decreases args
  {
    if args == [] then Ok([])
    else
      var first :- Eval(args[0], env, ipRange);
      var rest :- EvalAll(args[1..], env, ipRange);
      Ok([first] + rest)
  }

  /** `Interpreter.evaluate(node, env)`: the node's own `evaluate(env)`. */
  function Evaluate(n: Node, env: Env, ipRange: seq<Value> -> Value): (r: Result<Value, Error>)
    ensures n.NumericLiteral? ==> r == Ok(VNum(n.number))
    ensures n.StringLiteral? ==> r == Ok(VStr(n.value))
  {
    Eval(n, env, ipRange)
  }

  // -----------------------------------------------------------------------
  // The visitor

  /** One call `_visit(node, parent, key, index)`: `parent` is None for the
      root, `key` is the field holding the node, `index` its position when
      that field is an array. */
  datatype VisitRecord = VisitRecord(node: Node, parent: Option<Node>, key: Option<string>, index: Option<nat>)

  /** The calls `visit` makes, in order: the node itself, then each
      node-valued field in declaration order, array elements by index. */
  function Visits(n: Node, parent: Option<Node>, key: Option<string>, index: Option<nat>): seq<VisitRecord>
    decreases n, 1
  {
    [VisitRecord(n, parent, key, index)] + ChildVisits(n)
  }

  function ChildVisits(n: Node): seq<VisitRecord>
    decreases n, 0
  {
    match n
    case MemberExpression(o, p) =>
      Visits(o, Some(n), Some("object"), None) + Visits(p, Some(n), Some("property"), None)
    case CallExpression(c, args) =>
      Visits(c, Some(n), Some("callee"), None) + VisitsAll(args, n, "arguments", 0)
    case EqualityOperation(_, l, r) =>
      Visits(l, Some(n), Some("arguments"), Some(0)) + Visits(r, Some(n), Some("arguments"), Some(1))
    case _ => []
  }

  /** The elements `args[0..]` of array field `key` of `parent`, the first
      of them at index `from`. */
  function VisitsAll(args: seq<Node>, parent: Node, key: string, from: nat): seq<VisitRecord>
    decreases args
  {
    if args == [] then []
    else Visits(args[0], Some(parent), Some(key), Some(from)) + VisitsAll(args[1..], parent, key, from + 1)
  }

  /** `visit(ast, ...)`: the root is visited with parent null. */
  function Visit(ast: Node): seq<VisitRecord> {
    Visits(ast, None, None, None)
  }

  /** The child of `parent` that `_visit` reaches through `key` and `index`. */
  function ChildAt(parent: Node, key: string, index: Option<nat>): Option<Node> {
    match parent
    case MemberExpression(o, p) =>
      if key == "object" && index.None? then Some(o)
      else if key == "property" && index.None? then Some(p)
      else None
    case CallExpression(c, args) =>
      if key == "callee" && index.None? then Some(c)
      else if key == "arguments" && index.Some? && index.value < |args| then Some(args[index.value])
      else None
    case EqualityOperation(_, l, r) =>
      if key == "arguments" && index == Some(0) then Some(l)
      else if key == "arguments" && index == Some(1) then Some(r)
      else None
    case _ => None
  }

  // -----------------------------------------------------------------------
  // Callbacks

  /** A callback, reduced to what the compile-time checks do with it:
      throw an error or return. */
  type Callback = VisitRecord -> Option<Error>

  /** The callbacks fired for one visited node, in order: `Node` first when
      the map has it, then the one keyed by the node's type when the map has
      that. */
  function Dispatch(keys: set<string>, rec: VisitRecord): (fired: seq<string>)
    ensures "Node" in keys ==> |fired| > 0 && fired[0] == "Node"
    ensures TypeOf(rec.node) in fired <==> TypeOf(rec.node) in keys
    ensures forall i :: 0 <= i < |fired| ==> fired[i] in keys
    ensures |fired| <= 2
  {
    (if "Node" in keys then ["Node"] else [])
    + (if TypeOf(rec.node) in keys then [TypeOf(rec.node)] else [])
  }

  /** Runs the callbacks over the visited nodes in order; the first thrown
      error ends the walk. */
  function RunCallbacks(callbacks: map<string, Callback>, visits: seq<VisitRecord>): (r: Result<(), Error>)
    decreases |visits|
  {
    if visits == [] then Ok(())
    else
      var _ :- RunOn(callbacks, Dispatch(callbacks.Keys, visits[0]), visits[0]);
      RunCallbacks(callbacks, visits[1..])
  }

  function RunOn(callbacks: map<string, Callback>, names: seq<string>, rec: VisitRecord): Result<(), Error>
    requires forall i :: 0 <= i < |names| ==> names[i] in callbacks
    decreases |names|
  {
    if names == [] then Ok(())
    else
      match callbacks[names[0]](rec)
      case Some(e) => Err(e)
      case None => RunOn(callbacks, names[1..], rec)
  }
}
