/** A policy document (a workflow) compiled into syntax trees and then
    evaluated for a user and a request. */
module Workflows {
  import opened Wrappers
  import opened Errors
  import opened JsValues
  import opened Builtins
  import opened Ast
  import opened Interpreter
  import G = Grammar
  import Parsing

  // -----------------------------------------------------------------------
  // Documents

  /** `IParams` and `IRule` as read from the document. */
  datatype ParamJson = ParamJson(name: string, expression: string)
  datatype RuleJson = RuleJson(ruleName: string, expression: string)

  /** `IWorkflow` as read from the document. */
  datatype WorkflowJson = WorkflowJson(id: int, name: string, path: string, params: seq<ParamJson>, rules: seq<RuleJson>)

  /** A param or rule with the `Ast` the constructor adds. */
  datatype CompiledParam = CompiledParam(name: string, expression: string, ast: Node)
  datatype CompiledRule = CompiledRule(ruleName: string, expression: string, ast: Node)

  /** A `Workflow` after construction: the document's fields with every
      param and rule carrying its syntax tree. */
  datatype Workflow = Workflow(id: int, name: string, path: string, params: seq<CompiledParam>, rules: seq<CompiledRule>)

  // -----------------------------------------------------------------------
  // checkForPrimaryExpression

  const SupportedPrimaryExpressions: seq<string> := ["MemberExpression", "Variable", "Identifier"]

  /** The `Node` callback: anything but a member expression, variable or
      identifier is a CompilationError. */
  function PrimaryCallback(rec: VisitRecord): Option<Error> {
    if TypeOf(rec.node) in SupportedPrimaryExpressions then None
    else Some(CompilationError(NotPrimary(TypeOf(rec.node))))
  }

  function PrimaryCallbacks(): map<string, Callback> {
    map["Node" := PrimaryCallback]
  }

  function CheckForPrimaryExpression(ast: Node): Result<(), Error> {
    RunCallbacks(PrimaryCallbacks(), Visit(ast))
  }

  // -----------------------------------------------------------------------
  // checkForPredefFunctionsAndVars

  /** The `Identifier` callback. A root identifier has no parent, and
      reading the parent's type then throws a TypeError. */
  function IdentifierCallback(rec: VisitRecord): Option<Error> {
    if !rec.node.Identifier? then None
    else if rec.parent.None? then Some(TypeError(NullParent))
    else if rec.parent.value.CallExpression? && !IsBuiltin(rec.node.name) then
      Some(CompilationError(FunctionNotDefined(rec.node.name)))
    else None
  }

  /** The `Variable` callback: an empty list of declared names lets every
      variable pass. */
  function VariableCallback(vars: seq<string>): Callback {
    (rec: VisitRecord) =>
      if |vars| == 0 || !rec.node.Variable? then None
      else if rec.node.name !in vars then Some(CompilationError(VariableNotDeclared(rec.node.name)))
      else None
  }

  function RuleCallbacks(vars: seq<string>): map<string, Callback> {
    map["Identifier" := IdentifierCallback, "Variable" := VariableCallback(vars)]
  }

  /** The check always runs with the builtin function table. */
  function CheckForPredefFunctionsAndVars(ast: Node, vars: seq<string>): Result<(), Error> {
    RunCallbacks(RuleCallbacks(vars), Visit(ast))
  }

  // -----------------------------------------------------------------------
  // The constructor

  /** The declared variable names: `$` and the param's name, in order. */
  function DeclaredNames(params: seq<ParamJson>): (names: seq<string>)
    ensures |names| == |params|
    ensures forall i :: 0 <= i < |params| ==> names[i] == "$" + params[i].name
  {
    if params == [] then []
    else DeclaredNames(params[..|params| - 1]) + ["$" + params[|params| - 1].name]
  }
  lemma DeclaredNamesStep(params: seq<ParamJson>, i: nat)
    requires i < |params|
    ensures DeclaredNames(params[..i + 1]) == DeclaredNames(params[..i]) + ["$" + params[i].name]
  {
    assert params[..i + 1][..i] == params[..i];
  }


  function CompileParam(p: ParamJson): Result<CompiledParam, Error> {
    var ast :- G.Parse(p.expression);
    var _ :- CheckForPrimaryExpression(ast);
    Ok(CompiledParam(p.name, p.expression, ast))
  }

  function CompileRule(r: RuleJson, vars: seq<string>): Result<CompiledRule, Error> {
    var ast :- G.Parse(r.expression);
    var _ :- CheckForPredefFunctionsAndVars(ast, vars);
    Ok(CompiledRule(r.ruleName, r.expression, ast))
  }

  /** A loop applying `f` to each element in order, collecting the
      results; the first thrown error ends it. */
  function MapUntilError<A, B>(xs: seq<A>, f: A -> Result<B, Error>): (r: Result<seq<B>, Error>)
    ensures r.Ok? ==> |r.value| == |xs|
  {
    if xs == [] then Ok([])
    else
      var init :- MapUntilError(xs[..|xs| - 1], f);
      var last :- f(xs[|xs| - 1]);
      Ok(init + [last])
  }

  /** Once a prefix has thrown, the rest of the loop never runs. */
  lemma {:induction false} MapPrefixError<A, B>(xs: seq<A>, f: A -> Result<B, Error>, k: nat)
    requires k <= |xs| && MapUntilError(xs[..k], f).Err?
    ensures MapUntilError(xs, f) == MapUntilError(xs[..k], f)
    decreases |xs| - k
  {
    if k < |xs| {
      assert xs[..k + 1][..k] == xs[..k];
      MapPrefixError(xs, f, k + 1);
    } else {
      assert xs[..k] == xs;
    }
  }

  /** One more iteration of the loop. */
  lemma MapStep<A, B>(xs: seq<A>, f: A -> Result<B, Error>, i: nat, acc: seq<B>)
    requires i < |xs| && MapUntilError(xs[..i], f) == Ok(acc)
    ensures MapUntilError(xs[..i + 1], f) ==
      match f(xs[i])
      case Ok(y) => Ok(acc + [y])
      case Err(e) => Err(e)
  {
    assert xs[..i + 1][..i] == xs[..i];
  }

  /** The params loop: in order, stopping at the first failure. */
  function CompileParams(params: seq<ParamJson>): (r: Result<seq<CompiledParam>, Error>)
    ensures r.Ok? ==> |r.value| == |params|
  {
    MapUntilError(params, CompileParam)
  }

  function RuleCompiler(vars: seq<string>): RuleJson -> Result<CompiledRule, Error> {
    (r: RuleJson) => CompileRule(r, vars)
  }

  /** The rules loop, checked against the complete list of declared names. */
  function CompileRules(rules: seq<RuleJson>, vars: seq<string>): (r: Result<seq<CompiledRule>, Error>)
    ensures r.Ok? ==> |r.value| == |rules|
  {
    MapUntilError(rules, RuleCompiler(vars))
  }

  /** What constructing a `Workflow` from a document yields. */
  function CompileSpec(json: WorkflowJson): Result<Workflow, Error> {
    var params :- CompileParams(json.params);
    var rules :- CompileRules(json.rules, DeclaredNames(json.params));
    Ok(Workflow(json.id, json.name, json.path, params, rules))
  }

  /** The params loop of the constructor: parse each param, check it, and
      record `$Name` as declared. */
  method CompileParamList(parser: Parsing.Parser, params: seq<ParamJson>) returns (r: Result<seq<CompiledParam>, Error>, vars: seq<string>)
    modifies parser, parser.tokenizer
    ensures r == CompileParams(params)
    ensures r.Ok? ==> vars == DeclaredNames(params)
  {
    vars := [];
    var compiled: seq<CompiledParam> := [];
    for i := 0 to |params|
      invariant vars == DeclaredNames(params[..i])
      invariant CompileParams(params[..i]) == Ok(compiled)
    {
      var param := params[i];
      MapStep(params, CompileParam, i, compiled);
      DeclaredNamesStep(params, i);
      var ast := parser.Parse(param.expression);
      if ast.Err? {
        MapPrefixError(params, CompileParam, i + 1);
        return Err(ast.error), vars;
      }
      var checked := CheckForPrimaryExpression(ast.value);
      if checked.Err? {
        MapPrefixError(params, CompileParam, i + 1);
        return Err(checked.error), vars;
      }
      vars := vars + ["$" + param.name];
      compiled := compiled + [CompiledParam(param.name, param.expression, ast.value)];
    }
    assert params[..|params|] == params;
    return Ok(compiled), vars;
  }

  /** The rules loop of the constructor: parse each rule and check it
      against the declared names. */
  method CompileRuleList(parser: Parsing.Parser, rules: seq<RuleJson>, vars: seq<string>) returns (r: Result<seq<CompiledRule>, Error>)
    modifies parser, parser.tokenizer
    ensures r == CompileRules(rules, vars)
  {
    var compiled: seq<CompiledRule> := [];
    for i := 0 to |rules|
      invariant CompileRules(rules[..i], vars) == Ok(compiled)
    {
      var rule := rules[i];
      MapStep(rules, RuleCompiler(vars), i, compiled);
      var ast := parser.Parse(rule.expression);
      if ast.Err? {
        MapPrefixError(rules, RuleCompiler(vars), i + 1);
        return Err(ast.error);
      }
      var checked := CheckForPredefFunctionsAndVars(ast.value, vars);
      if checked.Err? {
        MapPrefixError(rules, RuleCompiler(vars), i + 1);
        return Err(checked.error);
      }
      compiled := compiled + [CompiledRule(rule.ruleName, rule.expression, ast.value)];
    }
    assert rules[..|rules|] == rules;
    return Ok(compiled);
  }

  /** The constructor: params first, then rules against the complete list
      of declared names; the first failure is thrown, and on success the
      document's fields are kept. The injected parser is reset by every
      `parse`, so a fresh one stands for it. */
  method Compile(json: WorkflowJson) returns (r: Result<Workflow, Error>)
    ensures r == CompileSpec(json)
  {
    var parser := new Parsing.Parser();
    var params, vars := CompileParamList(parser, json.params);
    if params.Err? {
      return Err(params.error);
    }
    var rules := CompileRuleList(parser, json.rules, vars);
    if rules.Err? {
      return Err(rules.error);
    }
    return Ok(Workflow(json.id, json.name, json.path, params.value, rules.value));
  }

  // -----------------------------------------------------------------------
  // executeRules

  /** The environment object before params are resolved: the builtin
      functions, `$user` and `$request`, spread into one flat object. */
  function BaseEnvironment(user: Value, request: Value): map<string, Value> {
    PredefFunctionsSpec["$user" := user]["$request" := request]
  }

  /** `resolveReqParams`: every param evaluated against `env` and stored
      under `$` and its name; a later param of the same name overwrites. */
  function ResolveSpec(params: seq<CompiledParam>, env: Value, ipRange: seq<Value> -> Value): (r: Result<map<string, Value>, Error>)
    requires env.VObj?
    ensures r.Ok? ==> forall k :: k in r.value ==> |k| > 0 && k[0] == '$'
  {
    if params == [] then Ok(map[])
    else
      var resolved :- ResolveSpec(params[..|params| - 1], env, ipRange);
      var last := params[|params| - 1];
      var evaluation :- Eval(last.ast, EnvOf(env), ipRange);
      Ok(resolved["$" + last.name := evaluation])
  }

  lemma {:induction false} ResolvePrefixError(params: seq<CompiledParam>, env: Value, ipRange: seq<Value> -> Value, k: nat)
    requires env.VObj? && k <= |params| && ResolveSpec(params[..k], env, ipRange).Err?
    ensures ResolveSpec(params, env, ipRange) == ResolveSpec(params[..k], env, ipRange)
    decreases |params| - k
  {
    if k < |params| {
      assert params[..k + 1][..k] == params[..k];
      ResolvePrefixError(params, env, ipRange, k + 1);
    } else {
      assert params[..k] == params;
    }
  }

  /** The loop of `resolveReqParams`, filling the dictionary in order. */
  method ResolveReqParams(params: seq<CompiledParam>, env: Value, ipRange: seq<Value> -> Value) returns (r: Result<map<string, Value>, Error>)
    requires env.VObj?
    ensures r == ResolveSpec(params, env, ipRange)
  {
    var resolved: map<string, Value> := map[];
    for i := 0 to |params|
      invariant ResolveSpec(params[..i], env, ipRange) == Ok(resolved)
    {
      assert params[..i + 1][..i] == params[..i];
      var evaluation := Eval(params[i].ast, EnvOf(env), ipRange);
      if evaluation.Err? {
        ResolvePrefixError(params, env, ipRange, i + 1);
        return Err(evaluation.error);
      }
      resolved := resolved["$" + params[i].name := evaluation.value];
    }
    assert params[..|params|] == params;
    return Ok(resolved);
  }

  /** `results.some((res) => res === false)`. */
  function SomeFalse(results: seq<Value>): bool {
    |results| > 0 && (results[0] == VBool(false) || SomeFalse(results[1..]))
  }

  function RuleAsts(rules: seq<CompiledRule>): (asts: seq<Node>)
    ensures |asts| == |rules|
    ensures forall i :: 0 <= i < |rules| ==> asts[i] == rules[i].ast
  {
    seq(|rules|, i requires 0 <= i < |rules| => rules[i].ast)
  }

  /** What `executeRules` resolves to: params against the base environment,
      then every rule against the base environment extended by the resolved
      params, then "no result is exactly false". */
  function Decision(wf: Workflow, user: Value, request: Value, ipRange: seq<Value> -> Value): Result<bool, Error> {
    var base := BaseEnvironment(user, request);
    var resolved :- ResolveSpec(wf.params, VObj(base), ipRange);
    var results :- EvalAll(RuleAsts(wf.rules), EnvOf(VObj(base + resolved)), ipRange);
    Ok(!SomeFalse(results))
  }

  /** `executeRules(user, request)`. The rules are independent, so their
      concurrent evaluation is the in-order map `EvalAll`. */
  method ExecuteRules(wf: Workflow, user: Value, request: Value, ipRange: seq<Value> -> Value) returns (r: Result<bool, Error>)
    ensures r == Decision(wf, user, request, ipRange)
  {
    var environment := BaseEnvironment(user, request);
    var resolved := ResolveReqParams(wf.params, VObj(environment), ipRange);
    if resolved.Err? {
      return Err(resolved.error);
    }
    environment := environment + resolved.value;
    var results := EvalAll(RuleAsts(wf.rules), EnvOf(VObj(environment)), ipRange);
    if results.Err? {
      return Err(results.error);
    }
    return Ok(!SomeFalse(results.value));
  }

  /** `some(res === false)` holds exactly when some result is exactly
      `false`; strings, numbers and `undefined` never count. */
  lemma {:induction false} SomeFalseExists(results: seq<Value>)
    ensures SomeFalse(results) <==> exists k :: 0 <= k < |results| && results[k] == VBool(false)
    decreases results
  {
    if results != [] {
      SomeFalseExists(results[1..]);
      if exists k :: 0 <= k < |results[1..]| && results[1..][k] == VBool(false) {
        var k :| 0 <= k < |results[1..]| && results[1..][k] == VBool(false);
        assert results[k + 1] == VBool(false);
      }
      if exists k :: 0 < k < |results| && results[k] == VBool(false) {
        var k :| 0 < k < |results| && results[k] == VBool(false);
        assert results[1..][k - 1] == VBool(false);
      }
    }
  }
}
