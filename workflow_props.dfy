/** What compiling and executing a workflow guarantee. */
module WorkflowProperties {
  import opened Wrappers
  import opened Errors
  import opened JsValues
  import opened Builtins
  import opened Ast
  import opened Interpreter
  import opened InterpreterProperties
  import opened Workflows
  import G = Grammar

  // -----------------------------------------------------------------------
  // The primary-expression check

  /** Every node of the tree is a member expression, a variable or an
      identifier. */
  predicate OnlyNameNodes(n: Node)
    decreases n
  {
    match n
    case MemberExpression(o, p) => OnlyNameNodes(o) && OnlyNameNodes(p)
    case Variable(_) => true
    case Identifier(_) => true
    case _ => false
  }

  lemma PrimaryRecordOk(rec: VisitRecord)
    ensures RecordOk(PrimaryCallbacks(), rec) <==>
      rec.node.MemberExpression? || rec.node.Variable? || rec.node.Identifier?
  {
    var cbs := PrimaryCallbacks();
    NodeIsNoType(rec.node);
    assert Dispatch(cbs.Keys, rec) == ["Node"];
    assert cbs["Node"] == PrimaryCallback;
    assert RunOn(cbs, ["Node"], rec).Ok? <==> PrimaryCallback(rec).None? by {
      assert ["Node"][1..] == [];
    }
    match rec.node
    case MemberExpression(_, _) => assert TypeOf(rec.node) == SupportedPrimaryExpressions[0];
    case Variable(_) => assert TypeOf(rec.node) == SupportedPrimaryExpressions[1];
    case Identifier(_) => assert TypeOf(rec.node) == SupportedPrimaryExpressions[2];
    case _ =>
  }

  lemma {:induction false} PrimaryVisits(n: Node, parent: Option<Node>, key: Option<string>, index: Option<nat>)
    ensures AllOk(PrimaryCallbacks(), Visits(n, parent, key, index)) <==> OnlyNameNodes(n)
    decreases n
  {
    var head := VisitRecord(n, parent, key, index);
    AllOkAppend(PrimaryCallbacks(), [head], ChildVisits(n));
    PrimaryRecordOk(head);
    assert AllOk(PrimaryCallbacks(), [head]) <==> RecordOk(PrimaryCallbacks(), head) by {
      assert [head][0] == head;
    }
    match n
    case MemberExpression(o, p) =>
      PrimaryVisits(o, Some(n), Some("object"), None);
      PrimaryVisits(p, Some(n), Some("property"), None);
      AllOkAppend(PrimaryCallbacks(), Visits(o, Some(n), Some("object"), None), Visits(p, Some(n), Some("property"), None));
    case _ =>
  }

  /** A param passes exactly when every node is a member expression,
      variable or identifier; otherwise a CompilationError names the type
      of a node that is not. */
  lemma PrimaryCheck(ast: Node)
    ensures CheckForPrimaryExpression(ast).Ok? <==> OnlyNameNodes(ast)
    ensures CheckForPrimaryExpression(ast).Err? ==>
      exists i :: 0 <= i < |Visit(ast)| && !OnlyNameNodes(Visit(ast)[i].node)
        && CheckForPrimaryExpression(ast).error == CompilationError(NotPrimary(TypeOf(Visit(ast)[i].node)))
  {
    PrimaryCheckAccepts(ast);
    PrimaryCheckError(ast);
  }

  lemma PrimaryCheckAccepts(ast: Node)
    ensures CheckForPrimaryExpression(ast).Ok? <==> OnlyNameNodes(ast)
  {
    RunCallbacksOk(PrimaryCallbacks(), Visit(ast));
    PrimaryVisits(ast, None, None, None);
  }

  lemma PrimaryCheckError(ast: Node)
    ensures CheckForPrimaryExpression(ast).Err? ==>
      exists i :: 0 <= i < |Visit(ast)| && !OnlyNameNodes(Visit(ast)[i].node)
        && CheckForPrimaryExpression(ast).error == CompilationError(NotPrimary(TypeOf(Visit(ast)[i].node)))
  {
    if CheckForPrimaryExpression(ast).Err? {
      RunCallbacksOk(PrimaryCallbacks(), Visit(ast));
      var v := Visit(ast);
      var i :| 0 <= i < |v| && RunOn(PrimaryCallbacks(), Dispatch(PrimaryCallbacks().Keys, v[i]), v[i]) == Err(CheckForPrimaryExpression(ast).error);
      PrimaryCallbackError(v[i]);
    }
  }

  /** The error the primary-expression callback throws on one visited node. */
  lemma PrimaryCallbackError(rec: VisitRecord)
    ensures var cbs := PrimaryCallbacks();
      var r := RunOn(cbs, Dispatch(cbs.Keys, rec), rec);
      r.Err? ==> !OnlyNameNodes(rec.node) && r.error == CompilationError(NotPrimary(TypeOf(rec.node)))
  {
    NodeIsNoType(rec.node);
    assert Dispatch(PrimaryCallbacks().Keys, rec) == ["Node"];
    assert ["Node"][1..] == [];
  }

  // -----------------------------------------------------------------------
  // The builtin and variable check

  /** Every identifier that is the callee or a direct argument of a call
      names a builtin function. */
  predicate CallIdentifiersBuiltin(n: Node)
    decreases n
  {
    match n
    case MemberExpression(o, p) => CallIdentifiersBuiltin(o) && CallIdentifiersBuiltin(p)
    case CallExpression(c, args) =>
      (c.Identifier? ==> IsBuiltin(c.name)) && CallIdentifiersBuiltin(c)
      && forall i :: 0 <= i < |args| ==> (args[i].Identifier? ==> IsBuiltin(args[i].name)) && CallIdentifiersBuiltin(args[i])
    case EqualityOperation(_, l, r) => CallIdentifiersBuiltin(l) && CallIdentifiersBuiltin(r)
    case _ => true
  }

  /** Every Variable of the tree has a declared name. */
  predicate VarsDeclared(n: Node, vars: seq<string>)
    decreases n
  {
    match n
    case Variable(name) => name in vars
    case MemberExpression(o, p) => VarsDeclared(o, vars) && VarsDeclared(p, vars)
    case CallExpression(c, args) => VarsDeclared(c, vars) && forall i :: 0 <= i < |args| ==> VarsDeclared(args[i], vars)
    case EqualityOperation(_, l, r) => VarsDeclared(l, vars) && VarsDeclared(r, vars)
    case _ => true
  }

  /** What the two callbacks ask of one node given its parent. */
  predicate NodeOk(n: Node, parent: Option<Node>, vars: seq<string>) {
    (n.Identifier? ==> parent.Some? && (parent.value.CallExpression? ==> IsBuiltin(n.name)))
    && (n.Variable? ==> |vars| == 0 || n.name in vars)
  }

  lemma RuleRecordOk(vars: seq<string>, rec: VisitRecord)
    ensures RecordOk(RuleCallbacks(vars), rec) <==> NodeOk(rec.node, rec.parent, vars)
  {
    var keys := RuleCallbacks(vars).Keys;
    assert keys == {"Identifier", "Variable"};
    NodeIsNoType(rec.node);
    var cbs := RuleCallbacks(vars);
    match rec.node
    case Identifier(_) =>
      assert Dispatch(keys, rec) == ["Identifier"];
      assert cbs["Identifier"] == IdentifierCallback;
      assert ["Identifier"][1..] == [];
    case Variable(_) =>
      assert Dispatch(keys, rec) == ["Variable"];
      assert ["Variable"][1..] == [];
    case NumericLiteral(_) => assert TypeOf(rec.node) !in keys; assert Dispatch(keys, rec) == [];
    case StringLiteral(_) => assert TypeOf(rec.node) !in keys; assert Dispatch(keys, rec) == [];
    case MemberExpression(_, _) => assert TypeOf(rec.node) !in keys; assert Dispatch(keys, rec) == [];
    case CallExpression(_, _) => assert TypeOf(rec.node) !in keys; assert Dispatch(keys, rec) == [];
    case EqualityOperation(_, _, _) => assert TypeOf(rec.node) !in keys; assert Dispatch(keys, rec) == [];
  }

  /** The condition the callbacks check on a whole subtree whose root has
      parent `parent`. */
  predicate SubtreeOk(n: Node, parent: Option<Node>, vars: seq<string>) {
    NodeOk(n, parent, vars) && CallIdentifiersBuiltin(n) && (|vars| == 0 || VarsDeclared(n, vars))
  }

  lemma SubtreeOkMember(n: Node, parent: Option<Node>, vars: seq<string>)
    requires n.MemberExpression?
    ensures SubtreeOk(n, parent, vars) <==>
      NodeOk(n, parent, vars) && SubtreeOk(n.obj, Some(n), vars) && SubtreeOk(n.property, Some(n), vars)
  {
    if |vars| != 0 {
      assert VarsDeclared(n, vars) <==> VarsDeclared(n.obj, vars) && VarsDeclared(n.property, vars);
    }
  }

  lemma SubtreeOkCall(n: Node, parent: Option<Node>, vars: seq<string>)
    requires n.CallExpression?
    ensures SubtreeOk(n, parent, vars) <==>
      NodeOk(n, parent, vars) && SubtreeOk(n.callee, Some(n), vars)
      && forall i :: 0 <= i < |n.arguments| ==> SubtreeOk(n.arguments[i], Some(n), vars)
  {
    if |vars| != 0 {
      assert VarsDeclared(n, vars) <==> VarsDeclared(n.callee, vars) && forall i :: 0 <= i < |n.arguments| ==> VarsDeclared(n.arguments[i], vars);
    }
  }

  lemma SubtreeOkEquality(n: Node, parent: Option<Node>, vars: seq<string>)
    requires n.EqualityOperation?
    ensures SubtreeOk(n, parent, vars) <==>
      NodeOk(n, parent, vars) && SubtreeOk(n.left, Some(n), vars) && SubtreeOk(n.right, Some(n), vars)
  {
    if |vars| != 0 {
      assert VarsDeclared(n, vars) <==> VarsDeclared(n.left, vars) && VarsDeclared(n.right, vars);
    }
  }

  lemma {:induction false} RuleVisits(n: Node, parent: Option<Node>, key: Option<string>, index: Option<nat>, vars: seq<string>)
    ensures AllOk(RuleCallbacks(vars), Visits(n, parent, key, index)) <==> SubtreeOk(n, parent, vars)
    decreases n, 1
  {
    var cbs := RuleCallbacks(vars);
    var head := VisitRecord(n, parent, key, index);
    AllOkAppend(cbs, [head], ChildVisits(n));
    RuleRecordOk(vars, head);
    assert AllOk(cbs, [head]) <==> RecordOk(cbs, head) by {
      assert [head][0] == head;
    }
    match n
    case MemberExpression(o, p) =>
      RuleVisits(o, Some(n), Some("object"), None, vars);
      RuleVisits(p, Some(n), Some("property"), None, vars);
      AllOkAppend(cbs, Visits(o, Some(n), Some("object"), None), Visits(p, Some(n), Some("property"), None));
      SubtreeOkMember(n, parent, vars);
    case CallExpression(c, args) =>
      RuleVisits(c, Some(n), Some("callee"), None, vars);
      RuleVisitsAll(args, n, 0, vars);
      AllOkAppend(cbs, Visits(c, Some(n), Some("callee"), None), VisitsAll(args, n, "arguments", 0));
      SubtreeOkCall(n, parent, vars);
    case EqualityOperation(_, l, r) =>
      RuleVisits(l, Some(n), Some("arguments"), Some(0), vars);
      RuleVisits(r, Some(n), Some("arguments"), Some(1), vars);
      AllOkAppend(cbs, Visits(l, Some(n), Some("arguments"), Some(0)), Visits(r, Some(n), Some("arguments"), Some(1)));
      SubtreeOkEquality(n, parent, vars);
    case _ =>
      assert ChildVisits(n) == [];
  }

  lemma {:induction false} RuleVisitsAll(args: seq<Node>, parent: Node, from: nat, vars: seq<string>)
    requires parent.CallExpression?
    ensures AllOk(RuleCallbacks(vars), VisitsAll(args, parent, "arguments", from)) <==>
      forall i :: 0 <= i < |args| ==> SubtreeOk(args[i], Some(parent), vars)
    decreases args, 0
  {
    if args != [] {
      var cbs := RuleCallbacks(vars);
      RuleVisits(args[0], Some(parent), Some("arguments"), Some(from), vars);
      RuleVisitsAll(args[1..], parent, from + 1, vars);
      AllOkAppend(cbs, Visits(args[0], Some(parent), Some("arguments"), Some(from)), VisitsAll(args[1..], parent, "arguments", from + 1));
      forall i | 0 < i < |args| ensures args[i] == args[1..][i - 1] { }
    }
  }

  /** A rule passes exactly when its root is not a bare identifier, every
      identifier called or passed directly to a call is a builtin, and,
      unless no names are declared, every variable is declared. */
  lemma RuleCheck(ast: Node, vars: seq<string>)
    ensures CheckForPredefFunctionsAndVars(ast, vars).Ok? <==>
      !ast.Identifier? && CallIdentifiersBuiltin(ast) && (|vars| == 0 || VarsDeclared(ast, vars))
    ensures CheckForPredefFunctionsAndVars(ast, vars).Err? ==>
      var e := CheckForPredefFunctionsAndVars(ast, vars).error;
      e == TypeError(NullParent)
      || (e.CompilationError? && (e.compile.FunctionNotDefined? || e.compile.VariableNotDeclared?))
  {
    RuleCheckAccepts(ast, vars);
    RuleCheckErrors(ast, vars);
  }

  lemma RuleCheckAccepts(ast: Node, vars: seq<string>)
    ensures CheckForPredefFunctionsAndVars(ast, vars).Ok? <==>
      !ast.Identifier? && CallIdentifiersBuiltin(ast) && (|vars| == 0 || VarsDeclared(ast, vars))
  {
    RunCallbacksOk(RuleCallbacks(vars), Visit(ast));
    RuleVisits(ast, None, None, None, vars);
  }

  lemma RuleCheckErrors(ast: Node, vars: seq<string>)
    ensures CheckForPredefFunctionsAndVars(ast, vars).Err? ==>
      var e := CheckForPredefFunctionsAndVars(ast, vars).error;
      e == TypeError(NullParent)
      || (e.CompilationError? && (e.compile.FunctionNotDefined? || e.compile.VariableNotDeclared?))
  {
    if CheckForPredefFunctionsAndVars(ast, vars).Err? {
      RunCallbacksOk(RuleCallbacks(vars), Visit(ast));
      var v := Visit(ast);
      var cbs := RuleCallbacks(vars);
      var i :| 0 <= i < |v| && RunOn(cbs, Dispatch(cbs.Keys, v[i]), v[i]) == Err(CheckForPredefFunctionsAndVars(ast, vars).error);
      RuleCallbackErrors(vars, v[i]);
    }
  }

  /** The errors the two callbacks can throw on one visited node. */
  lemma RuleCallbackErrors(vars: seq<string>, rec: VisitRecord)
    ensures var cbs := RuleCallbacks(vars);
      var r := RunOn(cbs, Dispatch(cbs.Keys, rec), rec);
      r.Err? ==>
        (r.error == TypeError(NullParent)
         || (r.error.CompilationError? && (r.error.compile.FunctionNotDefined? || r.error.compile.VariableNotDeclared?)))
  {
    var cbs := RuleCallbacks(vars);
    var names := Dispatch(cbs.Keys, rec);
    RunOnOk(cbs, names, rec);
    if RunOn(cbs, names, rec).Err? {
      var i :| 0 <= i < |names| && cbs[names[i]](rec) == Some(RunOn(cbs, names, rec).error);
      assert names[i] == "Identifier" || names[i] == "Variable";
    }
  }

  /** A bare identifier as a whole rule is rejected with a TypeError, the
      null parent being dereferenced. */
  lemma RootIdentifierRejected(name: string, vars: seq<string>)
    ensures CheckForPredefFunctionsAndVars(Identifier(name), vars) == Err(TypeError(NullParent))
  {
    LeavesHaveNoChildren(Identifier(name));
  }

  /** Declared names carry a `$` while the grammar's Variable node carries
      the name after it, so the tree `$user.p` is meant to be is rejected
      against a param named `user`. */
  lemma BareVariableNameRejected(params: seq<ParamJson>, name: string, p: string)
    requires params != [] && (name == [] || name[0] != '$')
    ensures CheckForPredefFunctionsAndVars(MemberExpression(Variable(name), Identifier(p)), DeclaredNames(params)).Err?
  {
    var vars := DeclaredNames(params);
    RuleCheck(MemberExpression(Variable(name), Identifier(p)), vars);
    forall i | 0 <= i < |vars| ensures vars[i] != name {
      assert vars[i][0] == '$';
    }
  }

  /** Trees the grammar produces have no variables, so the declared names
      never matter for a parsed rule. */
  lemma {:induction false} NoVariablesAllDeclared(n: Node, vars: seq<string>)
    requires NoVariables(n)
    ensures VarsDeclared(n, vars)
    decreases n
  {
    match n
    case MemberExpression(o, p) =>
      NoVariablesAllDeclared(o, vars);
      NoVariablesAllDeclared(p, vars);
    case CallExpression(c, args) =>
      NoVariablesAllDeclared(c, vars);
      forall i | 0 <= i < |args| ensures VarsDeclared(args[i], vars) {
        NoVariablesAllDeclared(args[i], vars);
      }
    case EqualityOperation(_, l, r) =>
      NoVariablesAllDeclared(l, vars);
      NoVariablesAllDeclared(r, vars);
    case _ =>
  }

  lemma ParsedRuleIgnoresDeclaredNames(expression: string, vars1: seq<string>, vars2: seq<string>)
    requires G.Parse(expression).Ok?
    ensures CheckForPredefFunctionsAndVars(G.Parse(expression).value, vars1).Ok? <==>
            CheckForPredefFunctionsAndVars(G.Parse(expression).value, vars2).Ok?
  {
    var ast := G.Parse(expression).value;
    NoVariablesAllDeclared(ast, vars1);
    NoVariablesAllDeclared(ast, vars2);
    RuleCheck(ast, vars1);
    RuleCheck(ast, vars2);
  }

  // -----------------------------------------------------------------------
  // Compilation

  /** One param compiles when its expression parses and passes the primary
      check; it keeps its fields and gains its tree. */
  lemma CompileParamIs(p: ParamJson)
    ensures CompileParam(p).Ok? <==>
      G.Parse(p.expression).Ok? && CheckForPrimaryExpression(G.Parse(p.expression).value).Ok?
    ensures CompileParam(p).Ok? ==>
      CompileParam(p).value == CompiledParam(p.name, p.expression, G.Parse(p.expression).value)
      && OnlyNameNodes(CompileParam(p).value.ast)
  {
    if G.Parse(p.expression).Ok? {
      PrimaryCheck(G.Parse(p.expression).value);
    }
  }

  /** One rule compiles when its expression parses and passes the builtin
      and variable check against the declared names. */
  lemma CompileRuleIs(r: RuleJson, vars: seq<string>)
    ensures CompileRule(r, vars).Ok? <==>
      G.Parse(r.expression).Ok? && CheckForPredefFunctionsAndVars(G.Parse(r.expression).value, vars).Ok?
    ensures CompileRule(r, vars).Ok? ==>
      CompileRule(r, vars).value == CompiledRule(r.ruleName, r.expression, G.Parse(r.expression).value)
  {
  }

  /** The loop succeeds exactly when `f` succeeds on every element, and
      then holds the results in order. */
  lemma {:induction false} MapUntilErrorOk<A, B>(xs: seq<A>, f: A -> Result<B, Error>)
    ensures MapUntilError(xs, f).Ok? <==> forall i :: 0 <= i < |xs| ==> f(xs[i]).Ok?
    ensures MapUntilError(xs, f).Ok? ==> forall i :: 0 <= i < |xs| ==> MapUntilError(xs, f).value[i] == f(xs[i]).value
    decreases |xs|
  {
    if xs != [] {
      var init := xs[..|xs| - 1];
      MapUntilErrorOk(init, f);
      forall i | 0 <= i < |init| ensures init[i] == xs[i] { }
    }
  }

  /** The loop throws the error of the first element `f` fails on, after
      succeeding on every earlier one. */
  lemma {:induction false} MapUntilErrorFirstError<A, B>(xs: seq<A>, f: A -> Result<B, Error>)
    requires MapUntilError(xs, f).Err?
    ensures exists k :: 0 <= k < |xs| && f(xs[k]) == Err(MapUntilError(xs, f).error)
                        && forall i :: 0 <= i < k ==> f(xs[i]).Ok?
    decreases |xs|
  {
    var init := xs[..|xs| - 1];
    if MapUntilError(init, f).Err? {
      MapUntilErrorFirstError(init, f);
      var k :| 0 <= k < |init| && f(init[k]) == Err(MapUntilError(init, f).error)
        && forall i :: 0 <= i < k ==> f(init[i]).Ok?;
      assert xs[k] == init[k];
      forall i | 0 <= i < k ensures f(xs[i]).Ok? {
        assert xs[i] == init[i];
      }
    } else {
      MapUntilErrorOk(init, f);
      forall i | 0 <= i < |init| ensures f(xs[i]).Ok? {
        assert xs[i] == init[i];
      }
    }
  }

  /** A document compiles exactly when every param compiles and every rule
      compiles against `$` + each param's name; the compiled workflow keeps
      the document's fields, and each param and rule is its compiled self at
      the same index. */
  lemma Compiles(json: WorkflowJson)
    ensures CompileSpec(json).Ok? <==>
      (forall i :: 0 <= i < |json.params| ==> CompileParam(json.params[i]).Ok?)
      && (forall j :: 0 <= j < |json.rules| ==> CompileRule(json.rules[j], DeclaredNames(json.params)).Ok?)
    ensures CompileSpec(json).Ok? ==>
      var wf := CompileSpec(json).value;
      wf.id == json.id && wf.name == json.name && wf.path == json.path
      && |wf.params| == |json.params| && |wf.rules| == |json.rules|
      && (forall i :: 0 <= i < |json.params| ==> wf.params[i] == CompileParam(json.params[i]).value)
      && (forall j :: 0 <= j < |json.rules| ==> wf.rules[j] == CompileRule(json.rules[j], DeclaredNames(json.params)).value)
  {
    MapUntilErrorOk(json.params, CompileParam);
    MapUntilErrorOk(json.rules, RuleCompiler(DeclaredNames(json.params)));
  }

  /** Compilation stops at the first param that fails: its error is thrown
      and every earlier param compiles. */
  lemma CompileParamsFirstError(params: seq<ParamJson>)
    requires CompileParams(params).Err?
    ensures exists k :: 0 <= k < |params| && CompileParam(params[k]) == Err(CompileParams(params).error)
                        && forall i :: 0 <= i < k ==> CompileParam(params[i]).Ok?
  {
    MapUntilErrorFirstError(params, CompileParam);
  }

  // -----------------------------------------------------------------------
  // Execution

  /** The names `resolveReqParams` fills in: `$` + each param's name. */
  lemma ResolveKeys(params: seq<CompiledParam>, env: Value, ipRange: seq<Value> -> Value)
    requires env.VObj? && ResolveSpec(params, env, ipRange).Ok?
    ensures forall i :: 0 <= i < |params| ==> "$" + params[i].name in ResolveSpec(params, env, ipRange).value
    ensures forall k :: k in ResolveSpec(params, env, ipRange).value ==>
      exists i :: 0 <= i < |params| && k == "$" + params[i].name
  {
    ResolveKeysPresent(params, env, ipRange);
    ResolveKeysOnly(params, env, ipRange);
  }

  lemma {:induction false} ResolveKeysPresent(params: seq<CompiledParam>, env: Value, ipRange: seq<Value> -> Value)
    requires env.VObj? && ResolveSpec(params, env, ipRange).Ok?
    ensures forall i :: 0 <= i < |params| ==> "$" + params[i].name in ResolveSpec(params, env, ipRange).value
    decreases |params|
  {
    if params != [] {
      var init := params[..|params| - 1];
      var last := params[|params| - 1];
      ResolveKeysPresent(init, env, ipRange);
      var before := ResolveSpec(init, env, ipRange).value;
      assert ResolveSpec(params, env, ipRange).value == before["$" + last.name := Eval(last.ast, EnvOf(env), ipRange).value];
      forall i | 0 <= i < |params| ensures "$" + params[i].name in ResolveSpec(params, env, ipRange).value {
        if i < |init| {
          assert init[i] == params[i];
        }
      }
    }
  }

  lemma {:induction false} ResolveKeysOnly(params: seq<CompiledParam>, env: Value, ipRange: seq<Value> -> Value)
    requires env.VObj? && ResolveSpec(params, env, ipRange).Ok?
    ensures forall k :: k in ResolveSpec(params, env, ipRange).value ==>
      exists i :: 0 <= i < |params| && k == "$" + params[i].name
    decreases |params|
  {
    if params != [] {
      var init := params[..|params| - 1];
      var last := params[|params| - 1];
      ResolveKeysOnly(init, env, ipRange);
      var before := ResolveSpec(init, env, ipRange).value;
      assert ResolveSpec(params, env, ipRange).value == before["$" + last.name := Eval(last.ast, EnvOf(env), ipRange).value];
      forall k | k in ResolveSpec(params, env, ipRange).value
        ensures exists i :: 0 <= i < |params| && k == "$" + params[i].name
      {
        if k in before {
          var i :| 0 <= i < |init| && k == "$" + init[i].name;
          assert init[i] == params[i];
        } else {
          assert k == "$" + params[|params| - 1].name;
        }
      }
    }
  }


  /** Each param is evaluated against the environment it is given, not
      against earlier params, and of params with the same name the last one
      wins. */
  lemma {:induction false} ResolveValue(params: seq<CompiledParam>, env: Value, ipRange: seq<Value> -> Value, i: nat)
    requires env.VObj? && ResolveSpec(params, env, ipRange).Ok?
    requires i < |params| && forall j :: i < j < |params| ==> params[j].name != params[i].name
    ensures Eval(params[i].ast, EnvOf(env), ipRange).Ok?
    ensures "$" + params[i].name in ResolveSpec(params, env, ipRange).value
    ensures ResolveSpec(params, env, ipRange).value["$" + params[i].name] == Eval(params[i].ast, EnvOf(env), ipRange).value
    decreases |params|
  {
    var init := params[..|params| - 1];
    var last := params[|params| - 1];
    if i < |init| {
      assert last.name != params[i].name;
      assert "$" + last.name != "$" + params[i].name by {
        assert ("$" + last.name)[1..] == last.name && ("$" + params[i].name)[1..] == params[i].name;
      }
      assert init[i] == params[i];
      forall j | i < j < |init| ensures init[j].name != init[i].name {
        assert init[j] == params[j];
      }
      ResolveValue(init, env, ipRange, i);
    }
  }

  /** The environment the rules are evaluated in. */
  function RuleEnvironment(wf: Workflow, user: Value, request: Value, ipRange: seq<Value> -> Value): Value
    requires ResolveSpec(wf.params, VObj(BaseEnvironment(user, request)), ipRange).Ok?
  {
    VObj(BaseEnvironment(user, request) + ResolveSpec(wf.params, VObj(BaseEnvironment(user, request)), ipRange).value)
  }

  /** A decision that is reached is made on the rules' results in the rule
      environment. */
  lemma DecisionResults(wf: Workflow, user: Value, request: Value, ipRange: seq<Value> -> Value)
    requires Decision(wf, user, request, ipRange).Ok?
    ensures ResolveSpec(wf.params, VObj(BaseEnvironment(user, request)), ipRange).Ok?
    ensures var results := EvalAll(RuleAsts(wf.rules), EnvOf(RuleEnvironment(wf, user, request, ipRange)), ipRange);
      results.Ok? && Decision(wf, user, request, ipRange) == Ok(!SomeFalse(results.value))
  {
  }

  /** The decision is false exactly when some rule evaluates to exactly
      `false`; results of any other value pass. With no rules it is true. */
  lemma DecisionIsNoFalseRule(wf: Workflow, user: Value, request: Value, ipRange: seq<Value> -> Value)
    requires Decision(wf, user, request, ipRange).Ok?
    ensures !Decision(wf, user, request, ipRange).value <==>
      exists j :: 0 <= j < |wf.rules| && Eval(wf.rules[j].ast, EnvOf(RuleEnvironment(wf, user, request, ipRange)), ipRange) == Ok(VBool(false))
    ensures wf.rules == [] ==> Decision(wf, user, request, ipRange) == Ok(true)
  {
    DecisionResults(wf, user, request, ipRange);
    var env := EnvOf(RuleEnvironment(wf, user, request, ipRange));
    SomeFalseIsFalseRule(RuleAsts(wf.rules), env, ipRange);
  }

  /** Over rule trees that all evaluate, some result is exactly `false`
      exactly when some tree evaluates to `false`. */
  lemma SomeFalseIsFalseRule(asts: seq<Node>, env: Env, ipRange: seq<Value> -> Value)
    requires EvalAll(asts, env, ipRange).Ok?
    ensures SomeFalse(EvalAll(asts, env, ipRange).value) <==>
      exists j :: 0 <= j < |asts| && Eval(asts[j], env, ipRange) == Ok(VBool(false))
  {
    EvalAllInOrder(asts, env, ipRange);
    var results := EvalAll(asts, env, ipRange).value;
    SomeFalseExists(results);
    if exists j :: 0 <= j < |asts| && Eval(asts[j], env, ipRange) == Ok(VBool(false)) {
      var j :| 0 <= j < |asts| && Eval(asts[j], env, ipRange) == Ok(VBool(false));
      assert results[j] == VBool(false);
    }
  }


  /** Rule lists with the same elements evaluate without error together. */
  lemma RulesEvaluateTogether(rules1: seq<CompiledRule>, rules2: seq<CompiledRule>, env: Env, ipRange: seq<Value> -> Value)
    requires multiset(rules1) == multiset(rules2)
    ensures EvalAll(RuleAsts(rules1), env, ipRange).Ok? <==> EvalAll(RuleAsts(rules2), env, ipRange).Ok?
  {
    EvalAllInOrder(RuleAsts(rules1), env, ipRange);
    EvalAllInOrder(RuleAsts(rules2), env, ipRange);
    if EvalAll(RuleAsts(rules1), env, ipRange).Ok? {
      forall j | 0 <= j < |rules2| ensures Eval(rules2[j].ast, env, ipRange).Ok? {
        assert rules2[j] in multiset(rules1);
        var k :| 0 <= k < |rules1| && rules1[k] == rules2[j];
      }
    }
    if EvalAll(RuleAsts(rules2), env, ipRange).Ok? {
      forall j | 0 <= j < |rules1| ensures Eval(rules1[j].ast, env, ipRange).Ok? {
        assert rules1[j] in multiset(rules2);
        var k :| 0 <= k < |rules2| && rules2[k] == rules1[j];
      }
    }
  }

  /** Rule lists with the same elements have a rule yielding `false`
      together. */
  lemma SomeRuleFalseTogether(rules1: seq<CompiledRule>, rules2: seq<CompiledRule>, env: Env, ipRange: seq<Value> -> Value)
    requires multiset(rules1) == multiset(rules2)
    ensures (exists j :: 0 <= j < |rules1| && Eval(rules1[j].ast, env, ipRange) == Ok(VBool(false))) <==>
            (exists j :: 0 <= j < |rules2| && Eval(rules2[j].ast, env, ipRange) == Ok(VBool(false)))
  {
    if exists j :: 0 <= j < |rules1| && Eval(rules1[j].ast, env, ipRange) == Ok(VBool(false)) {
      var j :| 0 <= j < |rules1| && Eval(rules1[j].ast, env, ipRange) == Ok(VBool(false));
      assert rules1[j] in multiset(rules2);
      var k :| 0 <= k < |rules2| && rules2[k] == rules1[j];
    }
    if exists j :: 0 <= j < |rules2| && Eval(rules2[j].ast, env, ipRange) == Ok(VBool(false)) {
      var j :| 0 <= j < |rules2| && Eval(rules2[j].ast, env, ipRange) == Ok(VBool(false));
      assert rules2[j] in multiset(rules1);
      var k :| 0 <= k < |rules1| && rules1[k] == rules2[j];
    }
  }

  /** The rules' order does not change the decision or whether there is
      one. */
  lemma DecisionIgnoresRuleOrder(wf1: Workflow, wf2: Workflow, user: Value, request: Value, ipRange: seq<Value> -> Value)
    requires wf1.params == wf2.params && multiset(wf1.rules) == multiset(wf2.rules)
    ensures Decision(wf1, user, request, ipRange).Ok? <==> Decision(wf2, user, request, ipRange).Ok?
    ensures Decision(wf1, user, request, ipRange).Ok? ==> Decision(wf1, user, request, ipRange) == Decision(wf2, user, request, ipRange)
  {
    if ResolveSpec(wf1.params, VObj(BaseEnvironment(user, request)), ipRange).Ok? {
      var env := EnvOf(RuleEnvironment(wf1, user, request, ipRange));
      assert env == EnvOf(RuleEnvironment(wf2, user, request, ipRange));
      RulesEvaluateTogether(wf1.rules, wf2.rules, env, ipRange);
      if Decision(wf1, user, request, ipRange).Ok? {
        DecisionIsNoFalseRule(wf1, user, request, ipRange);
        DecisionIsNoFalseRule(wf2, user, request, ipRange);
        SomeRuleFalseTogether(wf1.rules, wf2.rules, env, ipRange);
      }
    }
  }

  // -----------------------------------------------------------------------
  // The flat environment

  lemma {:induction false} OnlyNameNodesNames(n: Node)
    requires OnlyNameNodes(n)
    ensures Names(n)
    decreases n
  {
    if n.MemberExpression? {
      OnlyNameNodesNames(n.obj);
    }
  }

  /** The object `executeRules` evaluates params in has no `vars` or
      `predefIdent` key, and neither has the one it evaluates rules in. */
  lemma EnvironmentsAreFlat(wf: Workflow, user: Value, request: Value, ipRange: seq<Value> -> Value)
    ensures "vars" !in BaseEnvironment(user, request) && "predefIdent" !in BaseEnvironment(user, request)
    ensures ResolveSpec(wf.params, VObj(BaseEnvironment(user, request)), ipRange).Ok? ==>
      "vars" !in RuleEnvironment(wf, user, request, ipRange).fields
      && "predefIdent" !in RuleEnvironment(wf, user, request, ipRange).fields
  {
    assert BaseEnvironment(user, request).Keys == {"ip_range", "in", "$user", "$request"};
    assert "vars"[0] != '$' && "predefIdent"[0] != '$';
  }

  /** Nodes read `env.vars` and `env.predefIdent`, but `executeRules` hands
      them a flat object of builtins, `$user`, `$request` and `$Name`
      entries. Params pass the primary check only when made of names, so a
      workflow with any param never reaches a decision. */
  lemma ParamsBlockExecution(wf: Workflow, user: Value, request: Value, ipRange: seq<Value> -> Value)
    requires wf.params != [] && OnlyNameNodes(wf.params[0].ast)
    ensures Decision(wf, user, request, ipRange).Err?
  {
    var base := VObj(BaseEnvironment(user, request));
    EnvironmentsAreFlat(wf, user, request, ipRange);
    OnlyNameNodesNames(wf.params[0].ast);
    FlatEnvironmentFails(wf.params[0].ast, base, ipRange);
    assert wf.params[..1][..0] == [];
    ResolvePrefixError(wf.params, base, ipRange, 1);
  }

  /** For the same reason a decision is reached only when no rule names an
      identifier or variable. */
  lemma DecisionNeedsNameFreeRules(wf: Workflow, user: Value, request: Value, ipRange: seq<Value> -> Value)
    requires Decision(wf, user, request, ipRange).Ok?
    ensures forall j :: 0 <= j < |wf.rules| ==> !Names(wf.rules[j].ast)
  {
    DecisionResults(wf, user, request, ipRange);
    var envObj := RuleEnvironment(wf, user, request, ipRange);
    EnvironmentsAreFlat(wf, user, request, ipRange);
    EvalAllInOrder(RuleAsts(wf.rules), EnvOf(envObj), ipRange);
    forall j | 0 <= j < |wf.rules| ensures !Names(wf.rules[j].ast) {
      if Names(wf.rules[j].ast) {
        FlatEnvironmentFails(wf.rules[j].ast, envObj, ipRange);
      }
    }
  }

  /** Every workflow compiled from a document with a param fails to
      execute. */
  lemma CompiledParamsBlockExecution(json: WorkflowJson, user: Value, request: Value, ipRange: seq<Value> -> Value)
    requires CompileSpec(json).Ok? && json.params != []
    ensures Decision(CompileSpec(json).value, user, request, ipRange).Err?
  {
    Compiles(json);
    CompileParamIs(json.params[0]);
    ParamsBlockExecution(CompileSpec(json).value, user, request, ipRange);
  }
}
