/** The legacy rule service: rules that a helper translated into a function
    and a list of argument texts, whose arguments are substituted from the
    resolved params and which are then run in order until one fails.

    The two helpers the service relies on, `tryOperations` (rule text to an
    operation) and `resolveParams` (param text to a value), and calling a
    translated rule function, are parameters of the model. */
module RubacService {
  import opened Wrappers
  import opened Errors
  import opened JsValues
  import W = Workflows
  import WorkflowProperties

  /** A rule function made by `tryOperations`, known only by identity. */
  datatype OpFn = OpFn(id: nat)

  /** `IOperation`: the argument texts, the function, and the operator name. */
  datatype Operation = Operation(stringParams: seq<string>, fn: OpFn, operator: string)

  /** A rule with its arguments substituted. */
  datatype ReplacedRule = ReplacedRule(fn: OpFn, resolvedParams: seq<Value>, operator: string)

  /** `tryOperations(expression)`: an operation, or None for a falsy result. */
  type Translator = string -> Option<Operation>

  /** `resolveParams(expression, user, request)`. */
  type Resolver = (string, Value, Value) -> Value

  /** `fn(...args)` for a translated rule function. */
  type Caller = (OpFn, seq<Value>) -> Value

  // -----------------------------------------------------------------------
  // Objects used as dictionaries, in insertion order

  /** The entries of a JavaScript object used as a dictionary, in the order
      `Object.entries` lists them. */
  datatype Entry<T> = Entry(key: string, val: T)

  type Entries<T> = seq<Entry<T>>

  predicate UniqueKeys<T>(d: Entries<T>) {
    forall i, j :: 0 <= i < j < |d| ==> d[i].key != d[j].key
  }

  /** `d[key]`: None stands for `undefined`. */
  function Get<T>(d: Entries<T>, key: string): (r: Option<T>)
    ensures r.Some? <==> exists i :: 0 <= i < |d| && d[i].key == key
    decreases |d|
  {
    if d == [] then None
    else if d[|d| - 1].key == key then Some(d[|d| - 1].val)
    else Get(d[..|d| - 1], key)
  }

  /** `d[key] = value`: an existing key keeps its place and takes the new
      value, a new key goes last. */
  function Put<T>(d: Entries<T>, key: string, value: T): (r: Entries<T>)
    requires UniqueKeys(d)
    ensures UniqueKeys(r)
    ensures |r| == |d| <==> exists i :: 0 <= i < |d| && d[i].key == key
    ensures |r| != |d| ==> r == d + [Entry(key, value)]
    ensures forall i :: 0 <= i < |r| ==> r[i].key == key || (i < |d| && r[i] == d[i])
    decreases |d|
  {
    if d == [] then [Entry(key, value)]
    else if d[|d| - 1].key == key then d[..|d| - 1] + [Entry(key, value)]
    else
      var init := Put(d[..|d| - 1], key, value);
      if |init| == |d| - 1 then init + [d[|d| - 1]]
      else d + [Entry(key, value)]
  }

  /** Reading a key back gives the value last put there; other keys are
      unaffected. */
  lemma {:induction false} GetPut<T>(d: Entries<T>, key: string, value: T, other: string)
    requires UniqueKeys(d)
    ensures Get(Put(d, key, value), key) == Some(value)
    ensures other != key ==> Get(Put(d, key, value), other) == Get(d, other)
    decreases |d|
  {
    if d != [] && d[|d| - 1].key != key {
      var init := d[..|d| - 1];
      GetPut(init, key, value, other);
      var r := Put(d, key, value);
      if |Put(init, key, value)| == |d| - 1 {
        assert r[..|r| - 1] == Put(init, key, value);
      } else {
        assert r[..|r| - 1] == d;
      }
    } else if d != [] {
      var r := Put(d, key, value);
      assert r[..|r| - 1] == d[..|d| - 1];
    }
  }

  // -----------------------------------------------------------------------
  // The params fold of testAgainstRules

  /** The prepared params after the first `|params|` steps of the fold: a
      param whose value is falsy is skipped, any other is stored under
      `$` + its name. */
  function Prepared(params: seq<W.ParamJson>, user: Value, request: Value, resolve: Resolver): (acc: map<string, Value>)
    ensures forall k :: k in acc ==> |k| > 0 && k[0] == '$' && Truthy(acc[k])
    decreases |params|
  {
    if params == [] then map[]
    else
      var acc := Prepared(params[..|params| - 1], user, request, resolve);
      var p := params[|params| - 1];
      var value := resolve(p.expression, user, request);
      if Truthy(value) then acc["$" + p.name := value] else acc
  }

  /** The `Params.reduce` of `testAgainstRules`, its accumulator filled in
      place. */
  method PrepareParams(params: seq<W.ParamJson>, user: Value, request: Value, resolve: Resolver) returns (acc: map<string, Value>)
    ensures acc == Prepared(params, user, request, resolve)
  {
    acc := map[];
    for i := 0 to |params|
      invariant acc == Prepared(params[..i], user, request, resolve)
    {
      assert params[..i + 1][..i] == params[..i];
      var value := resolve(params[i].expression, user, request);
      if Truthy(value) {
        acc := acc["$" + params[i].name := value];
      }
    }
    assert params[..|params|] == params;
  }

  /** `$n` is prepared exactly when some param named `n` resolves to a
      truthy value. */
  lemma {:induction false} PreparedKeys(params: seq<W.ParamJson>, user: Value, request: Value, resolve: Resolver, name: string)
    ensures "$" + name in Prepared(params, user, request, resolve) <==>
      exists i :: 0 <= i < |params| && params[i].name == name && Truthy(resolve(params[i].expression, user, request))
    decreases |params|
  {
    if params != [] {
      var init := params[..|params| - 1];
      var last := params[|params| - 1];
      PreparedKeys(init, user, request, resolve, name);
      assert "$" + last.name == "$" + name <==> last.name == name by {
        assert ("$" + last.name)[1..] == last.name && ("$" + name)[1..] == name;
      }
      if exists i :: 0 <= i < |init| && init[i].name == name && Truthy(resolve(init[i].expression, user, request)) {
        var i :| 0 <= i < |init| && init[i].name == name && Truthy(resolve(init[i].expression, user, request));
        assert params[i] == init[i];
      }
      if exists i :: 0 <= i < |params| && params[i].name == name && Truthy(resolve(params[i].expression, user, request)) {
        var i :| 0 <= i < |params| && params[i].name == name && Truthy(resolve(params[i].expression, user, request));
        if i < |init| {
          assert init[i] == params[i];
        }
      }
    }
  }

  /** Of the params with one name, the last whose value is truthy wins. */
  lemma {:induction false} PreparedValue(params: seq<W.ParamJson>, user: Value, request: Value, resolve: Resolver, i: nat)
    requires i < |params| && Truthy(resolve(params[i].expression, user, request))
    requires forall j :: i < j < |params| && params[j].name == params[i].name ==> !Truthy(resolve(params[j].expression, user, request))
    ensures "$" + params[i].name in Prepared(params, user, request, resolve)
    ensures Prepared(params, user, request, resolve)["$" + params[i].name] == resolve(params[i].expression, user, request)
    decreases |params|
  {
    var init := params[..|params| - 1];
    var last := params[|params| - 1];
    if i < |init| {
      assert init[i] == params[i];
      forall j | i < j < |init| && init[j].name == init[i].name
        ensures !Truthy(resolve(init[j].expression, user, request))
      {
        assert init[j] == params[j];
      }
      PreparedValue(init, user, request, resolve, i);
      if Truthy(resolve(last.expression, user, request)) {
        assert last.name != params[i].name;
        assert "$" + last.name != "$" + params[i].name by {
          assert ("$" + last.name)[1..] == last.name && ("$" + params[i].name)[1..] == params[i].name;
        }
      }
    }
  }

  // -----------------------------------------------------------------------
  // replaceParamsInRules

  function Clamp(i: int, len: nat): (c: nat)
    ensures c <= len
  {
    if i < 0 then 0 else if i > len then len else i
  }

  /** `s.substring(start, end)`: both bounds clamped to the text, and
      swapped when `start` is the larger. */
  function Substring(s: string, start: int, end: int): (t: string)
    ensures |t| <= |s|
  {
    var a := Clamp(start, |s|);
    var b := Clamp(end, |s|);
    if a <= b then s[a..b] else s[b..a]
  }

  predicate IsReference(arg: string) {
    |arg| > 0 && arg[0] == '$'
  }

  predicate IsQuoted(arg: string) {
    |arg| > 0 && arg[0] == '\'' && arg[|arg| - 1] == '\''
  }

  /** The value substituted for one argument text of rule `ruleName`. */
  function ReplaceArg(arg: string, prepared: map<string, Value>, ruleName: string): (r: Result<Value, Error>)
    ensures r.Err? <==> !IsReference(arg) && !IsQuoted(arg)
    ensures r.Err? ==> r.error == BadRequest(arg, ruleName)
    ensures IsReference(arg) ==> r == Ok(if arg in prepared then prepared[arg] else VUndefined)
    ensures !IsReference(arg) && IsQuoted(arg) && |arg| >= 2 ==> r == Ok(VStr(arg[1..|arg| - 1]))
  {
    if IsReference(arg) then Ok(if arg in prepared then prepared[arg] else VUndefined)
    else if IsQuoted(arg) then Ok(VStr(Substring(arg, 1, |arg| - 1)))
    else Err(BadRequest(arg, ruleName))
  }

  /** A lone quote is both the opening and the closing quote; `substring`
      swaps its bounds and gives the quote back. */
  lemma LoneQuoteIsKept(prepared: map<string, Value>, ruleName: string)
    ensures ReplaceArg("'", prepared, ruleName) == Ok(VStr("'"))
  {
    assert !IsReference("'") && IsQuoted("'");
    assert ReplaceArg("'", prepared, ruleName) == Ok(VStr(Substring("'", 1, 0)));
    assert Substring("'", 1, 0) == "'"[0..1] == "'";
  }

  /** `stringParams.map(...)`: every argument in order, the first bad one
      throws. */
  function ReplaceArgs(args: seq<string>, prepared: map<string, Value>, ruleName: string): (r: Result<seq<Value>, Error>)
    ensures r.Ok? ==> |r.value| == |args|
  {
    W.MapUntilError(args, (arg: string) => ReplaceArg(arg, prepared, ruleName))
  }

  /** One entry of `rulesWithReplacedParams`. */
  function ReplaceRule(entry: Entry<Operation>, prepared: map<string, Value>): (r: Result<Entry<ReplacedRule>, Error>)
    ensures r.Ok? ==> r.value.key == entry.key && r.value.val.fn == entry.val.fn && r.value.val.operator == entry.val.operator
  {
    var args :- ReplaceArgs(entry.val.stringParams, prepared, entry.key);
    Ok(Entry(entry.key, ReplacedRule(entry.val.fn, args, entry.val.operator)))
  }

  function RuleReplacer(prepared: map<string, Value>): Entry<Operation> -> Result<Entry<ReplacedRule>, Error> {
    (entry: Entry<Operation>) => ReplaceRule(entry, prepared)
  }

  /** `replaceParamsInRules(preparedParams)` over the prepared rules. */
  function Replaced(rules: Entries<Operation>, prepared: map<string, Value>): (r: Result<Entries<ReplacedRule>, Error>)
    ensures r.Ok? ==> |r.value| == |rules|
  {
    W.MapUntilError(rules, RuleReplacer(prepared))
  }

  /** Substitution keeps every rule, in order, with its function and
      operator, and replaces each argument by its value; it succeeds exactly
      when every argument of every rule is a reference or quoted. */
  lemma ReplacedRules(rules: Entries<Operation>, prepared: map<string, Value>)
    ensures Replaced(rules, prepared).Ok? <==>
      forall i, k :: 0 <= i < |rules| && 0 <= k < |rules[i].val.stringParams| ==>
        IsReference(rules[i].val.stringParams[k]) || IsQuoted(rules[i].val.stringParams[k])
    ensures Replaced(rules, prepared).Ok? ==> forall i, k :: 0 <= i < |rules| && 0 <= k < |rules[i].val.stringParams| ==>
      var out := Replaced(rules, prepared).value[i];
      out.key == rules[i].key && out.val.fn == rules[i].val.fn && out.val.operator == rules[i].val.operator
      && |out.val.resolvedParams| == |rules[i].val.stringParams|
      && out.val.resolvedParams[k] == ReplaceArg(rules[i].val.stringParams[k], prepared, rules[i].key).value
  {
    var f := RuleReplacer(prepared);
    WorkflowProperties.MapUntilErrorOk(rules, f);
    forall i | 0 <= i < |rules|
      ensures f(rules[i]).Ok? <==> forall k :: 0 <= k < |rules[i].val.stringParams| ==>
        IsReference(rules[i].val.stringParams[k]) || IsQuoted(rules[i].val.stringParams[k])
      ensures f(rules[i]).Ok? ==> forall k :: 0 <= k < |rules[i].val.stringParams| ==>
        f(rules[i]).value.val.resolvedParams[k] == ReplaceArg(rules[i].val.stringParams[k], prepared, rules[i].key).value
    {
      WorkflowProperties.MapUntilErrorOk(rules[i].val.stringParams, (arg: string) => ReplaceArg(arg, prepared, rules[i].key));
    }
  }

  /** A bad argument text fails the whole substitution with a
      BadRequest naming an argument and its rule. */
  lemma ReplacedError(rules: Entries<Operation>, prepared: map<string, Value>)
    requires Replaced(rules, prepared).Err?
    ensures exists i, k :: 0 <= i < |rules| && 0 <= k < |rules[i].val.stringParams|
                           && !IsReference(rules[i].val.stringParams[k]) && !IsQuoted(rules[i].val.stringParams[k])
                           && Replaced(rules, prepared).error == BadRequest(rules[i].val.stringParams[k], rules[i].key)
  {
    var f := RuleReplacer(prepared);
    WorkflowProperties.MapUntilErrorFirstError(rules, f);
    var i :| 0 <= i < |rules| && f(rules[i]) == Err(Replaced(rules, prepared).error);
    var g := (arg: string) => ReplaceArg(arg, prepared, rules[i].key);
    WorkflowProperties.MapUntilErrorFirstError(rules[i].val.stringParams, g);
    var k :| 0 <= k < |rules[i].val.stringParams| && g(rules[i].val.stringParams[k]) == Err(Replaced(rules, prepared).error);
  }

  // -----------------------------------------------------------------------
  // executeRules

  predicate RulePasses(rule: ReplacedRule, call: Caller) {
    Truthy(call(rule.fn, rule.resolvedParams))
  }

  /** Every replaced rule's function returns a truthy value. */
  predicate AllRulesPass(rules: Entries<ReplacedRule>, call: Caller) {
    forall i :: 0 <= i < |rules| ==> RulePasses(rules[i].val, call)
  }

  /** `executeRules`: the rules in entry order, returning false at the first
      falsy result; true when every rule passes, and for no rules. */
  method ExecuteRules(rules: Entries<ReplacedRule>, call: Caller) returns (passed: bool)
    ensures passed <==> forall i :: 0 <= i < |rules| ==> RulePasses(rules[i].val, call)
    ensures !passed ==>
      exists k :: 0 <= k < |rules| && !RulePasses(rules[k].val, call)
        && forall i :: 0 <= i < k ==> RulePasses(rules[i].val, call)
  {
    for i := 0 to |rules|
      invariant forall j :: 0 <= j < i ==> RulePasses(rules[j].val, call)
    {
      var passesRule := call(rules[i].val.fn, rules[i].val.resolvedParams);
      if !Truthy(passesRule) {
        return false;
      }
    }
    return true;
  }

  // -----------------------------------------------------------------------
  // parseJsonRules

  /** The `Rules.reduce` of `parseJsonRules`: a rule `tryOperations` cannot
      translate is skipped, any other is stored under its name. */
  function Translated(rules: seq<W.RuleJson>, tryOperations: Translator): (acc: Entries<Operation>)
    ensures UniqueKeys(acc)
    decreases |rules|
  {
    if rules == [] then []
    else
      var acc := Translated(rules[..|rules| - 1], tryOperations);
      var rule := rules[|rules| - 1];
      match tryOperations(rule.expression)
      case None => acc
      case Some(op) => Put(acc, rule.ruleName, op)
  }

  /** One more rule: `Translated` over the first `i + 1` rules extends the
      table over the first `i` by that rule's translation, if it has one. */
  lemma TranslatedStep(rules: seq<W.RuleJson>, tryOperations: Translator, i: nat)
    requires i < |rules|
    ensures Translated(rules[..i + 1], tryOperations) ==
      match tryOperations(rules[i].expression)
      case None => Translated(rules[..i], tryOperations)
      case Some(op) => Put(Translated(rules[..i], tryOperations), rules[i].ruleName, op)
  {
    assert rules[..i + 1][..i] == rules[..i];
  }

  /** The translation of the last rule named `name` that translates. */
  function LastTranslation(rules: seq<W.RuleJson>, tryOperations: Translator, name: string): Option<Operation>
    decreases |rules|
  {
    if rules == [] then None
    else
      var rule := rules[|rules| - 1];
      if rule.ruleName == name && tryOperations(rule.expression).Some? then tryOperations(rule.expression)
      else LastTranslation(rules[..|rules| - 1], tryOperations, name)
  }

  /** The table built by `parseJsonRules` holds, under each name, the
      translation of the last rule of that name that translates. */
  lemma {:induction false} TranslatedGet(rules: seq<W.RuleJson>, tryOperations: Translator, name: string)
    ensures Get(Translated(rules, tryOperations), name) == LastTranslation(rules, tryOperations, name)
    decreases |rules|
  {
    if rules != [] {
      var init := rules[..|rules| - 1];
      var rule := rules[|rules| - 1];
      TranslatedGet(init, tryOperations, name);
      match tryOperations(rule.expression)
      case None =>
      case Some(op) => GetPut(Translated(init, tryOperations), rule.ruleName, op, name);
    }
  }

  lemma {:induction false} LastTranslationFound(rules: seq<W.RuleJson>, tryOperations: Translator, name: string)
    ensures LastTranslation(rules, tryOperations, name).Some? <==>
      exists i :: 0 <= i < |rules| && rules[i].ruleName == name && tryOperations(rules[i].expression).Some?
    ensures LastTranslation(rules, tryOperations, name).Some? ==>
      exists i :: 0 <= i < |rules| && rules[i].ruleName == name
        && LastTranslation(rules, tryOperations, name) == tryOperations(rules[i].expression)
        && forall j :: i < j < |rules| && rules[j].ruleName == name ==> tryOperations(rules[j].expression).None?
    decreases |rules|
  {
    if rules != [] {
      var init := rules[..|rules| - 1];
      var last := |rules| - 1;
      LastTranslationFound(init, tryOperations, name);
      forall i | 0 <= i < |init| ensures init[i] == rules[i] { }
      if rules[last].ruleName == name && tryOperations(rules[last].expression).Some? {
        assert LastTranslation(rules, tryOperations, name) == tryOperations(rules[last].expression);
      } else {
        assert LastTranslation(rules, tryOperations, name) == LastTranslation(init, tryOperations, name);
      }
    }
  }

  /** A rule name has an entry exactly when some rule of that name is
      translated; the entry is the translation of the last such rule. */
  lemma TranslatedEntry(rules: seq<W.RuleJson>, tryOperations: Translator, name: string)
    ensures Get(Translated(rules, tryOperations), name).Some? <==>
      exists i :: 0 <= i < |rules| && rules[i].ruleName == name && tryOperations(rules[i].expression).Some?
    ensures Get(Translated(rules, tryOperations), name).Some? ==>
      exists i :: 0 <= i < |rules| && rules[i].ruleName == name
        && Get(Translated(rules, tryOperations), name) == tryOperations(rules[i].expression)
        && forall j :: i < j < |rules| && rules[j].ruleName == name ==> tryOperations(rules[j].expression).None?
  {
    TranslatedGet(rules, tryOperations, name);
    LastTranslationFound(rules, tryOperations, name);
  }

  /** No entry at all exactly when no rule can be translated. */
  lemma NothingTranslated(rules: seq<W.RuleJson>, tryOperations: Translator)
    ensures |Translated(rules, tryOperations)| == 0 <==> forall i :: 0 <= i < |rules| ==> tryOperations(rules[i].expression).None?
  {
    var acc := Translated(rules, tryOperations);
    if |acc| > 0 {
      TranslatedEntry(rules, tryOperations, acc[0].key);
      assert Get(acc, acc[0].key).Some?;
    }
    forall i | 0 <= i < |rules| && tryOperations(rules[i].expression).Some?
      ensures |acc| > 0
    {
      TranslatedEntry(rules, tryOperations, rules[i].ruleName);
    }
  }

  // -----------------------------------------------------------------------
  // The service

  /** `testAgainstRules` as a value, on the loaded document and prepared
      rules (None while nothing is loaded). */
  function Decision(doc: Option<W.WorkflowJson>, rules: Option<Entries<Operation>>,
                    user: Value, request: Value, resolve: Resolver, call: Caller): Result<bool, Error>
  {
    if doc.None? || rules.None? then Err(TypeError(UndefinedObject))
    else
      var replaced :- Replaced(rules.value, Prepared(doc.value.params, user, request, resolve));
      Ok(AllRulesPass(replaced, call))
  }

  /** A rule argument naming a param whose every value is falsy reaches the
      rule function as `undefined`. */
  lemma FalsyParamIsUndefined(doc: W.WorkflowJson, rules: Entries<Operation>, user: Value, request: Value,
                              resolve: Resolver, i: nat, k: nat, name: string)
    requires i < |rules| && k < |rules[i].val.stringParams| && rules[i].val.stringParams[k] == "$" + name
    requires forall j :: 0 <= j < |doc.params| && doc.params[j].name == name ==> !Truthy(resolve(doc.params[j].expression, user, request))
    requires Replaced(rules, Prepared(doc.params, user, request, resolve)).Ok?
    ensures var out := Replaced(rules, Prepared(doc.params, user, request, resolve)).value[i].val.resolvedParams;
      k < |out| && out[k] == VUndefined
  {
    var prepared := Prepared(doc.params, user, request, resolve);
    PreparedKeys(doc.params, user, request, resolve, name);
    ReplacedRules(rules, prepared);
  }

  /** The service object: the loaded document and the rules translated from
      it, both unset until `parseJsonRules` has run. */
  class Service {
    var rulesPlainJson: Option<W.WorkflowJson>
    var preparedRules: Option<Entries<Operation>>

    /** The constructor's file read is not part of this model: a new
        service has nothing loaded. */
    constructor()
      ensures rulesPlainJson == None && preparedRules == None
    {
      rulesPlainJson := None;
      preparedRules := None;
    }

    /** `parseJsonRules(json)`: the document is kept even when no rule can
        be translated, in which case the prepared rules stay as they were
        and the call throws. */
    method ParseJsonRules(json: W.WorkflowJson, tryOperations: Translator) returns (r: Result<(), Error>)
      modifies this
      ensures rulesPlainJson == Some(json)
      ensures r.Ok? <==> |Translated(json.rules, tryOperations)| > 0
      ensures r.Ok? ==> preparedRules == Some(Translated(json.rules, tryOperations))
      ensures r.Err? ==> preparedRules == old(preparedRules) && r.error == NoRuleTranslated(json.name, json.id)
    {
      rulesPlainJson := Some(json);
      var acc: Entries<Operation> := [];
      for i := 0 to |json.rules|
        invariant acc == Translated(json.rules[..i], tryOperations)
        invariant rulesPlainJson == Some(json) && preparedRules == old(preparedRules)
      {
        TranslatedStep(json.rules, tryOperations, i);
        var result := tryOperations(json.rules[i].expression);
        if result.Some? {
          acc := Put(acc, json.rules[i].ruleName, result.value);
        }
      }
      assert json.rules[..|json.rules|] == json.rules;
      if |acc| > 0 {
        preparedRules := Some(acc);
        r := Ok(());
      } else {
        r := Err(NoRuleTranslated(json.name, json.id));
      }
    }

    /** `replaceParamsInRules(preparedParams)`: a loop over the prepared
        rules' entries filling a new object. */
    method ReplaceParamsInRules(prepared: map<string, Value>) returns (r: Result<Entries<ReplacedRule>, Error>)
      ensures preparedRules.None? ==> r == Err(TypeError(UndefinedObject))
      ensures preparedRules.Some? ==> r == Replaced(preparedRules.value, prepared)
    {
      if preparedRules.None? {
        return Err(TypeError(UndefinedObject));
      }
      var rules := preparedRules.value;
      var f := RuleReplacer(prepared);
      var acc: Entries<ReplacedRule> := [];
      for i := 0 to |rules|
        invariant W.MapUntilError(rules[..i], f) == Ok(acc)
      {
        W.MapStep(rules, f, i, acc);
        var resolvedParams := ReplaceArgs(rules[i].val.stringParams, prepared, rules[i].key);
        if resolvedParams.Err? {
          W.MapPrefixError(rules, f, i + 1);
          return Err(resolvedParams.error);
        }
        acc := acc + [Entry(rules[i].key, ReplacedRule(rules[i].val.fn, resolvedParams.value, rules[i].val.operator))];
      }
      assert rules[..|rules|] == rules;
      return Ok(acc);
    }

    /** `testAgainstRules(user, request)`. */
    method TestAgainstRules(user: Value, request: Value, resolve: Resolver, call: Caller) returns (r: Result<bool, Error>)
      ensures r == Decision(rulesPlainJson, preparedRules, user, request, resolve, call)
    {
      if rulesPlainJson.None? {
        return Err(TypeError(UndefinedObject));
      }
      var preparedParams := PrepareParams(rulesPlainJson.value.params, user, request, resolve);
      var rulesWithReplacedParams := ReplaceParamsInRules(preparedParams);
      if rulesWithReplacedParams.Err? {
        return Err(rulesWithReplacedParams.error);
      }
      var replaced := rulesWithReplacedParams.value;
      assert Replaced(preparedRules.value, Prepared(rulesPlainJson.value.params, user, request, resolve)) == Ok(replaced);
      assert Decision(rulesPlainJson, preparedRules, user, request, resolve, call) == Ok(AllRulesPass(replaced, call));
      var passed := ExecuteRules(replaced, call);
      return Ok(passed);
    }
  }
}
