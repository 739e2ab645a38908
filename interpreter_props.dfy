/** Properties of the visitor and of evaluation. */
module InterpreterProperties {
  import opened Wrappers
  import opened Errors
  import opened JsValues
  import opened Builtins
  import opened Ast
  import opened Interpreter

  // -----------------------------------------------------------------------
  // Every node is visited exactly once

  /** The subtrees of a node, each occurrence counted, read off the tree
      shape rather than off the walk. */
  function Subtrees(n: Node): multiset<Node>
    decreases n
  {
    multiset{n} +
    match n
    case MemberExpression(o, p) => Subtrees(o) + Subtrees(p)
    case CallExpression(c, args) => Subtrees(c) + SubtreesAll(args)
    case EqualityOperation(_, l, r) => Subtrees(l) + Subtrees(r)
    case _ => multiset{}
  }

  function SubtreesAll(ns: seq<Node>): multiset<Node>
    decreases ns
  {
    if ns == [] then multiset{} else Subtrees(ns[0]) + SubtreesAll(ns[1..])
  }

  /** The nodes the walk hands to the callbacks. */
  function NodesOf(v: seq<VisitRecord>): multiset<Node> {
    if v == [] then multiset{} else multiset{v[0].node} + NodesOf(v[1..])
  }

  lemma {:induction false} NodesOfAppend(a: seq<VisitRecord>, b: seq<VisitRecord>)
    ensures NodesOf(a + b) == NodesOf(a) + NodesOf(b)
    decreases |a|
  {
    if a != [] {
      assert (a + b)[1..] == a[1..] + b;
      NodesOfAppend(a[1..], b);
    } else {
      assert a + b == b;
    }
  }

  /** `visit` calls the callbacks once on every node of the tree and on
      nothing else. */
  lemma {:induction false} VisitsEveryNodeOnce(n: Node, parent: Option<Node>, key: Option<string>, index: Option<nat>)
    ensures NodesOf(Visits(n, parent, key, index)) == Subtrees(n)
    ensures |Visits(n, parent, key, index)| == Size(n)
    decreases n, 1
  {
    var head := [VisitRecord(n, parent, key, index)];
    NodesOfAppend(head, ChildVisits(n));
    assert NodesOf(head) == multiset{n} by {
      assert head[1..] == [];
    }
    ChildVisitsEveryNodeOnce(n);
  }

  /** Below the root, the walk visits every proper subtree once. */
  lemma {:induction false} ChildVisitsEveryNodeOnce(n: Node)
    ensures multiset{n} + NodesOf(ChildVisits(n)) == Subtrees(n)
    ensures 1 + |ChildVisits(n)| == Size(n)
    decreases n, 0
  {
    match n
    case MemberExpression(o, p) =>
      VisitsEveryNodeOnce(o, Some(n), Some("object"), None);
      VisitsEveryNodeOnce(p, Some(n), Some("property"), None);
      NodesOfAppend(Visits(o, Some(n), Some("object"), None), Visits(p, Some(n), Some("property"), None));
    case CallExpression(c, args) =>
      VisitsEveryNodeOnce(c, Some(n), Some("callee"), None);
      VisitsAllEveryNodeOnce(args, n, "arguments", 0);
      NodesOfAppend(Visits(c, Some(n), Some("callee"), None), VisitsAll(args, n, "arguments", 0));
    case EqualityOperation(_, l, r) =>
      VisitsEveryNodeOnce(l, Some(n), Some("arguments"), Some(0));
      VisitsEveryNodeOnce(r, Some(n), Some("arguments"), Some(1));
      NodesOfAppend(Visits(l, Some(n), Some("arguments"), Some(0)), Visits(r, Some(n), Some("arguments"), Some(1)));
    case _ =>
      assert ChildVisits(n) == [];
  }


  lemma {:induction false} VisitsAllEveryNodeOnce(args: seq<Node>, parent: Node, key: string, from: nat)
    ensures NodesOf(VisitsAll(args, parent, key, from)) == SubtreesAll(args)
    ensures |VisitsAll(args, parent, key, from)| == SizeAll(args)
    decreases args
  {
    if args != [] {
      VisitsEveryNodeOnce(args[0], Some(parent), Some(key), Some(from));
      VisitsAllEveryNodeOnce(args[1..], parent, key, from + 1);
      NodesOfAppend(Visits(args[0], Some(parent), Some(key), Some(from)), VisitsAll(args[1..], parent, key, from + 1));
    }
  }

  // -----------------------------------------------------------------------
  // Pre-order, with parent, key and index of each visited child

  /** Record `i` names its parent, and the parent's field `key` (at
      position `index`) holds the record's node. */
  predicate ChildRecord(v: seq<VisitRecord>, i: int)
    requires 0 <= i < |v|
  {
    v[i].parent.Some? && v[i].key.Some?
    && ChildAt(v[i].parent.value, v[i].key.value, v[i].index) == Some(v[i].node)
  }

  /** Record `i` has a parent that an earlier record visited. */
  predicate EarlierParent(v: seq<VisitRecord>, i: int)
    requires 0 <= i < |v| && v[i].parent.Some?
  {
    exists j :: 0 <= j < i && v[j].node == v[i].parent.value
  }

  /** Record `i` is a child record whose parent is `root` or the node of an
      earlier record. */
  predicate LinkedAt(v: seq<VisitRecord>, i: int, root: Node)
    requires 0 <= i < |v|
  {
    ChildRecord(v, i) && (v[i].parent.value == root || EarlierParent(v, i))
  }

  predicate LinkedUnder(v: seq<VisitRecord>, root: Node) {
    forall i :: 0 <= i < |v| ==> LinkedAt(v, i, root)
  }

  lemma LinkedAppend(a: seq<VisitRecord>, b: seq<VisitRecord>, root: Node)
    requires LinkedUnder(a, root) && LinkedUnder(b, root)
    ensures LinkedUnder(a + b, root)
  {
    var v := a + b;
    forall i | 0 <= i < |v|
      ensures LinkedAt(v, i, root)
    {
      if i < |a| {
        assert v[i] == a[i] && LinkedAt(a, i, root);
        if a[i].parent.value != root {
          var j :| 0 <= j < i && a[j].node == a[i].parent.value;
          assert v[j] == a[j];
          assert EarlierParent(v, i);
        }
      } else {
        var k := i - |a|;
        assert v[i] == b[k] && LinkedAt(b, k, root);
        if b[k].parent.value != root {
          var j :| 0 <= j < k && b[j].node == b[k].parent.value;
          assert v[|a| + j] == b[j];
          assert EarlierParent(v, i);
        }
      }
    }
  }

  /** A child visited under `root`, followed by its own descendants. */
  lemma LinkedCons(root: Node, child: Node, key: string, index: Option<nat>, rest: seq<VisitRecord>)
    requires ChildAt(root, key, index) == Some(child)
    requires LinkedUnder(rest, child)
    ensures LinkedUnder([VisitRecord(child, Some(root), Some(key), index)] + rest, root)
  {
    var v := [VisitRecord(child, Some(root), Some(key), index)] + rest;
    forall i | 0 <= i < |v|
      ensures LinkedAt(v, i, root)
    {
      if i > 0 {
        assert v[i] == rest[i - 1] && LinkedAt(rest, i - 1, child);
        if rest[i - 1].parent.value == child {
          assert v[0].node == child;
        } else {
          var j :| 0 <= j < i - 1 && rest[j].node == rest[i - 1].parent.value;
          assert v[j + 1] == rest[j];
        }
        assert EarlierParent(v, i);
      }
    }
  }

  lemma {:induction false} ChildVisitsLinked(n: Node)
    ensures LinkedUnder(ChildVisits(n), n)
    decreases n
  {
    match n
    case MemberExpression(o, p) =>
      ChildVisitsLinked(o);
      ChildVisitsLinked(p);
      LinkedCons(n, o, "object", None, ChildVisits(o));
      LinkedCons(n, p, "property", None, ChildVisits(p));
      LinkedAppend(Visits(o, Some(n), Some("object"), None), Visits(p, Some(n), Some("property"), None), n);
    case CallExpression(c, args) =>
      ChildVisitsLinked(c);
      LinkedCons(n, c, "callee", None, ChildVisits(c));
      assert n.arguments[0..] == args;
      VisitsAllLinked(args, n, 0);
      LinkedAppend(Visits(c, Some(n), Some("callee"), None), VisitsAll(args, n, "arguments", 0), n);
    case EqualityOperation(_, l, r) =>
      ChildVisitsLinked(l);
      ChildVisitsLinked(r);
      LinkedCons(n, l, "arguments", Some(0), ChildVisits(l));
      LinkedCons(n, r, "arguments", Some(1), ChildVisits(r));
      LinkedAppend(Visits(l, Some(n), Some("arguments"), Some(0)), Visits(r, Some(n), Some("arguments"), Some(1)), n);
    case _ =>
  }

  lemma {:induction false} VisitsAllLinked(args: seq<Node>, parent: Node, from: nat)
    requires parent.CallExpression?
    requires from + |args| == |parent.arguments| && parent.arguments[from..] == args
    ensures LinkedUnder(VisitsAll(args, parent, "arguments", from), parent)
    decreases args
  {
    if args != [] {
      assert parent.arguments[from] == args[0];
      ChildVisitsLinked(args[0]);
      LinkedCons(parent, args[0], "arguments", Some(from), ChildVisits(args[0]));
      assert parent.arguments[from + 1..] == args[1..];
      VisitsAllLinked(args[1..], parent, from + 1);
      LinkedAppend(Visits(args[0], Some(parent), Some("arguments"), Some(from)), VisitsAll(args[1..], parent, "arguments", from + 1), parent);
    }
  }

  /** `visit` is a pre-order walk: the root comes first with no parent, and
      every later call passes the containing node as parent (visited
      earlier), the field name as key, and the array position as index
      exactly for array fields. */
  lemma VisitIsPreOrder(ast: Node)
    ensures Visit(ast)[0] == VisitRecord(ast, None, None, None)
    ensures forall i :: 0 < i < |Visit(ast)| ==> ChildRecord(Visit(ast), i) && EarlierParent(Visit(ast), i)
  {
    var v := Visit(ast);
    var c := ChildVisits(ast);
    ChildVisitsLinked(ast);
    forall i | 0 < i < |v|
      ensures ChildRecord(v, i) && EarlierParent(v, i)
    {
      assert v[i] == c[i - 1] && LinkedAt(c, i - 1, ast);
      if c[i - 1].parent.value == ast {
        assert v[0].node == ast;
      } else {
        var j :| 0 <= j < i - 1 && c[j].node == c[i - 1].parent.value;
        assert v[j + 1] == c[j];
      }
    }
  }

  /** Only node-valued fields are walked, so the literal and name nodes,
      whose other fields are primitive, have no visited children. */
  lemma LeavesHaveNoChildren(n: Node)
    requires n.NumericLiteral? || n.StringLiteral? || n.Identifier? || n.Variable?
    ensures Visit(n) == [VisitRecord(n, None, None, None)]
  {
    assert ChildVisits(n) == [];
    assert Visit(n) == [VisitRecord(n, None, None, None)] + [];
  }

  /** Key and index agree: an index is passed exactly for the entries of an
      `arguments` array. */
  lemma IndexOnlyForArrays(ast: Node, i: int)
    requires 0 < i < |Visit(ast)|
    ensures Visit(ast)[i].index.Some? <==> Visit(ast)[i].key == Some("arguments")
  {
    VisitIsPreOrder(ast);
    assert ChildRecord(Visit(ast), i);
  }

  // -----------------------------------------------------------------------
  // The order of the children

  /** The calls `_visit` makes directly on the children of `n`, in the
      order the fields are declared, array elements by ascending index. */
  function DirectChildren(n: Node): seq<VisitRecord> {
    match n
    case MemberExpression(o, p) =>
      [VisitRecord(o, Some(n), Some("object"), None), VisitRecord(p, Some(n), Some("property"), None)]
    case CallExpression(c, args) =>
      [VisitRecord(c, Some(n), Some("callee"), None)] + ArgumentRecords(n, args, 0)
    case EqualityOperation(_, l, r) =>
      [VisitRecord(l, Some(n), Some("arguments"), Some(0)), VisitRecord(r, Some(n), Some("arguments"), Some(1))]
    case _ => []
  }

  /** Element `i` of the array `args` of `parent`, at position `from + i`. */
  function ArgumentRecords(parent: Node, args: seq<Node>, from: nat): (recs: seq<VisitRecord>)
    ensures |recs| == |args|
    ensures forall i :: 0 <= i < |args| ==>
      recs[i] == VisitRecord(args[i], Some(parent), Some("arguments"), Some(from + i))
  {
    seq(|args|, i requires 0 <= i < |args| => VisitRecord(args[i], Some(parent), Some("arguments"), Some(from + i)))
  }

  /** The records of `v` whose parent is `n`, in the order of `v`. */
  function CallsUnder(v: seq<VisitRecord>, n: Node): seq<VisitRecord> {
    if v == [] then []
    else (if v[0].parent == Some(n) then [v[0]] else []) + CallsUnder(v[1..], n)
  }

  lemma {:induction false} CallsUnderAppend(a: seq<VisitRecord>, b: seq<VisitRecord>, n: Node)
    ensures CallsUnder(a + b, n) == CallsUnder(a, n) + CallsUnder(b, n)
    decreases |a|
  {
    if a == [] {
      assert a + b == b;
    } else {
      var head := if a[0].parent == Some(n) then [a[0]] else [];
      assert (a + b)[0] == a[0];
      assert (a + b)[1..] == a[1..] + b;
      assert CallsUnder(a + b, n) == head + CallsUnder(a[1..] + b, n);
      CallsUnderAppend(a[1..], b, n);
      assert CallsUnder(a, n) == head + CallsUnder(a[1..], n);
    }
  }

  lemma {:induction false} SizeAllBounds(args: seq<Node>, i: nat)
    requires i < |args|
    ensures Size(args[i]) <= SizeAll(args)
    decreases i
  {
    if i > 0 {
      SizeAllBounds(args[1..], i - 1);
    }
  }

  /** A node smaller than `n` never passes `n` as parent below itself. */
  lemma {:induction false} NoCallsUnderLarger(m: Node, n: Node)
    requires Size(m) < Size(n)
    ensures CallsUnder(ChildVisits(m), n) == []
    decreases m, 1
  {
    match m
    case MemberExpression(o, p) =>
      VisitsUnderLarger(o, m, "object", None, n);
      VisitsUnderLarger(p, m, "property", None, n);
      CallsUnderAppend(Visits(o, Some(m), Some("object"), None), Visits(p, Some(m), Some("property"), None), n);
    case CallExpression(c, args) =>
      VisitsUnderLarger(c, m, "callee", None, n);
      AllUnderLarger(args, m, 0, n);
      CallsUnderAppend(Visits(c, Some(m), Some("callee"), None), VisitsAll(args, m, "arguments", 0), n);
    case EqualityOperation(_, l, r) =>
      VisitsUnderLarger(l, m, "arguments", Some(0), n);
      VisitsUnderLarger(r, m, "arguments", Some(1), n);
      CallsUnderAppend(Visits(l, Some(m), Some("arguments"), Some(0)), Visits(r, Some(m), Some("arguments"), Some(1)), n);
    case _ =>
  }

  lemma {:induction false} VisitsUnderLarger(c: Node, m: Node, key: string, index: Option<nat>, n: Node)
    requires Size(c) < Size(m) < Size(n)
    ensures CallsUnder(Visits(c, Some(m), Some(key), index), n) == []
    decreases c, 2
  {
    var v := Visits(c, Some(m), Some(key), index);
    assert v[0].parent != Some(n);
    assert v[1..] == ChildVisits(c);
    NoCallsUnderLarger(c, n);
  }

  lemma {:induction false} AllUnderLarger(args: seq<Node>, m: Node, from: nat, n: Node)
    requires SizeAll(args) < Size(m) < Size(n)
    ensures CallsUnder(VisitsAll(args, m, "arguments", from), n) == []
    decreases args
  {
    if args != [] {
      VisitsUnderLarger(args[0], m, "arguments", Some(from), n);
      AllUnderLarger(args[1..], m, from + 1, n);
      CallsUnderAppend(Visits(args[0], Some(m), Some("arguments"), Some(from)), VisitsAll(args[1..], m, "arguments", from + 1), n);
    }
  }

  /** One child visited under `n`: the call on it, and nothing below it
      passes `n` again. */
  lemma ChildCallUnder(c: Node, n: Node, key: string, index: Option<nat>)
    requires Size(c) < Size(n)
    ensures CallsUnder(Visits(c, Some(n), Some(key), index), n) == [VisitRecord(c, Some(n), Some(key), index)]
  {
    var v := Visits(c, Some(n), Some(key), index);
    assert v[1..] == ChildVisits(c);
    NoCallsUnderLarger(c, n);
  }

  lemma {:induction false} ArgumentCallsUnder(args: seq<Node>, n: Node, from: nat)
    requires n.CallExpression? && SizeAll(args) < Size(n)
    ensures CallsUnder(VisitsAll(args, n, "arguments", from), n) == ArgumentRecords(n, args, from)
    decreases args
  {
    if args != [] {
      SizeAllBounds(args, 0);
      ChildCallUnder(args[0], n, "arguments", Some(from));
      ArgumentCallsUnder(args[1..], n, from + 1);
      CallsUnderAppend(Visits(args[0], Some(n), Some("arguments"), Some(from)), VisitsAll(args[1..], n, "arguments", from + 1), n);
    }
  }

  /** The walk calls `_visit` on the children of a node in field order:
      `object` before `property`, `callee` before the arguments, the
      elements of an array by ascending index. No deeper call passes the
      same node as parent. */
  lemma ChildVisitsInFieldOrder(n: Node)
    ensures CallsUnder(ChildVisits(n), n) == DirectChildren(n)
  {
    match n
    case MemberExpression(o, p) =>
      ChildCallUnder(o, n, "object", None);
      ChildCallUnder(p, n, "property", None);
      CallsUnderAppend(Visits(o, Some(n), Some("object"), None), Visits(p, Some(n), Some("property"), None), n);
    case CallExpression(c, args) =>
      ChildCallUnder(c, n, "callee", None);
      ArgumentCallsUnder(args, n, 0);
      CallsUnderAppend(Visits(c, Some(n), Some("callee"), None), VisitsAll(args, n, "arguments", 0), n);
    case EqualityOperation(_, l, r) =>
      ChildCallUnder(l, n, "arguments", Some(0));
      ChildCallUnder(r, n, "arguments", Some(1));
      CallsUnderAppend(Visits(l, Some(n), Some("arguments"), Some(0)), Visits(r, Some(n), Some("arguments"), Some(1)), n);
    case _ =>
  }

  // -----------------------------------------------------------------------
  // Callback dispatch

  /** A callback throws nothing on this record. */
  predicate Silent(callbacks: map<string, Callback>, name: string, rec: VisitRecord)
    requires name in callbacks
  {
    callbacks[name](rec).None?
  }

  lemma {:induction false} RunOnOk(callbacks: map<string, Callback>, names: seq<string>, rec: VisitRecord)
    requires forall i :: 0 <= i < |names| ==> names[i] in callbacks
    ensures RunOn(callbacks, names, rec).Ok? <==>
      forall i :: 0 <= i < |names| ==> Silent(callbacks, names[i], rec)
    ensures RunOn(callbacks, names, rec).Err? ==>
      exists i :: 0 <= i < |names| && callbacks[names[i]](rec) == Some(RunOn(callbacks, names, rec).error)
    decreases |names|
  {
    if names != [] {
      RunOnOk(callbacks, names[1..], rec);
      if callbacks[names[0]](rec).None? {
        if RunOn(callbacks, names, rec).Err? {
          var i :| 0 <= i < |names[1..]| && callbacks[names[1..][i]](rec) == Some(RunOn(callbacks, names, rec).error);
          assert names[i + 1] == names[1..][i];
        }
        forall i | 0 < i < |names| ensures names[i] == names[1..][i - 1] { }
      }
    }
  }

  /** The callbacks fired on one visited node all return normally. */
  predicate RecordOk(callbacks: map<string, Callback>, rec: VisitRecord) {
    RunOn(callbacks, Dispatch(callbacks.Keys, rec), rec).Ok?
  }

  /** ... and on every visited node of `visits`. */
  predicate AllOk(callbacks: map<string, Callback>, visits: seq<VisitRecord>) {
    forall i :: 0 <= i < |visits| ==> RecordOk(callbacks, visits[i])
  }

  lemma AllOkAppend(callbacks: map<string, Callback>, a: seq<VisitRecord>, b: seq<VisitRecord>)
    ensures AllOk(callbacks, a + b) <==> AllOk(callbacks, a) && AllOk(callbacks, b)
  {
    if AllOk(callbacks, a) && AllOk(callbacks, b) {
      forall i | 0 <= i < |a + b| ensures RecordOk(callbacks, (a + b)[i]) {
        if i >= |a| {
          assert (a + b)[i] == b[i - |a|];
        }
      }
    }
    if AllOk(callbacks, a + b) {
      forall i | 0 <= i < |a| ensures RecordOk(callbacks, a[i]) {
        assert (a + b)[i] == a[i];
      }
      forall i | 0 <= i < |b| ensures RecordOk(callbacks, b[i]) {
        assert (a + b)[|a| + i] == b[i];
      }
    }
  }

  /** The walk completes exactly when no callback fired on any visited
      node throws; otherwise the error is one a fired callback threw. */
  lemma {:induction false} RunCallbacksOk(callbacks: map<string, Callback>, visits: seq<VisitRecord>)
    ensures RunCallbacks(callbacks, visits).Ok? <==> AllOk(callbacks, visits)
    ensures RunCallbacks(callbacks, visits).Err? ==>
      exists i :: 0 <= i < |visits|
        && RunOn(callbacks, Dispatch(callbacks.Keys, visits[i]), visits[i]) == Err(RunCallbacks(callbacks, visits).error)
    decreases |visits|
  {
    if visits != [] {
      RunCallbacksOk(callbacks, visits[1..]);
      if RecordOk(callbacks, visits[0]) {
        if RunCallbacks(callbacks, visits).Err? {
          var i :| 0 <= i < |visits[1..]|
            && RunOn(callbacks, Dispatch(callbacks.Keys, visits[1..][i]), visits[1..][i]) == Err(RunCallbacks(callbacks, visits).error);
          assert visits[i + 1] == visits[1..][i];
        }
        forall i | 0 < i < |visits| ensures visits[i] == visits[1..][i - 1] { }
      }
    }
  }

  /** No node type is called `Node`, so with a map holding a `Node`
      callback and a type callback, `Node` fires first and the type callback
      second. */
  lemma NodeFiresBeforeType(keys: set<string>, rec: VisitRecord)
    requires "Node" in keys && TypeOf(rec.node) in keys
    ensures Dispatch(keys, rec) == ["Node", TypeOf(rec.node)]
  {
    NodeIsNoType(rec.node);
  }

  lemma NodeIsNoType(n: Node)
    ensures TypeOf(n) != "Node"
  {
    match n
    case NumericLiteral(_) => assert TypeOf(n)[0] == 'N' && TypeOf(n)[1] == 'u';
    case StringLiteral(_) => assert TypeOf(n)[0] == 'S';
    case Identifier(_) => assert TypeOf(n)[0] == 'I';
    case Variable(_) => assert TypeOf(n)[0] == 'V';
    case MemberExpression(_, _) => assert TypeOf(n)[0] == 'M';
    case CallExpression(_, _) => assert TypeOf(n)[0] == 'C';
    case EqualityOperation(_, _, _) => assert TypeOf(n)[0] == 'E';
  }

  // -----------------------------------------------------------------------
  // Evaluation

  /** An Identifier reads the predefined-identifier object and falls back
      to its own name when the entry is undefined. */
  lemma EvalIdentifier(name: string, env: Env, ipRange: seq<Value> -> Value)
    requires env.predefIdent.VObj?
    ensures Eval(Identifier(name), env, ipRange) ==
      Ok(if name in env.predefIdent.fields && env.predefIdent.fields[name] != VUndefined
         then env.predefIdent.fields[name] else VStr(name))
  {
  }

  /** A Variable throws ExecutionError exactly when its entry is undefined. */
  lemma EvalVariable(name: string, env: Env, ipRange: seq<Value> -> Value)
    requires env.vars.VObj?
    ensures Eval(Variable(name), env, ipRange).Err? <==>
      name !in env.vars.fields || env.vars.fields[name] == VUndefined
    ensures Eval(Variable(name), env, ipRange).Err? ==>
      Eval(Variable(name), env, ipRange).error == ExecutionError(name)
  {
  }

  /** Arguments are evaluated left to right: the list succeeds exactly when
      each argument does, with the values in order, and a failure is the
      first failing argument's error. */
  lemma {:induction false} EvalAllInOrder(args: seq<Node>, env: Env, ipRange: seq<Value> -> Value)
    ensures EvalAll(args, env, ipRange).Ok? <==> forall i :: 0 <= i < |args| ==> Eval(args[i], env, ipRange).Ok?
    ensures EvalAll(args, env, ipRange).Ok? ==>
      forall i :: 0 <= i < |args| ==> Eval(args[i], env, ipRange) == Ok(EvalAll(args, env, ipRange).value[i])
    ensures EvalAll(args, env, ipRange).Err? ==>
      exists k :: 0 <= k < |args| && Eval(args[k], env, ipRange) == Err(EvalAll(args, env, ipRange).error)
        && forall i :: 0 <= i < k ==> Eval(args[i], env, ipRange).Ok?
    decreases args
  {
    if args != [] {
      EvalAllInOrder(args[1..], env, ipRange);
      forall i | 0 < i < |args| ensures args[i] == args[1..][i - 1] { }
      if Eval(args[0], env, ipRange).Ok? && EvalAll(args, env, ipRange).Err? {
        var k :| 0 <= k < |args[1..]| && Eval(args[1..][k], env, ipRange) == Err(EvalAll(args, env, ipRange).error)
          && forall i :: 0 <= i < k ==> Eval(args[1..][i], env, ipRange).Ok?;
        assert Eval(args[k + 1], env, ipRange) == Err(EvalAll(args, env, ipRange).error);
      }
    }
  }

  /** A call evaluates its arguments first, then its callee: an argument's
      error wins over the callee's, a function callee is applied to the
      argument values, and any other callee is the `eval` fallback. */
  lemma EvalCall(c: Node, args: seq<Node>, env: Env, ipRange: seq<Value> -> Value)
    ensures EvalAll(args, env, ipRange).Err? ==>
      Eval(CallExpression(c, args), env, ipRange) == Err(EvalAll(args, env, ipRange).error)
    ensures EvalAll(args, env, ipRange).Ok? && Eval(c, env, ipRange).Err? ==>
      Eval(CallExpression(c, args), env, ipRange) == Err(Eval(c, env, ipRange).error)
    ensures EvalAll(args, env, ipRange).Ok? && Eval(c, env, ipRange).Ok? ==>
      Eval(CallExpression(c, args), env, ipRange) ==
        if Eval(c, env, ipRange).value.VFun?
        then Ok(Apply(Eval(c, env, ipRange).value.f, EvalAll(args, env, ipRange).value, ipRange))
        else Err(DynamicEval)
  {
  }

  /** `==` evaluates the left side, then the right, and compares the two
      values; an error of either side is thrown, the left one first. */
  lemma EvalEquals(l: Node, r: Node, env: Env, ipRange: seq<Value> -> Value)
    ensures Eval(l, env, ipRange).Err? ==>
      Eval(EqualityOperation("==", l, r), env, ipRange) == Err(Eval(l, env, ipRange).error)
    ensures Eval(l, env, ipRange).Ok? && Eval(r, env, ipRange).Err? ==>
      Eval(EqualityOperation("==", l, r), env, ipRange) == Err(Eval(r, env, ipRange).error)
    ensures Eval(l, env, ipRange).Ok? && Eval(r, env, ipRange).Ok? ==>
      Eval(EqualityOperation("==", l, r), env, ipRange) ==
        Ok(VBool(Eval(l, env, ipRange).value == Eval(r, env, ipRange).value))
  {
  }

  /** A call of the builtin `in` returns whether the first argument is
      strictly equal to one of the others. */
  lemma EvalInCall(args: seq<Node>, env: Env, ipRange: seq<Value> -> Value)
    requires env.predefIdent == VObj(PredefIdentSpec)
    requires EvalAll(args, env, ipRange).Ok?
    ensures Eval(CallExpression(Identifier("in"), args), env, ipRange) ==
      Ok(VBool(In(EvalAll(args, env, ipRange).value)))
  {
    assert "in" in PredefIdentSpec;
  }

  /** `!=` is the negation of `==` on the same operands. */
  lemma NotEqualNegatesEqual(l: Node, r: Node, env: Env, ipRange: seq<Value> -> Value)
    ensures Eval(EqualityOperation("!=", l, r), env, ipRange).Ok? <==> Eval(EqualityOperation("==", l, r), env, ipRange).Ok?
    ensures Eval(EqualityOperation("==", l, r), env, ipRange).Ok? ==>
      Eval(EqualityOperation("!=", l, r), env, ipRange).value ==
        VBool(!Eval(EqualityOperation("==", l, r), env, ipRange).value.b)
  {
  }

  /** A member access yields the indexed field, called with no arguments
      when it is a function. */
  lemma EvalMemberCallsGetter(o: Node, p: Node, env: Env, ipRange: seq<Value> -> Value, result: Value)
    requires Eval(o, env, ipRange).Ok? && Eval(o, env, ipRange).value.VObj?
    requires Eval(p, env, ipRange).Ok? && Eval(p, env, ipRange).value.VStr?
    requires Eval(p, env, ipRange).value.s in Eval(o, env, ipRange).value.fields
    requires Eval(o, env, ipRange).value.fields[Eval(p, env, ipRange).value.s] == VFun(Getter(result))
    ensures Eval(MemberExpression(o, p), env, ipRange) == Ok(result)
  {
  }

  /** The other outcomes of a member access: the object is evaluated before
      the property and a failure of either is thrown; an undefined object is
      a TypeError; an absent key, or any key of a primitive, gives
      undefined; a field that is no function is returned as it is; a
      builtin field is called with no arguments, so `in` gives false. */
  lemma EvalMemberAccess(o: Node, p: Node, env: Env, ipRange: seq<Value> -> Value)
    ensures Eval(o, env, ipRange).Err? ==>
      Eval(MemberExpression(o, p), env, ipRange) == Err(Eval(o, env, ipRange).error)
    ensures Eval(o, env, ipRange).Ok? && Eval(p, env, ipRange).Err? ==>
      Eval(MemberExpression(o, p), env, ipRange) == Err(Eval(p, env, ipRange).error)
    ensures Eval(o, env, ipRange) == Ok(VUndefined) && Eval(p, env, ipRange).Ok? ==>
      Eval(MemberExpression(o, p), env, ipRange) == Err(TypeError(UndefinedObject))
    ensures (Eval(o, env, ipRange).Ok? && !Eval(o, env, ipRange).value.VObj? && !Eval(o, env, ipRange).value.VUndefined?
             && Eval(p, env, ipRange).Ok?) ==>
      Eval(MemberExpression(o, p), env, ipRange) == Ok(VUndefined)
    ensures (Eval(o, env, ipRange).Ok? && Eval(o, env, ipRange).value.VObj? && Eval(p, env, ipRange).Ok?
             && Eval(p, env, ipRange).value.VStr?) ==>
      var fields, key := Eval(o, env, ipRange).value.fields, Eval(p, env, ipRange).value.s;
      && (key !in fields ==> Eval(MemberExpression(o, p), env, ipRange) == Ok(VUndefined))
      && (key in fields && !fields[key].VFun? ==> Eval(MemberExpression(o, p), env, ipRange) == Ok(fields[key]))
      && (key in fields && fields[key] == VFun(InFn) ==> Eval(MemberExpression(o, p), env, ipRange) == Ok(VBool(false)))
      && (key in fields && fields[key] == VFun(IpRangeFn) ==> Eval(MemberExpression(o, p), env, ipRange) == Ok(ipRange([])))
  {
  }

  // -----------------------------------------------------------------------
  // The flat environment

  /** A tree that names something: an Identifier or Variable somewhere. */
  predicate Names(n: Node)
    decreases n
  {
    match n
    case Identifier(_) => true
    case Variable(_) => true
    case MemberExpression(o, p) => Names(o) || Names(p)
    case CallExpression(c, args) => Names(c) || exists i :: 0 <= i < |args| && Names(args[i])
    case EqualityOperation(_, l, r) => Names(l) || Names(r)
    case _ => false
  }

  /** An environment object without `vars` and `predefIdent` keys (the
      flat object `Workflow.executeRules` builds) makes every tree that
      names an identifier or variable fail. */
  lemma {:induction false} FlatEnvironmentFails(n: Node, flat: Value, ipRange: seq<Value> -> Value)
    requires flat.VObj? && "vars" !in flat.fields && "predefIdent" !in flat.fields
    requires Names(n)
    ensures Eval(n, EnvOf(flat), ipRange).Err?
    decreases n
  {
    var env := EnvOf(flat);
    match n
    case Identifier(_) =>
    case Variable(_) =>
    case MemberExpression(o, p) =>
      if Names(o) {
        FlatEnvironmentFails(o, flat, ipRange);
      } else {
        FlatEnvironmentFails(p, flat, ipRange);
      }
    case CallExpression(c, args) =>
      if exists i :: 0 <= i < |args| && Names(args[i]) {
        var i :| 0 <= i < |args| && Names(args[i]);
        FlatEnvironmentFails(args[i], flat, ipRange);
        EvalAllInOrder(args, env, ipRange);
      } else {
        FlatEnvironmentFails(c, flat, ipRange);
      }
    case EqualityOperation(_, l, r) =>
      if Names(l) {
        FlatEnvironmentFails(l, flat, ipRange);
      } else {
        FlatEnvironmentFails(r, flat, ipRange);
      }
  }
}
