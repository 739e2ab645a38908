/** The nodes the parser builds. Each node of the source also carries an
    `evaluate` closure; here evaluation is the one function `Interpreter.Eval`
    over these values. */
module Ast {

  /** The seven node kinds. Fields are listed in the order the source's
      object literals declare them, which is the order the visitor walks.
      An EqualityOperation keeps its operands in an `arguments` array
      `[left, right]`; here they are the two fields `left` and `right`. */
  datatype Node =
    | NumericLiteral(number: nat)  // the source field `value`
    | StringLiteral(value: string)
    | Identifier(name: string)
    | Variable(name: string)
    | MemberExpression(obj: Node, property: Node)  // `object`, a Dafny keyword
    | CallExpression(callee: Node, arguments: seq<Node>)
    | EqualityOperation(operator: string, left: Node, right: Node)

  /** The node's `type` field. */
  function TypeOf(n: Node): string {
    match n
    case NumericLiteral(_) => "NumericLiteral"
    case StringLiteral(_) => "StringLiteral"
    case Identifier(_) => "Identifier"
    case Variable(_) => "Variable"
    case MemberExpression(_, _) => "MemberExpression"
    case CallExpression(_, _) => "CallExpression"
    case EqualityOperation(_, _, _) => "EqualityOperation"
  }

  /** Number of nodes in the tree. */
  function Size(n: Node): nat
    decreases n
  {
    match n
    case MemberExpression(o, p) => 1 + Size(o) + Size(p)
    case CallExpression(c, args) => 1 + Size(c) + SizeAll(args)
    case EqualityOperation(_, l, r) => 1 + Size(l) + Size(r)
    case _ => 1
  }

  function SizeAll(ns: seq<Node>): nat
    decreases ns
  {
    if ns == [] then 0 else Size(ns[0]) + SizeAll(ns[1..])
  }

  /** No Variable node anywhere in the tree. */
  predicate NoVariables(n: Node)
    decreases n
  {
    match n
    case Variable(_) => false
    case MemberExpression(o, p) => NoVariables(o) && NoVariables(p)
    case CallExpression(c, args) => NoVariables(c) && forall i :: 0 <= i < |args| ==> NoVariables(args[i])
    case EqualityOperation(_, l, r) => NoVariables(l) && NoVariables(r)
    case _ => true
  }

  // -----------------------------------------------------------------------
  // The shapes each production of the grammar returns

  /** PrimaryExpression (and Argument): a Variable, an Identifier or a literal. */
  predicate IsPrimary(n: Node) {
    n.Variable? || n.Identifier? || n.NumericLiteral? || n.StringLiteral?
  }

  /** MemberExpression: a primary expression followed by `.Identifier`
      suffixes, folded to the left. */
  predicate IsMemberChain(n: Node)
    decreases n
  {
    IsPrimary(n) || (n.MemberExpression? && IsMemberChain(n.obj) && n.property.Identifier?)
  }

  /** CallMemberExpression: a member chain, called at most once with
      primary-expression arguments. */
  predicate IsCallMember(n: Node) {
    IsMemberChain(n)
    || (n.CallExpression? && IsMemberChain(n.callee)
        && forall i :: 0 <= i < |n.arguments| ==> IsPrimary(n.arguments[i]))
  }

  /** Expression: a call/member expression, optionally compared once with a
      primary expression by `==` or `!=`. */
  predicate IsExpression(n: Node) {
    IsCallMember(n)
    || (n.EqualityOperation? && (n.operator == "==" || n.operator == "!=")
        && IsCallMember(n.left) && IsPrimary(n.right))
  }
}
