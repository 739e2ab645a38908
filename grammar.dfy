/** The recursive-descent parser as functions of the parser's state: the
    cursor of its tokenizer and its one-token lookahead. Every production
    returns its node and the state after it, or the exception it throws.
    The class `Parsing.Parser` is proved to follow these functions. */
module Grammar {
  import opened Wrappers
  import opened Errors
  import opened JsValues
  import opened Lexer
  import opened Ast

  datatype PState = PState(cursor: nat, lookahead: Option<Token>)

  type PResult<T> = Result<(T, PState), Error>

  /** The cursor is inside the input. */
  predicate InRange(str: string, ps: PState) {
    ps.cursor <= |str|
  }

  /** A state the tokenizer can produce: the cursor is inside the input and
      the lookahead is a token the table can emit. */
  predicate Reachable(str: string, ps: PState) {
    InRange(str, ps) && (ps.lookahead.Some? ==> WellFormedToken(ps.lookahead.value))
  }

  /** Input left, counting the lookahead as one more unit: every `_eat`
      makes it smaller. */
  function Measure(str: string, ps: PState): nat
    requires InRange(str, ps)
  {
    |str| - ps.cursor + (if ps.lookahead.Some? then 1 else 0)
  }

  /** One `getNextToken` call from `cursor`: the new cursor and lookahead. */
  function Next(str: string, cursor: nat): (r: Result<PState, Error>)
    requires cursor <= |str|
    ensures r.Ok? ==> Reachable(str, r.value) && Measure(str, r.value) <= |str| - cursor
  {
    var st := Scan(str[cursor..]);
    match st.result
    case Err(e) => Err(e)
    case Ok(t) => Ok(PState(cursor + st.consumed, t))
  }

  /** `_eat(kind)`: the lookahead must exist and have type `kind`; it is
      returned and the next token becomes the lookahead. */
  function Eat(str: string, ps: PState, kind: string): (r: PResult<Token>)
    requires InRange(str, ps)
    ensures r.Ok? ==> Reachable(str, r.value.1) && Measure(str, r.value.1) < Measure(str, ps)
    ensures r.Ok? <==> ps.lookahead.Some? && ps.lookahead.value.kind == kind && Next(str, ps.cursor).Ok?
    ensures r.Ok? ==> r.value.0 == ps.lookahead.value && r.value.1 == Next(str, ps.cursor).value
    ensures ps.lookahead.None? ==> r == Err(SyntaxError(UnexpectedEnd(kind)))
    ensures ps.lookahead.Some? && ps.lookahead.value.kind != kind ==>
      r == Err(SyntaxError(UnexpectedToken(ps.lookahead.value.value, kind)))
  {
    match ps.lookahead
    case None => Err(SyntaxError(UnexpectedEnd(kind)))
    case Some(token) =>
      if token.kind != kind then Err(SyntaxError(UnexpectedToken(token.value, kind)))
      else
        var next :- Next(str, ps.cursor);
        Ok((token, next))
  }

  /** What a production leaves behind on success: a state in range, and
      reachable when it consumed a token or started from one; no more input
      than before, and strictly less when it consumed a token. */
  predicate Progress<T>(str: string, ps: PState, r: PResult<T>, strict: bool)
    requires InRange(str, ps)
  {
    r.Ok? ==>
      (InRange(str, r.value.1)
       && (strict || Reachable(str, ps) ==> Reachable(str, r.value.1))
       && if strict then Measure(str, r.value.1) < Measure(str, ps)
          else Measure(str, r.value.1) <= Measure(str, ps))
  }

  /** `slice(1, -1)`: the text between the first and the last character. */
  function Unquote(v: string): (u: string)
    ensures |v| >= 2 ==> v == v[..1] + u + v[|v| - 1..]
    ensures |v| < 2 ==> u == ""
  {
    if |v| >= 2 then v[1..|v| - 1] else ""
  }

  // -----------------------------------------------------------------------
  // Productions

  /** Identifier: an IDENTIFIER token, named by its text. */
  function Identifier(str: string, ps: PState): (r: PResult<Node>)
    requires InRange(str, ps)
    ensures Progress(str, ps, r, true)
    ensures r.Ok? ==> ps.lookahead.Some? && r.value.0 == Node.Identifier(ps.lookahead.value.value)
  {
    var (token, after) :- Eat(str, ps, "IDENTIFIER");
    Ok((Node.Identifier(token.value), after))
  }

  /** Variable: a `$` token followed by an IDENTIFIER token. */
  function Variable(str: string, ps: PState): (r: PResult<Node>)
    requires InRange(str, ps)
    ensures Progress(str, ps, r, true)
    ensures r.Ok? ==> r.value.0.Variable?
  {
    var (_, ps1) :- Eat(str, ps, "$");
    match ps1.lookahead
    case None => Err(TypeError(NullLookahead))
    case Some(t) =>
      if t.kind == "IDENTIFIER" then
        var (token, after) :- Eat(str, ps1, "IDENTIFIER");
        Ok((Node.Variable(token.value), after))
      else Err(SyntaxError(NotAnIdentifier(t.value)))
  }

  /** NumericLiteral: a NUMBER token, valued as its digits. */
  function NumericLiteral(str: string, ps: PState): (r: PResult<Node>)
    requires InRange(str, ps)
    ensures Progress(str, ps, r, true)
    ensures r.Ok? ==>
      ps.lookahead.Some? && r.value.0 == Node.NumericLiteral(DigitsValue(ps.lookahead.value.value))
  {
    var (token, after) :- Eat(str, ps, "NUMBER");
    Ok((Node.NumericLiteral(DigitsValue(token.value)), after))
  }

  /** StringLiteral: a STRING token without its first and last character. */
  function StringLiteral(str: string, ps: PState): (r: PResult<Node>)
    requires InRange(str, ps)
    ensures Progress(str, ps, r, true)
    ensures r.Ok? ==>
      ps.lookahead.Some? && r.value.0 == Node.StringLiteral(Unquote(ps.lookahead.value.value))
  {
    var (token, after) :- Eat(str, ps, "STRING");
    Ok((Node.StringLiteral(Unquote(token.value)), after))
  }

  /** Literal: NUMBER or STRING; any other lookahead is a SyntaxError. */
  function Literal(str: string, ps: PState): (r: PResult<Node>)
    requires InRange(str, ps)
    ensures Progress(str, ps, r, true)
    ensures r.Ok? ==> r.value.0.NumericLiteral? || r.value.0.StringLiteral?
  {
    match ps.lookahead
    case None => Err(TypeError(NullLookahead))
    case Some(t) =>
      if t.kind == "NUMBER" then NumericLiteral(str, ps)
      else if t.kind == "STRING" then StringLiteral(str, ps)
      else Err(SyntaxError(NotALiteral))
  }

  /** PrimaryExpression, and Argument, whose switch is the same: `$` starts a
      Variable, IDENTIFIER an Identifier, anything else a Literal. */
  function Primary(str: string, ps: PState): (r: PResult<Node>)
    requires InRange(str, ps)
    ensures Progress(str, ps, r, true)
    ensures r.Ok? ==> IsPrimary(r.value.0)
    ensures r.Ok? && Reachable(str, ps) ==> NoVariables(r.value.0)
  {
    match ps.lookahead
    case None => Err(TypeError(NullLookahead))
    case Some(t) =>
      if t.kind == "$" then
        Variable(str, ps)
      else if t.kind == "IDENTIFIER" then Identifier(str, ps)
      else Literal(str, ps)
  }

  /** The `while (lookahead is '.')` loop of MemberExpression: each `.name`
      wraps the object built so far. */
  function MemberLoop(str: string, ps: PState, obj: Node): (r: PResult<Node>)
    requires InRange(str, ps)
    ensures Progress(str, ps, r, false)
    ensures r.Ok? && IsMemberChain(obj) ==> IsMemberChain(r.value.0)
    ensures r.Ok? && NoVariables(obj) ==> NoVariables(r.value.0)
    decreases Measure(str, ps)
  {
    if ps.lookahead.Some? && ps.lookahead.value.kind == "." then
      var dot :- Eat(str, ps, ".");
      var property :- Identifier(str, dot.1);
      var wrapped := MemberExpression(obj, property.0);
      assert NoVariables(obj) ==> NoVariables(wrapped);
      MemberLoop(str, property.1, wrapped)
    else
      Ok((obj, ps))
  }

  /** MemberExpression: a primary expression and its `.name` suffixes. */
  function Member(str: string, ps: PState): (r: PResult<Node>)
    requires InRange(str, ps)
    ensures Progress(str, ps, r, true)
    ensures r.Ok? ==> IsMemberChain(r.value.0)
    ensures r.Ok? && Reachable(str, ps) ==> NoVariables(r.value.0)
  {
    var (obj, ps1) :- Primary(str, ps);
    MemberLoop(str, ps1, obj)
  }

  /** The do-while of ArgumentList: an argument, then more while a `,` follows. */
  function ArgumentListFrom(str: string, ps: PState, acc: seq<Node>): (r: PResult<seq<Node>>)
    requires InRange(str, ps)
    ensures Progress(str, ps, r, true)
    decreases Measure(str, ps)
  {
    var (argument, ps1) :- Primary(str, ps);
    if ps1.lookahead.Some? && ps1.lookahead.value.kind == "," then
      var (_, ps2) :- Eat(str, ps1, ",");
      ArgumentListFrom(str, ps2, acc + [argument])
    else
      Ok((acc + [argument], ps1))
  }

  /** The list only appends: what was collected before stays in front, and
      at least one argument is added. */
  lemma {:induction false} ArgumentListExtends(str: string, ps: PState, acc: seq<Node>)
    requires InRange(str, ps)
    ensures var r := ArgumentListFrom(str, ps, acc);
      r.Ok? ==> |r.value.0| > |acc| && r.value.0[..|acc|] == acc
    decreases Measure(str, ps)
  {
    var r := ArgumentListFrom(str, ps, acc);
    if r.Ok? {
      var (argument, ps1) := Primary(str, ps).value;
      var acc1 := acc + [argument];
      if ps1.lookahead.Some? && ps1.lookahead.value.kind == "," {
        var ps2 := Eat(str, ps1, ",").value.1;
        assert r == ArgumentListFrom(str, ps2, acc1);
        ArgumentListExtends(str, ps2, acc1);
        assert r.value.0[..|acc|] == r.value.0[..|acc1|][..|acc|];
      } else {
        assert r.value.0 == acc1;
      }
    }
  }

  /** Every argument the list adds is a primary expression, free of
      Variable nodes when the list starts in a reachable state. */
  lemma ArgumentListShape(str: string, ps: PState, acc: seq<Node>)
    requires InRange(str, ps)
    ensures var r := ArgumentListFrom(str, ps, acc);
      r.Ok? ==> forall i :: |acc| <= i < |r.value.0| ==>
        IsPrimary(r.value.0[i]) && (Reachable(str, ps) ==> NoVariables(r.value.0[i]))
  {
    var r := ArgumentListFrom(str, ps, acc);
    if r.Ok? {
      forall i | |acc| <= i < |r.value.0|
        ensures IsPrimary(r.value.0[i]) && (Reachable(str, ps) ==> NoVariables(r.value.0[i]))
      {
        ArgumentAt(str, ps, acc, i);
      }
    }
  }

  /** The argument at position `i` of the list, for one `i`. */
  lemma {:induction false} ArgumentAt(str: string, ps: PState, acc: seq<Node>, i: nat)
    requires InRange(str, ps) && ArgumentListFrom(str, ps, acc).Ok?
    requires |acc| <= i < |ArgumentListFrom(str, ps, acc).value.0|
    ensures IsPrimary(ArgumentListFrom(str, ps, acc).value.0[i])
    ensures Reachable(str, ps) ==> NoVariables(ArgumentListFrom(str, ps, acc).value.0[i])
    decreases Measure(str, ps)
  {
    var args := ArgumentListFrom(str, ps, acc).value.0;
    var (argument, ps1) := Primary(str, ps).value;
    var acc1 := acc + [argument];
    if ps1.lookahead.Some? && ps1.lookahead.value.kind == "," {
      var ps2 := Eat(str, ps1, ",").value.1;
      assert args == ArgumentListFrom(str, ps2, acc1).value.0;
      if i == |acc| {
        ArgumentListExtends(str, ps2, acc1);
        assert args[..|acc1|][i] == acc1[i];
      } else {
        ArgumentAt(str, ps2, acc1, i);
      }
    } else {
      assert args == acc1;
    }
  }

  /** Arguments: `(`, an optional argument list, `)`. */
  function Arguments(str: string, ps: PState): (r: PResult<seq<Node>>)
    requires InRange(str, ps)
    ensures Progress(str, ps, r, true)
    ensures r.Ok? ==> forall i :: 0 <= i < |r.value.0| ==> IsPrimary(r.value.0[i]) && NoVariables(r.value.0[i])
  {
    var (_, ps1) :- Eat(str, ps, "(");
    match ps1.lookahead
    case None => Err(TypeError(NullLookahead))
    case Some(t) =>
      if t.kind == ")" then
        var (_, ps3) :- Eat(str, ps1, ")");
        Ok(([], ps3))
      else
        ArgumentListShape(str, ps1, []);
        var (args, ps2) :- ArgumentListFrom(str, ps1, []);
        var (_, ps3) :- Eat(str, ps2, ")");
        Ok((args, ps3))
  }

  /** CallExpression: the callee applied to its Arguments. */
  function Call(str: string, ps: PState, callee: Node): (r: PResult<Node>)
    requires InRange(str, ps)
    ensures Progress(str, ps, r, true)
    ensures r.Ok? ==>
      (r.value.0.CallExpression? && r.value.0.callee == callee
       && forall i :: 0 <= i < |r.value.0.arguments| ==>
            IsPrimary(r.value.0.arguments[i]) && NoVariables(r.value.0.arguments[i]))
  {
    var (args, after) :- Arguments(str, ps);
    Ok((CallExpression(callee, args), after))
  }

  /** CallMemberExpression: a member expression, called if `(` follows. */
  function CallMember(str: string, ps: PState): (r: PResult<Node>)
    requires InRange(str, ps)
    ensures Progress(str, ps, r, true)
    ensures r.Ok? ==> IsCallMember(r.value.0)
    ensures r.Ok? && Reachable(str, ps) ==> NoVariables(r.value.0)
  {
    var (member, ps1) :- Member(str, ps);
    if ps1.lookahead.Some? && ps1.lookahead.value.kind == "(" then
      Call(str, ps1, member)
    else
      Ok((member, ps1))
  }

  /** EqualityOperation: the operator token, then one primary expression. */
  function Equality(str: string, ps: PState, left: Node): (r: PResult<Node>)
    requires InRange(str, ps)
    ensures Progress(str, ps, r, true)
    ensures r.Ok? ==>
      (r.value.0.EqualityOperation? && r.value.0.left == left
       && ps.lookahead.Some? && r.value.0.operator == ps.lookahead.value.value
       && IsPrimary(r.value.0.right)
       && NoVariables(r.value.0.right))
  {
    var (op, ps1) :- Eat(str, ps, "EQUALITY_OPERATOR");
    var (right, ps2) :- Primary(str, ps1);
    Ok((EqualityOperation(op.value, left, right), ps2))
  }

  /** BinaryExpression (= Expression): after the left operand only an
      EQUALITY_OPERATOR or the end of input is accepted. */
  function Binary(str: string, ps: PState): (r: PResult<Node>)
    requires InRange(str, ps)
    ensures Progress(str, ps, r, true)
    ensures r.Ok? ==> IsExpression(r.value.0)
    ensures r.Ok? && Reachable(str, ps) ==> NoVariables(r.value.0)
  {
    var (left, ps1) :- CallMember(str, ps);
    match ps1.lookahead
    case None => Ok((left, ps1))
    case Some(t) =>
      if t.kind == "EQUALITY_OPERATOR" then Equality(str, ps1, left)
      else Err(SyntaxError(UnexpectedOperator(t.kind)))
  }

  /** `parse(s)`: prime the lookahead, then parse one Expression. */
  function Parse(s: string): (r: Result<Node, Error>)
    ensures r.Ok? ==> IsExpression(r.value) && NoVariables(r.value)
  {
    var ps :- Next(s, 0);
    var (node, _) :- Binary(s, ps);
    Ok(node)
  }
}
