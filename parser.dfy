/** The stateful parser: a tokenizer and a one-token lookahead, advanced by
    `Eat`. Each production is a method proved to do what the function of
    the same name in `Grammar` says. */
module Parsing {
  import opened Wrappers
  import opened Errors
  import opened Lexer
  import opened Tokenizing
  import opened Ast
  import JsValues
  import G = Grammar

  /** A method's result and final state agree with a production's outcome:
      the same node and state on success, the same exception on failure. */
  predicate Agrees<T(==)>(r: Result<T, Error>, spec: G.PResult<T>, now: G.PState) {
    match spec
    case Ok((v, after)) => r == Ok(v) && now == after
    case Err(e) => r == Err(e)
  }

  class Parser {
    var str: string
    const tokenizer: Tokenizer
    var lookahead: Option<Token>

    ghost predicate Valid()
      reads this, tokenizer
    {
      tokenizer.Valid() && tokenizer.str == str && G.InRange(str, State())
    }

    /** The state the `Grammar` functions take. */
    function State(): G.PState
      reads this, tokenizer
    {
      G.PState(tokenizer.cursor, lookahead)
    }

    constructor ()
      ensures Valid() && fresh(tokenizer) && str == [] && lookahead == None
    {
      str := [];
      tokenizer := new Tokenizer();
      lookahead := None;
    }

    /** `parse(s)`: reset the tokenizer, prime the lookahead, parse one
        Expression. */
    method Parse(s: string) returns (r: Result<Node, Error>)
      modifies this, tokenizer
      ensures Valid() && str == s
      ensures r == G.Parse(s)
    {
      str := s;
      tokenizer.Init(s);
      assert tokenizer.Rest() == s[0..];
      var first := tokenizer.GetNextToken();
      if first.Err? {
        assert G.Next(s, 0) == Err(first.error);
        return Err(first.error);
      }
      lookahead := first.value;
      assert G.Next(s, 0) == Ok(State());
      r := Expression();
    }

    /** Expression: a BinaryExpression. */
    method Expression() returns (r: Result<Node, Error>)
      requires Valid()
      modifies this`lookahead, tokenizer`cursor
      ensures Valid() && str == old(str)
      ensures Agrees(r, G.Binary(str, old(State())), State())
    {
      r := BinaryExpression();
    }

    /** BinaryExpression: the left operand, then an EqualityOperation when an
        EQUALITY_OPERATOR follows, the left operand alone at end of input,
        and a SyntaxError otherwise. */
    method BinaryExpression() returns (r: Result<Node, Error>)
      requires Valid()
      modifies this`lookahead, tokenizer`cursor
      ensures Valid() && str == old(str)
      ensures Agrees(r, G.Binary(str, old(State())), State())
    {
      var left :- UnaryExpression();
      if lookahead.None? {
        return Ok(left);
      }
      if lookahead.value.kind == "EQUALITY_OPERATOR" {
        r := EqualityOperation(left);
        return;
      }
      return Err(SyntaxError(UnexpectedOperator(lookahead.value.kind)));
    }

    /** UnaryExpression: a LeftHandSideExpression. */
    method UnaryExpression() returns (r: Result<Node, Error>)
      requires Valid()
      modifies this`lookahead, tokenizer`cursor
      ensures Valid() && str == old(str)
      ensures Agrees(r, G.CallMember(str, old(State())), State())
    {
      r := LeftHandSideExpression();
    }

    /** LeftHandSideExpression: a CallMemberExpression. */
    method LeftHandSideExpression() returns (r: Result<Node, Error>)
      requires Valid()
      modifies this`lookahead, tokenizer`cursor
      ensures Valid() && str == old(str)
      ensures Agrees(r, G.CallMember(str, old(State())), State())
    {
      r := CallMemberExpression();
    }

    /** CallMemberExpression: a member expression, called once if `(` follows. */
    method CallMemberExpression() returns (r: Result<Node, Error>)
      requires Valid()
      modifies this`lookahead, tokenizer`cursor
      ensures Valid() && str == old(str)
      ensures Agrees(r, G.CallMember(str, old(State())), State())
    {
      var member :- MemberExpression();
      if lookahead.Some? && lookahead.value.kind == "(" {
        r := CallExpression(member);
        return;
      }
      return Ok(member);
    }

    /** CallExpression: the callee and its Arguments. */
    method CallExpression(callee: Node) returns (r: Result<Node, Error>)
      requires Valid()
      modifies this`lookahead, tokenizer`cursor
      ensures Valid() && str == old(str)
      ensures Agrees(r, G.Call(str, old(State()), callee), State())
    {
      var args :- Arguments();
      return Ok(Node.CallExpression(callee, args));
    }

    /** Arguments: `(`, an ArgumentList unless `)` follows, `)`. */
    method Arguments() returns (r: Result<seq<Node>, Error>)
      requires Valid()
      modifies this`lookahead, tokenizer`cursor
      ensures Valid() && str == old(str)
      ensures Agrees(r, G.Arguments(str, old(State())), State())
    {
      var _ :- Eat("(");
      if lookahead.None? {
        return Err(TypeError(NullLookahead));
      }
      var argumentList: seq<Node> := [];
      if lookahead.value.kind != ")" {
        argumentList :- ArgumentList();
      }
      var _ :- Eat(")");
      return Ok(argumentList);
    }

    /** ArgumentList: `do { push(Argument()) } while (lookahead is ',' && eat(','))`. */
    method ArgumentList() returns (r: Result<seq<Node>, Error>)
      requires Valid()
      modifies this`lookahead, tokenizer`cursor
      ensures Valid() && str == old(str)
      ensures Agrees(r, G.ArgumentListFrom(str, old(State()), []), State())
    {
      var argumentList: seq<Node> := [];
      while true
        invariant Valid() && str == old(str)
        invariant G.ArgumentListFrom(str, old(State()), []) == G.ArgumentListFrom(str, State(), argumentList)
        decreases G.Measure(str, State())
      {
        var argument :- Argument();
        argumentList := argumentList + [argument];
        if !(lookahead.Some? && lookahead.value.kind == ",") {
          return Ok(argumentList);
        }
        var _ :- Eat(",");
      }
    }

    /** Argument: the same switch as PrimaryExpression. */
    method Argument() returns (r: Result<Node, Error>)
      requires Valid()
      modifies this`lookahead, tokenizer`cursor
      ensures Valid() && str == old(str)
      ensures Agrees(r, G.Primary(str, old(State())), State())
    {
      r := PrimaryExpression();
    }

    /** MemberExpression: a primary expression; while `.` follows, eat it and
        an Identifier and wrap the object built so far. */
    method MemberExpression() returns (r: Result<Node, Error>)
      requires Valid()
      modifies this`lookahead, tokenizer`cursor
      ensures Valid() && str == old(str)
      ensures Agrees(r, G.Member(str, old(State())), State())
    {
      var obj :- PrimaryExpression();
      while lookahead.Some? && lookahead.value.kind == "."
        invariant Valid() && str == old(str)
        invariant G.Member(str, old(State())) == G.MemberLoop(str, State(), obj)
        decreases G.Measure(str, State())
      {
        var _ :- Eat(".");
        var property :- Identifier();
        obj := Node.MemberExpression(obj, property);
      }
      return Ok(obj);
    }

    /** PrimaryExpression: `$` starts a Variable, IDENTIFIER an Identifier,
        anything else a Literal; no lookahead at all is a TypeError. */
    method PrimaryExpression() returns (r: Result<Node, Error>)
      requires Valid()
      modifies this`lookahead, tokenizer`cursor
      ensures Valid() && str == old(str)
      ensures Agrees(r, G.Primary(str, old(State())), State())
    {
      if lookahead.None? {
        return Err(TypeError(NullLookahead));
      }
      if lookahead.value.kind == "$" {
        r := Variable();
      } else if lookahead.value.kind == "IDENTIFIER" {
        r := Identifier();
      } else {
        r := Literal();
      }
    }

    /** EqualityOperation: the operator, then one primary expression. */
    method EqualityOperation(left: Node) returns (r: Result<Node, Error>)
      requires Valid()
      modifies this`lookahead, tokenizer`cursor
      ensures Valid() && str == old(str)
      ensures Agrees(r, G.Equality(str, old(State()), left), State())
    {
      var operator :- Eat("EQUALITY_OPERATOR");
      var right :- PrimaryExpression();
      return Ok(Node.EqualityOperation(operator.value, left, right));
    }

    /** Variable: `$`, then an IDENTIFIER or a SyntaxError. */
    method Variable() returns (r: Result<Node, Error>)
      requires Valid()
      modifies this`lookahead, tokenizer`cursor
      ensures Valid() && str == old(str)
      ensures Agrees(r, G.Variable(str, old(State())), State())
    {
      var _ :- Eat("$");
      if lookahead.None? {
        return Err(TypeError(NullLookahead));
      }
      if lookahead.value.kind == "IDENTIFIER" {
        var token :- Eat("IDENTIFIER");
        return Ok(Node.Variable(token.value));
      }
      return Err(SyntaxError(NotAnIdentifier(lookahead.value.value)));
    }

    /** Identifier: an IDENTIFIER token. */
    method Identifier() returns (r: Result<Node, Error>)
      requires Valid()
      modifies this`lookahead, tokenizer`cursor
      ensures Valid() && str == old(str)
      ensures Agrees(r, G.Identifier(str, old(State())), State())
    {
      var token :- Eat("IDENTIFIER");
      return Ok(Node.Identifier(token.value));
    }

    /** Literal: NUMBER or STRING, else a SyntaxError. */
    method Literal() returns (r: Result<Node, Error>)
      requires Valid()
      modifies this`lookahead, tokenizer`cursor
      ensures Valid() && str == old(str)
      ensures Agrees(r, G.Literal(str, old(State())), State())
    {
      if lookahead.None? {
        return Err(TypeError(NullLookahead));
      }
      if lookahead.value.kind == "NUMBER" {
        r := NumericLiteral();
      } else if lookahead.value.kind == "STRING" {
        r := StringLiteral();
      } else {
        r := Err(SyntaxError(NotALiteral));
      }
    }

    /** NumericLiteral: a NUMBER token, `Number(value)`. */
    method NumericLiteral() returns (r: Result<Node, Error>)
      requires Valid()
      modifies this`lookahead, tokenizer`cursor
      ensures Valid() && str == old(str)
      ensures Agrees(r, G.NumericLiteral(str, old(State())), State())
    {
      var token :- Eat("NUMBER");
      return Ok(Node.NumericLiteral(JsValues.DigitsValue(token.value)));
    }

    /** StringLiteral: a STRING token, `value.slice(1, -1)`. */
    method StringLiteral() returns (r: Result<Node, Error>)
      requires Valid()
      modifies this`lookahead, tokenizer`cursor
      ensures Valid() && str == old(str)
      ensures Agrees(r, G.StringLiteral(str, old(State())), State())
    {
      var token :- Eat("STRING");
      return Ok(Node.StringLiteral(G.Unquote(token.value)));
    }

    /** `_eat(kind)`: SyntaxError at end of input or on another token type;
        otherwise the lookahead is returned and the next token fetched. */
    method Eat(kind: string) returns (r: Result<Token, Error>)
      requires Valid()
      modifies this`lookahead, tokenizer`cursor
      ensures Valid() && str == old(str)
      ensures Agrees(r, G.Eat(str, old(State()), kind), State())
    {
      var token := lookahead;
      if token.None? {
        return Err(SyntaxError(UnexpectedEnd(kind)));
      }
      if token.value.kind != kind {
        return Err(SyntaxError(UnexpectedToken(token.value.value, kind)));
      }
      var next := tokenizer.GetNextToken();
      if next.Err? {
        return Err(next.error);
      }
      lookahead := next.value;
      return Ok(token.value);
    }
  }
}
