/** What the parser does with a few shapes of input, over arbitrary words:
    how member chains fold, how calls collect their arguments, what is
    accepted after the left operand, and what happens to a `$name` operand. */
module GrammarProperties {
  import opened Wrappers
  import opened Errors
  import opened Lexer
  import opened Ast
  import G = Grammar
  import LexerProperties
  import JsValues

  /** A word the IDENTIFIER rule takes whole: word characters, not starting
      with a digit. */
  predicate Word(w: string) {
    w != [] && AllIn(w, WordChar) && !IsDigit(w[0])
  }

  // -----------------------------------------------------------------------
  // One token at a given cursor

  lemma ScanWord(t: string, w: string)
    requires Word(w) && |w| <= |t| && t[..|w|] == w
    requires |w| == |t| || !IsWordChar(t[|w|])
    ensures Scan(t) == Step(Ok(Some(Token("IDENTIFIER", w))), |w|)
  {
    var rest := t[|w|..];
    assert t == w + rest;
    LexerProperties.SpanOfRun(w, rest, WordChar);
    assert t[0] == w[0];
    LexerProperties.ScanIdentifier(t);
  }

  /** `Next` at `k` is the scan of the remaining input, shifted by `k`. */
  lemma NextFromScan(s: string, k: nat, t: Option<Token>, n: nat)
    requires k <= |s| && Scan(s[k..]) == Step(Ok(t), n)
    ensures G.Next(s, k) == Ok(G.PState(k + n, t))
  {
  }

  lemma NextWord(s: string, k: nat, w: string)
    requires Word(w) && k + |w| <= |s| && s[k..k + |w|] == w
    requires k + |w| == |s| || !IsWordChar(s[k + |w|])
    ensures G.Next(s, k) == Ok(G.PState(k + |w|, Some(Token("IDENTIFIER", w))))
  {
    var t := s[k..];
    assert t[..|w|] == w;
    ScanWord(t, w);
    NextFromScan(s, k, Some(Token("IDENTIFIER", w)), |w|);
  }

  lemma ScanDigits(t: string, d: string)
    requires d != [] && AllIn(d, Digit) && |d| <= |t| && t[..|d|] == d
    requires |d| == |t| || !IsDigit(t[|d|])
    ensures Scan(t) == Step(Ok(Some(Token("NUMBER", d))), |d|)
  {
    var rest := t[|d|..];
    assert t == d + rest;
    LexerProperties.SpanOfRun(d, rest, Digit);
    assert IsDigit(t[0]) by { assert t[0] == d[0]; }
    LexerProperties.ScanNumber(t);
  }

  lemma NextNumber(s: string, k: nat, d: string)
    requires d != [] && AllIn(d, Digit) && k + |d| <= |s| && s[k..k + |d|] == d
    requires k + |d| == |s| || !IsDigit(s[k + |d|])
    ensures G.Next(s, k) == Ok(G.PState(k + |d|, Some(Token("NUMBER", d))))
  {
    var t := s[k..];
    assert t[..|d|] == d;
    ScanDigits(t, d);
    NextFromScan(s, k, Some(Token("NUMBER", d)), |d|);
  }

  lemma ScanDollarWord(t: string, w: string)
    requires w != [] && AllIn(w, WordChar) && 1 + |w| <= |t| && t[0] == '$' && t[1..1 + |w|] == w
    requires 1 + |w| == |t| || !IsWordChar(t[1 + |w|])
    ensures Scan(t) == Step(Ok(Some(Token("VARIABLE", "$" + w))), 1 + |w|)
  {
    var rest := t[1 + |w|..];
    assert t[1..] == w + rest;
    LexerProperties.SpanOfRun(w, rest, WordChar);
    assert t[..1 + |w|] == "$" + w;
    assert IsWordChar(t[1]) by { assert t[1] == w[0]; }
    LexerProperties.ScanVariable(t);
  }

  lemma NextVariable(s: string, k: nat, w: string)
    requires w != [] && AllIn(w, WordChar) && k + 1 + |w| <= |s| && s[k] == '$' && s[k + 1..k + 1 + |w|] == w
    requires k + 1 + |w| == |s| || !IsWordChar(s[k + 1 + |w|])
    ensures G.Next(s, k) == Ok(G.PState(k + 1 + |w|, Some(Token("VARIABLE", "$" + w))))
  {
    var t := s[k..];
    assert t[1..1 + |w|] == w;
    ScanDollarWord(t, w);
    NextFromScan(s, k, Some(Token("VARIABLE", "$" + w)), 1 + |w|);
  }

  lemma NextSymbol(s: string, k: nat)
    requires k < |s| && (s[k] == ',' || s[k] == '.' || s[k] == '(' || s[k] == ')')
    ensures G.Next(s, k) == Ok(G.PState(k + 1, Some(Token([s[k]], [s[k]]))))
  {
    var t := s[k..];
    var i := if t[0] == ',' then 1 else if t[0] == '.' then 2 else if t[0] == '(' then 3 else 4;
    LexerProperties.NoRuleBefore(t, i);
    FirstMatchAt(t, 0, i);
    ScanFollowsTable(t);
  }

  lemma NextEquals(s: string, k: nat)
    requires k + 2 <= |s| && s[k] == '=' && s[k + 1] == '='
    ensures G.Next(s, k) == Ok(G.PState(k + 2, Some(Token("EQUALITY_OPERATOR", "=="))))
  {
    var t := s[k..];
    assert t[1..][0] == '=';
    LexerProperties.ScanEqualityOperator(t);
    assert t[..2] == "==";
  }

  lemma NextAtEnd(s: string)
    ensures G.Next(s, |s|) == Ok(G.PState(|s|, None))
  {
    LexerProperties.ScanAtEnd(s[|s|..]);
  }

  // -----------------------------------------------------------------------
  // Productions

  /** No token has type '$', so the Variable production fails on every
      state the tokenizer produces. */
  lemma VariableUnreachable(str: string, ps: G.PState)
    requires G.Reachable(str, ps)
    ensures G.Variable(str, ps).Err?
  {
    if ps.lookahead.Some? {
      assert ps.lookahead.value.kind != "$";
    }
  }

  /** A VARIABLE token where an operand is expected is not taken for a
      Variable: it falls through to Literal, a SyntaxError. */
  lemma DollarOperandIsNotALiteral(str: string, ps: G.PState)
    requires G.InRange(str, ps) && ps.lookahead.Some? && ps.lookahead.value.kind == "VARIABLE"
    ensures G.Primary(str, ps) == Err(SyntaxError(NotALiteral))
  {
  }

  /** `parse` returns the tree of the Expression at the first token and
      ignores whatever state the Expression leaves. */
  lemma ParseIsBinary(s: string, p0: G.PState, n: Node, after: G.PState)
    requires G.Next(s, 0) == Ok(p0) && G.Binary(s, p0) == Ok((n, after))
    ensures G.Parse(s) == Ok(n)
  {
  }

  /** At the end of input the left operand is the whole expression. */
  lemma BinaryAtEnd(str: string, ps: G.PState, n: Node, after: G.PState)
    requires G.InRange(str, ps) && G.CallMember(str, ps) == Ok((n, after)) && after.lookahead.None?
    ensures G.Binary(str, ps) == Ok((n, after))
  {
  }

  lemma CallMemberUncalled(str: string, ps: G.PState, n: Node, after: G.PState)
    requires G.InRange(str, ps) && G.Member(str, ps) == Ok((n, after))
    requires after.lookahead.None? || after.lookahead.value.kind != "("
    ensures G.CallMember(str, ps) == Ok((n, after))
  {
  }

  lemma MemberOfPrimary(str: string, ps: G.PState, n: Node, after: G.PState)
    requires G.InRange(str, ps) && G.Primary(str, ps) == Ok((n, after))
    ensures G.Member(str, ps) == G.MemberLoop(str, after, n)
  {
  }

  /** An IDENTIFIER lookahead is an Identifier node, and the next token
      becomes the lookahead. */
  lemma IdentifierStep(str: string, ps: G.PState, w: string, next: G.PState)
    requires G.InRange(str, ps) && ps.lookahead == Some(Token("IDENTIFIER", w)) && G.Next(str, ps.cursor) == Ok(next)
    ensures G.Identifier(str, ps) == Ok((Identifier(w), next))
    ensures G.Primary(str, ps) == Ok((Identifier(w), next))
  {
  }

  /** One `.name` of the member loop wraps the object built so far. */
  lemma MemberLoopDot(str: string, ps: G.PState, obj: Node, w: string, p2: G.PState, p3: G.PState)
    requires G.InRange(str, ps) && ps.lookahead == Some(Token(".", "."))
    requires G.Next(str, ps.cursor) == Ok(p2) && p2.lookahead == Some(Token("IDENTIFIER", w))
    requires G.Next(str, p2.cursor) == Ok(p3)
    ensures G.MemberLoop(str, ps, obj) == G.MemberLoop(str, p3, MemberExpression(obj, Identifier(w)))
  {
    IdentifierStep(str, p2, w, p3);
  }

  lemma MemberLoopStop(str: string, ps: G.PState, obj: Node)
    requires G.InRange(str, ps) && (ps.lookahead.None? || ps.lookahead.value.kind != ".")
    ensures G.MemberLoop(str, ps, obj) == Ok((obj, ps))
  {
  }

  // -----------------------------------------------------------------------
  // Whole inputs

  /** The lookahead states the tokenizer passes through on `s`: the state
      after priming, then the state after each `getNextToken` from there. */
  predicate Tokenizes(s: string, st: seq<G.PState>) {
    |st| > 0 && G.Next(s, 0) == Ok(st[0])
    && forall i :: 0 <= i < |st| - 1 ==> st[i].cursor <= |s| && G.Next(s, st[i].cursor) == Ok(st[i + 1])
  }

  function Ident(w: string): Token {
    Token("IDENTIFIER", w)
  }

  function Sym(c: char): Token {
    Token([c], [c])
  }

  /** `a.b.c` folds to the left, every property an Identifier. */
  lemma MemberChainFoldsLeft(s: string, a: string, b: string, c: string, st: seq<G.PState>)
    requires Tokenizes(s, st) && |st| == 6
    requires st[0].lookahead == Some(Ident(a)) && st[1].lookahead == Some(Sym('.')) && st[2].lookahead == Some(Ident(b))
    requires st[3].lookahead == Some(Sym('.')) && st[4].lookahead == Some(Ident(c)) && st[5].lookahead.None?
    ensures G.Parse(s) == Ok(MemberExpression(MemberExpression(Identifier(a), Identifier(b)), Identifier(c)))
  {
    assert G.Next(s, st[0].cursor) == Ok(st[1]) && G.Next(s, st[1].cursor) == Ok(st[2]);
    assert G.Next(s, st[2].cursor) == Ok(st[3]) && G.Next(s, st[3].cursor) == Ok(st[4]);
    assert G.Next(s, st[4].cursor) == Ok(st[5]);
    var ab := MemberExpression(Identifier(a), Identifier(b));
    var abc := MemberExpression(ab, Identifier(c));
    IdentifierStep(s, st[0], a, st[1]);
    MemberOfPrimary(s, st[0], Identifier(a), st[1]);
    MemberLoopDot(s, st[1], Identifier(a), b, st[2], st[3]);
    MemberLoopDot(s, st[3], ab, c, st[4], st[5]);
    MemberLoopStop(s, st[5], abc);
    CallMemberUncalled(s, st[0], abc, st[5]);
    BinaryAtEnd(s, st[0], abc, st[5]);
    ParseIsBinary(s, st[0], abc, st[5]);
  }

  /** `f()` is a call with no arguments. */
  lemma CallWithoutArguments(s: string, f: string, st: seq<G.PState>)
    requires Tokenizes(s, st) && |st| == 4
    requires st[0].lookahead == Some(Ident(f)) && st[1].lookahead == Some(Sym('('))
    requires st[2].lookahead == Some(Sym(')')) && st[3].lookahead.None?
    ensures G.Parse(s) == Ok(CallExpression(Identifier(f), []))
  {
    assert G.Next(s, st[0].cursor) == Ok(st[1]) && G.Next(s, st[1].cursor) == Ok(st[2]);
    assert G.Next(s, st[2].cursor) == Ok(st[3]);
    var call := CallExpression(Identifier(f), []);
    IdentifierStep(s, st[0], f, st[1]);
    MemberOfPrimary(s, st[0], Identifier(f), st[1]);
    MemberLoopStop(s, st[1], Identifier(f));
    assert G.Arguments(s, st[1]) == Ok(([], st[3]));
    assert G.CallMember(s, st[0]) == Ok((call, st[3]));
    BinaryAtEnd(s, st[0], call, st[3]);
    ParseIsBinary(s, st[0], call, st[3]);
  }

  /** An identifier argument followed by `,` continues the list. */
  lemma ArgumentThenComma(str: string, ps: G.PState, acc: seq<Node>, w: string, p1: G.PState, p2: G.PState)
    requires G.InRange(str, ps) && ps.lookahead == Some(Token("IDENTIFIER", w)) && G.Next(str, ps.cursor) == Ok(p1)
    requires p1.lookahead == Some(Token(",", ",")) && G.Next(str, p1.cursor) == Ok(p2)
    ensures G.ArgumentListFrom(str, ps, acc) == G.ArgumentListFrom(str, p2, acc + [Identifier(w)])
  {
    IdentifierStep(str, ps, w, p1);
  }

  /** An identifier argument followed by anything but `,` ends the list. */
  lemma LastArgument(str: string, ps: G.PState, acc: seq<Node>, w: string, p1: G.PState)
    requires G.InRange(str, ps) && ps.lookahead == Some(Token("IDENTIFIER", w)) && G.Next(str, ps.cursor) == Ok(p1)
    requires p1.lookahead.None? || p1.lookahead.value.kind != ","
    ensures G.ArgumentListFrom(str, ps, acc) == Ok((acc + [Identifier(w)], p1))
  {
    IdentifierStep(str, ps, w, p1);
  }

  /** `(`, a non-empty argument list, `)`. */
  lemma ArgumentsEnclosed(str: string, ps: G.PState, p1: G.PState, args: seq<Node>, p2: G.PState, p3: G.PState)
    requires G.InRange(str, ps) && ps.lookahead == Some(Token("(", "(")) && G.Next(str, ps.cursor) == Ok(p1)
    requires p1.lookahead.Some? && p1.lookahead.value.kind != ")"
    requires G.ArgumentListFrom(str, p1, []) == Ok((args, p2))
    requires p2.lookahead == Some(Token(")", ")")) && G.Next(str, p2.cursor) == Ok(p3)
    ensures G.Arguments(str, ps) == Ok((args, p3))
  {
  }

  /** A member expression followed by arguments is called. */
  lemma CallMemberCalled(str: string, ps: G.PState, n: Node, p1: G.PState, args: seq<Node>, p2: G.PState)
    requires G.InRange(str, ps) && G.Member(str, ps) == Ok((n, p1))
    requires p1.lookahead == Some(Token("(", "(")) && G.Arguments(str, p1) == Ok((args, p2))
    ensures G.CallMember(str, ps) == Ok((CallExpression(n, args), p2))
  {
  }

  /** `x, y` is the argument list `[x, y]`. */
  lemma TwoArguments(str: string, p2: G.PState, x: string, y: string, p3: G.PState, p4: G.PState, p5: G.PState)
    requires G.InRange(str, p2) && p2.lookahead == Some(Token("IDENTIFIER", x)) && G.Next(str, p2.cursor) == Ok(p3)
    requires p3.lookahead == Some(Token(",", ",")) && G.Next(str, p3.cursor) == Ok(p4)
    requires p4.lookahead == Some(Token("IDENTIFIER", y)) && G.Next(str, p4.cursor) == Ok(p5)
    requires p5.lookahead.None? || p5.lookahead.value.kind != ","
    ensures G.ArgumentListFrom(str, p2, []) == Ok(([Identifier(x), Identifier(y)], p5))
  {
    ArgumentThenComma(str, p2, [], x, p3, p4);
    assert [] + [Identifier(x)] == [Identifier(x)];
    LastArgument(str, p4, [Identifier(x)], y, p5);
    assert [Identifier(x)] + [Identifier(y)] == [Identifier(x), Identifier(y)];
  }

  /** `f(x, y)` keeps its arguments in source order. */
  lemma CallArgumentsInOrder(s: string, f: string, x: string, y: string, st: seq<G.PState>)
    requires Tokenizes(s, st) && |st| == 7
    requires st[0].lookahead == Some(Ident(f)) && st[1].lookahead == Some(Sym('(')) && st[2].lookahead == Some(Ident(x))
    requires st[3].lookahead == Some(Sym(',')) && st[4].lookahead == Some(Ident(y)) && st[5].lookahead == Some(Sym(')'))
    requires st[6].lookahead.None?
    ensures G.Parse(s) == Ok(CallExpression(Identifier(f), [Identifier(x), Identifier(y)]))
  {
    assert G.Next(s, st[0].cursor) == Ok(st[1]) && G.Next(s, st[1].cursor) == Ok(st[2]);
    assert G.Next(s, st[2].cursor) == Ok(st[3]) && G.Next(s, st[3].cursor) == Ok(st[4]);
    assert G.Next(s, st[4].cursor) == Ok(st[5]) && G.Next(s, st[5].cursor) == Ok(st[6]);
    var call := CallExpression(Identifier(f), [Identifier(x), Identifier(y)]);
    IdentifierStep(s, st[0], f, st[1]);
    MemberOfPrimary(s, st[0], Identifier(f), st[1]);
    MemberLoopStop(s, st[1], Identifier(f));
    TwoArguments(s, st[2], x, y, st[3], st[4], st[5]);
    ArgumentsEnclosed(s, st[1], st[2], [Identifier(x), Identifier(y)], st[5], st[6]);
    CallMemberCalled(s, st[0], Identifier(f), st[1], [Identifier(x), Identifier(y)], st[6]);
    BinaryAtEnd(s, st[0], call, st[6]);
    ParseIsBinary(s, st[0], call, st[6]);
  }

  /** `x == y` followed by anything: the right operand is one primary
      expression, and what follows it is never looked at. */
  lemma TokensAfterRightOperandIgnored(s: string, x: string, y: string, st: seq<G.PState>)
    requires Tokenizes(s, st) && |st| == 4
    requires st[0].lookahead == Some(Ident(x)) && st[1].lookahead == Some(Token("EQUALITY_OPERATOR", "=="))
    requires st[2].lookahead == Some(Ident(y)) && st[3].lookahead.Some?
    ensures G.Parse(s) == Ok(EqualityOperation("==", Identifier(x), Identifier(y)))
  {
    assert G.Next(s, st[0].cursor) == Ok(st[1]) && G.Next(s, st[1].cursor) == Ok(st[2]);
    assert G.Next(s, st[2].cursor) == Ok(st[3]);
    var eq := EqualityOperation("==", Identifier(x), Identifier(y));
    IdentifierStep(s, st[0], x, st[1]);
    MemberOfPrimary(s, st[0], Identifier(x), st[1]);
    MemberLoopStop(s, st[1], Identifier(x));
    CallMemberUncalled(s, st[0], Identifier(x), st[1]);
    IdentifierStep(s, st[2], y, st[3]);
    assert G.Equality(s, st[1], Identifier(x)) == Ok((eq, st[3]));
    assert G.Binary(s, st[0]) == Ok((eq, st[3]));
    ParseIsBinary(s, st[0], eq, st[3]);
  }

  /** After any left operand, a lookahead that is not an equality operator
      is a SyntaxError naming its type. */
  lemma BinaryOther(str: string, ps: G.PState, n: Node, after: G.PState)
    requires G.InRange(str, ps) && G.CallMember(str, ps) == Ok((n, after))
    requires after.lookahead.Some? && after.lookahead.value.kind != "EQUALITY_OPERATOR"
    ensures G.Binary(str, ps) == Err(SyntaxError(UnexpectedOperator(after.lookahead.value.kind)))
  {
  }

  /** After any left operand, an equality operator continues as the
      EqualityOperation with that operand on the left. */
  lemma BinaryEq(str: string, ps: G.PState, n: Node, after: G.PState)
    requires G.InRange(str, ps) && G.CallMember(str, ps) == Ok((n, after))
    requires after.lookahead.Some? && after.lookahead.value.kind == "EQUALITY_OPERATOR"
    ensures G.Binary(str, ps) == G.Equality(str, after, n)
  {
  }

  /** A left operand that fails to parse fails the whole expression with
      its own error. */
  lemma BinaryOperandFails(str: string, ps: G.PState)
    requires G.InRange(str, ps) && G.CallMember(str, ps).Err?
    ensures G.Binary(str, ps) == Err(G.CallMember(str, ps).error)
  {
  }

  /** A complete operand followed by a token that is not `.`, `(` or an
      equality operator is rejected, naming that token's type. */
  lemma OperandThenOtherToken(s: string, st: seq<G.PState>)
    requires Tokenizes(s, st) && |st| == 2
    requires st[0].lookahead.Some? && st[0].lookahead.value.kind == "NUMBER"
    requires st[1].lookahead.Some? && st[1].lookahead.value.kind !in {".", "(", "EQUALITY_OPERATOR"}
    ensures G.Parse(s) == Err(SyntaxError(UnexpectedOperator(st[1].lookahead.value.kind)))
  {
    assert G.Next(s, st[0].cursor) == Ok(st[1]);
    var n := NumericLiteral(JsValues.DigitsValue(st[0].lookahead.value.value));
    assert G.Primary(s, st[0]) == Ok((n, st[1]));
    MemberOfPrimary(s, st[0], n, st[1]);
    MemberLoopStop(s, st[1], n);
    CallMemberUncalled(s, st[0], n, st[1]);
  }

  /** "12ab" is NUMBER then IDENTIFIER, so it is rejected after `12`. */
  lemma TwelveAbRejected()
    ensures G.Parse("12ab") == Err(SyntaxError(UnexpectedOperator("IDENTIFIER")))
  {
    LexerProperties.TwelveAb();
    var s := "12ab";
    assert s[0..] == s;
    var st := [G.PState(2, Some(Token("NUMBER", "12"))), G.PState(4, Some(Token("IDENTIFIER", "ab")))];
    assert G.Next(s, 0) == Ok(st[0]);
    assert G.Next(s, 2) == Ok(st[1]);
    OperandThenOtherToken(s, st);
  }

  /** An input starting with `$name` never parses: its first token is a
      VARIABLE, which no production accepts. */
  lemma DollarNameCannotParse(s: string)
    requires |s| >= 2 && s[0] == '$' && IsWordChar(s[1])
    ensures G.Parse(s) == Err(SyntaxError(NotALiteral))
  {
    assert s[1..] != [] && s[1..][0] == s[1];
    LexerProperties.ScanVariable(s);
    assert s[0..] == s;
    var p0 := G.Next(s, 0).value;
    assert p0.lookahead.value.kind == "VARIABLE";
    DollarOperandIsNotALiteral(s, p0);
  }

  /** A `$name` right operand is rejected the same way. */
  lemma DollarRightOperand(s: string, x: string, st: seq<G.PState>)
    requires Tokenizes(s, st) && |st| == 3
    requires st[0].lookahead == Some(Ident(x)) && st[1].lookahead.Some? && st[1].lookahead.value.kind == "EQUALITY_OPERATOR"
    requires st[2].lookahead.Some? && st[2].lookahead.value.kind == "VARIABLE"
    ensures G.Parse(s) == Err(SyntaxError(NotALiteral))
  {
    assert G.Next(s, st[0].cursor) == Ok(st[1]) && G.Next(s, st[1].cursor) == Ok(st[2]);
    IdentifierStep(s, st[0], x, st[1]);
    MemberOfPrimary(s, st[0], Identifier(x), st[1]);
    MemberLoopStop(s, st[1], Identifier(x));
    CallMemberUncalled(s, st[0], Identifier(x), st[1]);
    DollarOperandIsNotALiteral(s, st[2]);
  }
}
