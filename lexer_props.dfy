/** What the token table guarantees about one `getNextToken` call. */
module LexerProperties {
  import opened Wrappers
  import opened Errors
  import opened Lexer

  /** The rules before the winning one did not match: first match wins. */
  lemma {:induction false} FirstMatchIsFirst(s: string, from: nat)
    requires from <= |Spec|
    ensures FirstMatch(s, from).Some? ==>
      forall j :: from <= j < FirstMatch(s, from).value.0 ==> MatchPattern(Spec[j].pattern, s).None?
    ensures FirstMatch(s, from).None? ==>
      forall j :: from <= j < |Spec| ==> MatchPattern(Spec[j].pattern, s).None?
    decreases |Spec| - from
  {
    if from < |Spec| && MatchPattern(Spec[from].pattern, s).None? {
      FirstMatchIsFirst(s, from + 1);
    }
  }

  /** A run of class `k` followed by a character outside it spans exactly the run. */
  lemma {:induction false} SpanOfRun(w: string, s: string, k: CharClass)
    requires AllIn(w, k)
    requires s == [] || !InClass(s[0], k)
    ensures Span(w + s, k) == |w|
    decreases |w|
  {
    if w != [] {
      assert (w + s)[1..] == w[1..] + s;
      SpanOfRun(w[1..], s, k);
    } else {
      assert w + s == s;
    }
  }

  /** With only whitespace left there is no token and the whitespace is
      consumed; otherwise some token or error is produced. */
  lemma ScanAtEnd(s: string)
    ensures Scan(s).result == Ok(None) <==> AllIn(s, Space)
    ensures Scan(s).result == Ok(None) ==> Scan(s).consumed == |s|
  {
    var n := Span(s, Space);
    if n == |s| {
      assert s[..n] == s;
    } else {
      assert !InClass(s[n], Space);
    }
  }

  /** A token is a non-empty piece of the input that follows nothing but
      whitespace, and the cursor stops right after it. No token has type '$'. */
  lemma ScanTokenIsNextPiece(s: string)
    requires Scan(s).result.Ok? && Scan(s).result.value.Some?
    ensures var t := Scan(s).result.value.value;
      var k := Scan(s).consumed - |t.value|;
      AllIn(s[..k], Space) && s[k..Scan(s).consumed] == t.value && t.kind != "$"
  {
    var t := Scan(s).result.value.value;
    WellFormedTokenKind(t);
    var n := Span(s, Space);
    assert s[n..Scan(s).consumed] == s[n..][..|t.value|];
  }

  /** No rule matches what is left after the skipped whitespace: the error
      names the first remaining character. */
  lemma ScanErrorNamesChar(s: string)
    requires Scan(s).result.Err?
    ensures var k := Scan(s).consumed;
      k < |s| && AllIn(s[..k], Space) && FirstMatch(s[k..], 0).None?
      && Scan(s).result.error == SyntaxError(UnexpectedChar(s[k]))
  {
  }

  /** A whitespace run before the input changes only how far the cursor moves. */
  lemma SkipsLeadingSpaces(w: string, s: string)
    requires w != [] && AllIn(w, Space)
    requires s == [] || !IsSpace(s[0])
    ensures Scan(w + s) == Step(Scan(s).result, |w| + Scan(s).consumed)
  {
    SpanOfRun(w, s, Space);
    assert (w + s)[|w|..] == s;
    assert s[0..] == s;
  }

  /** The rules before rule `i` all fail on text whose first character
      each of them rejects. */
  lemma NoRuleBefore(s: string, i: nat)
    requires s != [] && i <= 9 && !IsSpace(s[0])
    requires i > 1 ==> s[0] != ','
    requires i > 2 ==> s[0] != '.'
    requires i > 3 ==> s[0] != '('
    requires i > 4 ==> s[0] != ')'
    requires i > 5 ==> !IsDigit(s[0])
    requires i > 6 ==> s[0] != '$'
    requires i > 7 ==> s[0] != '=' && s[0] != '!'
    requires i > 8 ==> !IsWordChar(s[0])
    ensures forall j :: 0 <= j < i ==> MatchPattern(Spec[j].pattern, s).None?
  {
    forall j | 0 <= j < i ensures MatchPattern(Spec[j].pattern, s).None? {
      if j == 0 { assert !IsSpace(s[0]); }
    }
  }

  /** Rules are tried in order: a leading digit run is a NUMBER even when
      word characters follow, which the IDENTIFIER rule would also accept. */
  lemma ScanNumber(s: string)
    requires s != [] && IsDigit(s[0])
    ensures var n := Span(s, Digit);
      Scan(s) == Step(Ok(Some(Token("NUMBER", s[..n]))), n)
  {
    NoRuleBefore(s, 5);
    FirstMatchAt(s, 0, 5);
    ScanFollowsTable(s);
  }

  /** A word that does not start with a digit is one IDENTIFIER. */
  lemma ScanIdentifier(s: string)
    requires s != [] && IsWordChar(s[0]) && !IsDigit(s[0])
    ensures var n := Span(s, WordChar);
      Scan(s) == Step(Ok(Some(Token("IDENTIFIER", s[..n]))), n)
  {
    NoRuleBefore(s, 8);
    FirstMatchAt(s, 0, 8);
    ScanFollowsTable(s);
  }

  /** `$` followed by word characters is one VARIABLE token that keeps its `$`. */
  lemma ScanVariable(s: string)
    requires s != [] && s[0] == '$' && s[1..] != [] && IsWordChar(s[1])
    ensures var n := 1 + Span(s[1..], WordChar);
      Scan(s) == Step(Ok(Some(Token("VARIABLE", s[..n]))), n)
  {
    NoRuleBefore(s, 6);
    assert InClass(s[1..][0], WordChar);
    FirstMatchAt(s, 0, 6);
    ScanFollowsTable(s);
  }

  /** `==` and `!=` are both EQUALITY_OPERATOR tokens carrying the two characters. */
  lemma ScanEqualityOperator(s: string)
    requires s != [] && (s[0] == '=' || s[0] == '!') && s[1..] != [] && s[1] == '='
    ensures Scan(s) == Step(Ok(Some(Token("EQUALITY_OPERATOR", s[..2]))), 2)
  {
    NoRuleBefore(s, 7);
    FirstMatchAt(s, 0, 7);
    ScanFollowsTable(s);
  }

  /** A lone `=` or `!` matches no rule. */
  lemma ScanLoneEqualsOrBang(s: string)
    requires s != [] && (s[0] == '=' || s[0] == '!')
    requires s[1..] == [] || s[1] != '='
    ensures Scan(s) == Step(Err(SyntaxError(UnexpectedChar(s[0]))), 0)
  {
    forall j | 0 <= j < |Spec| ensures MatchPattern(Spec[j].pattern, s).None? {
      if j == 0 { assert !IsSpace(s[0]); }
    }
    ScanFollowsTable(s);
  }

  /** A quote up to the next quote of the same kind is one STRING token,
      quotes included and nothing unescaped; without a closing quote no rule
      matches. */
  lemma ScanQuoted(s: string)
    requires s != [] && (s[0] == '"' || s[0] == '\'')
    ensures IndexOf(s[1..], s[0]).Some? ==>
      var n := IndexOf(s[1..], s[0]).value + 2;
      Scan(s) == Step(Ok(Some(Token("STRING", s[..n]))), n)
    ensures IndexOf(s[1..], s[0]).None? ==>
      Scan(s) == Step(Err(SyntaxError(UnexpectedChar(s[0]))), 0)
  {
    BeforeStringRules(s);
    if IndexOf(s[1..], s[0]).Some? {
      ClosedQuote(s);
    } else {
      UnclosedQuote(s);
    }
  }

  /** No rule before the two string rules matches text that starts with a
      quote, and the double-quote rule does not match a single quote. */
  lemma BeforeStringRules(s: string)
    requires s != [] && (s[0] == '"' || s[0] == '\'')
    ensures forall j :: 0 <= j < 9 ==> MatchPattern(Spec[j].pattern, s).None?
    ensures s[0] == '\'' ==> MatchPattern(Spec[9].pattern, s).None?
  {
    NoRuleBefore(s, 9);
  }

  lemma ClosedQuote(s: string)
    requires s != [] && (s[0] == '"' || s[0] == '\'') && IndexOf(s[1..], s[0]).Some?
    requires forall j :: 0 <= j < 9 ==> MatchPattern(Spec[j].pattern, s).None?
    requires s[0] == '\'' ==> MatchPattern(Spec[9].pattern, s).None?
    ensures var n := IndexOf(s[1..], s[0]).value + 2;
      Scan(s) == Step(Ok(Some(Token("STRING", s[..n]))), n)
  {
    if s[0] == '"' {
      ClosedQuoteBy(s, 9);
    } else {
      ClosedQuoteBy(s, 10);
    }
  }

  /** The string rule for the quote `s` starts with wins. */
  lemma ClosedQuoteBy(s: string, i: nat)
    requires i == 9 || i == 10
    requires s != [] && s[0] == (if i == 9 then '"' else '\'') && IndexOf(s[1..], s[0]).Some?
    requires forall j :: 0 <= j < i ==> MatchPattern(Spec[j].pattern, s).None?
    ensures var n := IndexOf(s[1..], s[0]).value + 2;
      Scan(s) == Step(Ok(Some(Token("STRING", s[..n]))), n)
  {
    FirstMatchAt(s, 0, i);
    ScanFollowsTable(s);
  }


  lemma UnclosedQuote(s: string)
    requires s != [] && (s[0] == '"' || s[0] == '\'') && IndexOf(s[1..], s[0]).None?
    requires forall j :: 0 <= j < 9 ==> MatchPattern(Spec[j].pattern, s).None?
    ensures Scan(s) == Step(Err(SyntaxError(UnexpectedChar(s[0]))), 0)
  {
    assert MatchPattern(Spec[9].pattern, s).None?;
    assert MatchPattern(Spec[10].pattern, s).None?;
    assert forall j :: 0 <= j < |Spec| ==> MatchPattern(Spec[j].pattern, s).None?;
    ScanFollowsTable(s);
  }


  /** "12ab" lexes as NUMBER "12", then IDENTIFIER "ab". */
  lemma TwelveAb()
    ensures Scan("12ab") == Step(Ok(Some(Token("NUMBER", "12"))), 2)
    ensures Scan("12ab"[2..]) == Step(Ok(Some(Token("IDENTIFIER", "ab"))), 2)
  {
    TwelveIsNumber();
    assert "12ab"[2..] == "ab";
    AbIsIdentifier();
  }

  lemma TwelveIsNumber()
    ensures Scan("12ab") == Step(Ok(Some(Token("NUMBER", "12"))), 2)
  {
    SpanOfRun("12", "ab", Digit);
    assert "12" + "ab" == "12ab";
    ScanNumber("12ab");
  }

  lemma AbIsIdentifier()
    ensures Scan("ab") == Step(Ok(Some(Token("IDENTIFIER", "ab"))), 2)
  {
    SpanOfRun("ab", "", WordChar);
    assert "ab" + "" == "ab";
    ScanIdentifier("ab");
  }

}
