/** The tokenizer: an ordered table of prefix patterns tried at a cursor.
    The first pattern that matches wins (not the longest); a whitespace run is
    consumed and never emitted; end of input yields no token. */
module Lexer {
  import opened Wrappers
  import opened Errors

  datatype Token = Token(kind: string, value: string)

  // ---------------------------------------------------------------------
  // Character classes of the patterns

  /** JavaScript's `\s`. */
  predicate IsSpace(c: char) {
    c == ' ' || c == '\t' || c == '\n' || c == '\r' || c == '\U{000B}' || c == '\U{000C}'
    || c == '\U{00A0}' || c == '\U{1680}' || ('\U{2000}' <= c <= '\U{200A}')
    || c == '\U{2028}' || c == '\U{2029}' || c == '\U{202F}' || c == '\U{205F}'
    || c == '\U{3000}' || c == '\U{FEFF}'
  }

  /** JavaScript's `\d`. */
  predicate IsDigit(c: char) {
    '0' <= c <= '9'
  }

  /** JavaScript's `\w`. */
  predicate IsWordChar(c: char) {
    ('a' <= c <= 'z') || ('A' <= c <= 'Z') || IsDigit(c) || c == '_'
  }

  datatype CharClass = Space | Digit | WordChar

  predicate InClass(c: char, k: CharClass) {
    match k
    case Space => IsSpace(c)
    case Digit => IsDigit(c)
    case WordChar => IsWordChar(c)
  }

  predicate AllIn(s: string, k: CharClass) {
    forall i :: 0 <= i < |s| ==> InClass(s[i], k)
  }

  /** Length of the longest prefix of `s` inside class `k` (a greedy `k*`). */
  function Span(s: string, k: CharClass): (n: nat)
    ensures n <= |s|
    ensures AllIn(s[..n], k)
    ensures n < |s| ==> !InClass(s[n], k)
    decreases |s|
  {
    if |s| == 0 || !InClass(s[0], k) then 0
    else
      var n := 1 + Span(s[1..], k);
      assert forall i :: 1 <= i < n ==> s[..n][i] == s[1..][..n - 1][i - 1];
      n
  }

  /** Index of the first occurrence of `c` in `s`. */
  function IndexOf(s: string, c: char): (r: Option<nat>)
    ensures r.Some? ==> r.value < |s| && s[r.value] == c
    ensures r.Some? ==> forall i :: 0 <= i < r.value ==> s[i] != c
    ensures r.None? ==> forall i :: 0 <= i < |s| ==> s[i] != c
    decreases |s|
  {
    if |s| == 0 then None
    else if s[0] == c then Some(0)
    else
      match IndexOf(s[1..], c)
      case None => None
      case Some(j) => Some(j + 1)
  }

  // ---------------------------------------------------------------------
  // The patterns of the table, as prefix matchers

  datatype Pattern =
    | Spaces            // /^\s+/
    | Symbol(c: char)   // /^\,/  /^\./  /^\(/  /^\)/
    | Digits            // /^\d+/
    | DollarWord        // /^\$\w+/
    | EqualityOp        // /^[!=]=/
    | Word              // /^\w+/
    | Quoted(q: char)   // /^"[^"]*"/  /^'[^']*'/

  function Run(s: string, k: CharClass): Option<string> {
    var n := Span(s, k);
    if n > 0 then Some(s[..n]) else None
  }

  /** `regexp.exec(s)[0]` for a pattern anchored at the start of `s`. */
  function MatchPattern(p: Pattern, s: string): (m: Option<string>)
    ensures m.Some? ==> 0 < |m.value| <= |s| && m.value == s[..|m.value|]
  {
    match p
    case Spaces => Run(s, Space)
    case Symbol(c) => if |s| > 0 && s[0] == c then Some(s[..1]) else None
    case Digits => Run(s, Digit)
    case DollarWord =>
      if |s| > 0 && s[0] == '$' && Span(s[1..], WordChar) > 0
      then Some(s[..1 + Span(s[1..], WordChar)]) else None
    case EqualityOp =>
      if |s| >= 2 && (s[0] == '!' || s[0] == '=') && s[1] == '=' then Some(s[..2]) else None
    case Word => Run(s, WordChar)
    case Quoted(q) =>
      if |s| > 0 && s[0] == q then
        match IndexOf(s[1..], q)
        case None => None
        case Some(j) => Some(s[..j + 2])
      else None
  }

  /** One entry of the table: a pattern and the token kind it emits, None
      for whitespace, which is skipped. */
  datatype SpecRule = SpecRule(pattern: Pattern, kind: Option<string>)

  /** The table, in its declared order. */
  const Spec: seq<SpecRule> := [
    SpecRule(Spaces, None),
    SpecRule(Symbol(','), Some(",")),
    SpecRule(Symbol('.'), Some(".")),
    SpecRule(Symbol('('), Some("(")),
    SpecRule(Symbol(')'), Some(")")),
    SpecRule(Digits, Some("NUMBER")),
    SpecRule(DollarWord, Some("VARIABLE")),
    SpecRule(EqualityOp, Some("EQUALITY_OPERATOR")),
    SpecRule(Word, Some("IDENTIFIER")),
    SpecRule(Quoted('"'), Some("STRING")),
    SpecRule(Quoted('\''), Some("STRING"))
  ]

  /** The first rule at or after `from` whose pattern matches a prefix of
      `s`, with the text it matched. */
  function FirstMatch(s: string, from: nat): (r: Option<(nat, string)>)
    requires from <= |Spec|
    ensures r.Some? ==> from <= r.value.0 < |Spec|
    ensures r.Some? ==> MatchPattern(Spec[r.value.0].pattern, s) == Some(r.value.1)
    ensures r.Some? ==> forall j :: from <= j < r.value.0 ==> MatchPattern(Spec[j].pattern, s).None?
    ensures r.None? ==> forall j :: from <= j < |Spec| ==> MatchPattern(Spec[j].pattern, s).None?
    decreases |Spec| - from
  {
    if from == |Spec| then None
    else
      match MatchPattern(Spec[from].pattern, s)
      case Some(v) => Some((from, v))
      case None => FirstMatch(s, from + 1)
  }

  // ---------------------------------------------------------------------
  // Token shapes

  /** The token kinds the table can emit. */
  const TokenKinds: set<string> :=
    {",", ".", "(", ")", "NUMBER", "VARIABLE", "EQUALITY_OPERATOR", "IDENTIFIER", "STRING"}

  /** What each kind of token looks like, stated independently of the table. */
  predicate WellFormedToken(t: Token) {
    var v := t.value;
    match t.kind
    case "," => v == ","
    case "." => v == "."
    case "(" => v == "("
    case ")" => v == ")"
    case "NUMBER" => |v| > 0 && AllIn(v, Digit)
    case "VARIABLE" => |v| > 1 && v[0] == '$' && AllIn(v[1..], WordChar)
    case "EQUALITY_OPERATOR" => v == "==" || v == "!="
    case "IDENTIFIER" => |v| > 0 && AllIn(v, WordChar)
    case "STRING" =>
      |v| >= 2 && (v[0] == '"' || v[0] == '\'') && v[|v| - 1] == v[0]
      && forall i :: 0 < i < |v| - 1 ==> v[i] != v[0]
    case _ => false
  }

  lemma WellFormedTokenKind(t: Token)
    requires WellFormedToken(t)
    ensures t.kind in TokenKinds && |t.value| > 0
  {
  }

  /** The token a rule emits when it matches, stated per rule. */
  lemma {:induction false} RuleEmitsWellFormed(i: nat, s: string, v: string)
    requires i < |Spec| && Spec[i].kind.Some?
    requires MatchPattern(Spec[i].pattern, s) == Some(v)
    ensures WellFormedToken(Token(Spec[i].kind.value, v))
  {
    var p := Spec[i].pattern;
    match p
    case Symbol(c) =>
    case Digits =>
    case DollarWord =>
      var n := Span(s[1..], WordChar);
      assert v[1..] == s[1..][..n];
    case EqualityOp =>
    case Word =>
    case Quoted(q) =>
      var j := IndexOf(s[1..], q).value;
      assert v == s[..j + 2];
      forall k | 0 < k < |v| - 1 ensures v[k] != v[0] {
        assert v[k] == s[1..][k - 1];
      }
  }

  // ---------------------------------------------------------------------
  // One call of getNextToken, as a function of the remaining input

  /** The outcome of one `getNextToken` call on the remaining input `s`: the
      token (None at end of input) or the error, and how far the cursor moves
      (whitespace included). */
  datatype Step = Step(result: Result<Option<Token>, Error>, consumed: nat)

  /** Rule 0 (whitespace) is the only rule that emits nothing. */
  lemma OnlyRuleZeroSkips()
    ensures Spec[0].kind.None?
    ensures forall i :: 0 < i < |Spec| ==> Spec[i].kind.Some?
  {
  }

  /** Whitespace is skipped by rule 0; since its run is maximal, the rule
      that wins next is never rule 0 again. */
  function Scan(s: string): (st: Step)
    ensures st.consumed <= |s|
    ensures st.result.Ok? && st.result.value.Some? ==>
      WellFormedToken(st.result.value.value) && 0 < |st.result.value.value.value| <= st.consumed
  {
    var n := Span(s, Space);
    if n == |s| then Step(Ok(None), n)
    else
      match FirstMatch(s[n..], 0)
      case None => Step(Err(SyntaxError(UnexpectedChar(s[n]))), n)
      case Some((i, v)) =>
        assert MatchPattern(Spec[0].pattern, s[n..]).None?;
        OnlyRuleZeroSkips();
        RuleEmitsWellFormed(i, s[n..], v);
        Step(Ok(Some(Token(Spec[i].kind.value, v))), n + |v|)
  }

  /** Rule `i` wins when it matches and no rule between `from` and `i` does. */
  lemma {:induction false} FirstMatchAt(s: string, from: nat, i: nat)
    requires from <= i < |Spec|
    requires forall j :: from <= j < i ==> MatchPattern(Spec[j].pattern, s).None?
    requires MatchPattern(Spec[i].pattern, s).Some?
    ensures FirstMatch(s, from) == Some((i, MatchPattern(Spec[i].pattern, s).value))
    decreases i - from
  {
    if from < i {
      FirstMatchAt(s, from + 1, i);
    }
  }

  /** `Scan` follows the table as `getNextToken` walks it: no winning rule is
      an error naming the first character; a winning skip rule restarts the
      scan after what it matched; any other winning rule is the token. */
  lemma ScanFollowsTable(s: string)
    requires s != []
    ensures FirstMatch(s, 0).None? ==>
      Scan(s) == Step(Err(SyntaxError(UnexpectedChar(s[0]))), 0)
    ensures FirstMatch(s, 0).Some? ==>
      var (i, v) := FirstMatch(s, 0).value;
      if Spec[i].kind.None? then
        Scan(s) == Step(Scan(s[|v|..]).result, |v| + Scan(s[|v|..]).consumed)
      else
        Scan(s) == Step(Ok(Some(Token(Spec[i].kind.value, v))), |v|)
  {
    OnlyRuleZeroSkips();
    if IsSpace(s[0]) {
      var n := Span(s, Space);
      FirstMatchAt(s, 0, 0);
      var rest := s[n..];
      assert Span(rest, Space) == 0;
      assert rest[0..] == rest;
    } else {
      assert Span(s, Space) == 0;
      assert s[0..] == s;
    }
  }
}

module Tokenizing {
  import opened Wrappers
  import opened Errors
  import opened Lexer

  /** The stateful tokenizer: the input and a cursor into it, reset by
      `Init` and advanced by `Match`. */
  class Tokenizer {
    var str: string
    var cursor: nat

    ghost predicate Valid()
      reads this
    {
      cursor <= |str|
    }

    /** The input not yet consumed. */
    function Rest(): string
      reads this
      requires Valid()
    {
      str[cursor..]
    }

    constructor ()
      ensures Valid() && str == [] && cursor == 0
    {
      str := [];
      cursor := 0;
    }

    method Init(s: string)
      modifies this
      ensures Valid() && str == s && cursor == 0
    {
      str := s;
      cursor := 0;
    }

    function HasMoreTokens(): (b: bool)
      reads this
      requires Valid()
      ensures b <==> Rest() != []
    {
      cursor < |str|
    }

    function IsEOF(): (b: bool)
      reads this
      requires Valid()
      ensures b <==> Rest() == []
    {
      cursor == |str|
    }

    /** Runs one pattern on `s`, the rest of the input, and moves the cursor
        past what it matched. */
    method Match(p: Pattern, s: string) returns (m: Option<string>)
      requires Valid() && s == Rest()
      modifies this`cursor
      ensures Valid()
      ensures m == MatchPattern(p, s)
      ensures cursor == old(cursor) + (if m.Some? then |m.value| else 0)
    {
      m := MatchPattern(p, s);
      if m.Some? {
        cursor := cursor + |m.value|;
      }
    }

    /** The next token, None at end of input. */
    method GetNextToken() returns (r: Result<Option<Token>, Error>)
      requires Valid()
      modifies this`cursor
      ensures Valid()
      ensures r == Scan(old(Rest())).result
      ensures cursor == old(cursor) + Scan(old(Rest())).consumed
      decreases |str| - cursor
    {
      if !HasMoreTokens() {
        return Ok(None);
      }
      var s := str[cursor..];
      for i := 0 to |Spec|
        invariant cursor == old(cursor)
        invariant FirstMatch(s, 0) == FirstMatch(s, i)
      {
        var v := Match(Spec[i].pattern, s);
        if v.None? {
          continue;
        }
        assert FirstMatch(s, 0) == Some((i, v.value));
        ScanFollowsTable(s);
        if Spec[i].kind.None? {
          assert Rest() == s[|v.value|..];
          r := GetNextToken();
          return;
        }
        return Ok(Some(Token(Spec[i].kind.value, v.value)));
      }
      ScanFollowsTable(s);
      return Err(SyntaxError(UnexpectedChar(s[0])));
    }
  }
}
