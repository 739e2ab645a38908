# RuBAC policy expressions in Dafny

This project models the rule-based access control (RuBAC) engine of a NestJS
service. The engine covers:

- the tokenizer and recursive-descent parser for policy expressions such as
  `in($user.getRole(), 'ADMIN')` or `ip_range($ip_address, '100.100.100.1/28')`;
- the evaluation of the syntax trees, and the pre-order visitor that the
  compile-time checks run on;
- the `Workflow` class, which compiles a policy document (params and rules)
  and decides a request;
- the request-path matcher `checkPath`;
- the builtin `in` membership test and the table of builtins;
- the older `RubacService`, which substitutes resolved params into translated
  rule functions and runs them until one fails.

Modules, file by file:

- `wrappers.dfy`: `Option` and `Result`.
- `errors.dfy`: the exceptions as values: `SyntaxError`, `TypeError`,
  `CompilationError`, `ExecutionError`, `BadRequestException` and the plain
  `Error` of `parseJsonRules`.
- `values.dfy`: the JavaScript values expressions produce. It also covers
  truthiness, `Number` of a digit string and `obj[key]`.
- `builtins.dfy`: `in`, with `ip_range` as an oracle. There is one table,
  shared by `PredefFunctionsSpec` and `PredefIdentSpec`.
- `lexer.dfy`:
  - the token table as hand-written prefix matchers;
  - `Scan`, which is the outcome of one `getNextToken`;
  - the `Tokenizer` class, whose `cursor` field its methods advance.
- `lexer_props.dfy`: what one `getNextToken` call guarantees.
- `ast.dfy`: the seven node kinds.
- `grammar.dfy`: every production as a function of the parser state, which
  is the tokenizer cursor plus the one-token lookahead. Each function returns
  the node and the new state, or the exception thrown.
- `parser.dfy`: the `Parser` class. It has a `lookahead` field and a
  tokenizer, and each production is a method proved to agree with its
  `Grammar` function.
- `grammar_props.dfy`: how the parser treats member chains, calls, equality
  and `$name` operands, over token sequences of arbitrary words.
- `interpreter.dfy`: `Eval` (the `evaluate` closures of the nodes), `visit`
  as the sequence of calls it makes, and callback dispatch.
- `interpreter_props.dfy`: the visitor's pre-order and exactly-once
  properties and the evaluation rules.
- `workflow.dfy`: the `Workflow` constructor as loops over params and rules
  using a `Parser`. Also `resolveReqParams` as a loop, and `executeRules`.
- `workflow_props.dfy`: what the compile checks accept and what a decision
  means.
- `paths.dfy`: `cleanUpPath` and `checkPath` as loops, with their
  specification functions.
- `service.dfy`: the legacy service, a class holding the loaded document and
  the prepared rules.

## Inconsistencies the model keeps and states

The model keeps the source's own inconsistencies. It states each one as a
lemma and does not repair it:

- **No `'$'` token.**
  - The tokenizer makes `$name` one `VARIABLE` token.
  - The parser instead expects a `'$'` token followed by an `IDENTIFIER`
    (`VariableUnreachable`, `DollarOperandIsNotALiteral`,
    `DollarNameCannotParse`, `DollarRightOperand`).
  - Parsed trees therefore never contain a `Variable` node.
- **Two environment shapes.**
  - Nodes read `env.vars` and `env.predefIdent`.
  - `Workflow.executeRules` passes a flat object of builtins and `$`-keys.
  - As a result, every workflow with a param fails to execute
    (`ParamsBlockExecution`, `CompiledParamsBlockExecution`).
- **Names with and without `$`.** Declared names carry a `$` while `Variable`
  nodes carry the bare name (`BareVariableNameRejected`).
- **Null parent.** A rule that is a bare identifier dereferences its null
  parent (`RootIdentifierRejected`).

Numbers are the integers that digit literals denote.

## Model

| member | source | states |
|---|---|---|
| Builtins.SomeStrictlyEqual | src/rubac/interpreter/predefined-env-functions.ts:6 | `args.some(e => e === value)` is true exactly when some candidate equals the value (primitives by value as `===` does; objects and accessors by structure, see Left out) |
| Builtins.In | src/rubac/interpreter/predefined-env-functions.ts:5-7 | `in(v, c1..cn)` is true iff some ci equals v as Builtins.SomeStrictlyEqual compares; with no argument it is false |
| Builtins.InWithoutCandidates | src/rubac/interpreter/predefined-env-functions.ts:6 | `in(v)` with no candidates is false |
| Builtins.InIsStrict | src/rubac/interpreter/predefined-env-identifiers.ts:6 | a string never matches a number, in either argument position |
| Builtins.InDependsOnCandidateSet | src/rubac/interpreter/predefined-env-identifiers.ts:5-7 | reordering or duplicating the candidates does not change the result |
| Builtins.Apply | src/rubac/interpreter/predefined-env-functions.ts:16-19 | calling the `in` entry is `In` of the arguments; an accessor returns its value |
| Builtins.IsBuiltin | src/rubac/interpreter/predefined-env-identifiers.ts:16-19 | the table holds exactly `in` and `ip_range`, both functions |
| JsValues.Truthy | src/rubac/rubac.service.ts:75 | truthiness as `if (value)` and `if (passesRule)` test it: `false`, `0`, `""` and `undefined` are falsy, functions and objects truthy; RubacService.PreparedKeys and RubacService.ExecuteRules state what rests on it |
| JsValues.NatToString | src/rubac/parser/Parser.ts:211 | a number used as a property key is written as a non-empty run of decimal digits; JsValues.DigitsValueOfNatToString proves `Number` reads it back |
| JsValues.DigitsValue | src/rubac/parser/Parser.ts:358-368 | the number a NUMBER token's digits denote; JsValues.DigitsValueOfNatToString states that it inverts NatToString |
| JsValues.PropertyKey | src/rubac/parser/Parser.ts:211 | the string a value becomes as the key of `objValue[propValue]`; JsValues.Index states the lookup built on it |
| JsValues.DigitsValueOfNatToString | src/rubac/parser/Parser.ts:358-368 | `Number` reads back the digits `String` writes |
| JsValues.Index | src/rubac/parser/Parser.ts:211 | `obj[key]` is the field or undefined; indexing undefined is a TypeError, and only that |
| Lexer.IsSpace | src/rubac/parser/Tokenizer.ts:9 | the characters of the `\s` class; LexerProperties.SkipsLeadingSpaces and PathUtils.TrimIsInfix state what skipping and trimming them does |
| Lexer.IsWordChar | src/rubac/parser/Tokenizer.ts:33 | the characters of the `\w` class (ASCII letters, digits, `_`); LexerProperties.ScanIdentifier and LexerProperties.ScanVariable state the tokens built from them |
| Lexer.WellFormedToken | src/rubac/parser/Tokenizer.ts:6-39 | each token kind's shape, stated apart from the regex table; Lexer.RuleEmitsWellFormed and Lexer.WellFormedTokenKind state that the table emits only such tokens |
| Lexer.Span | src/rubac/parser/Tokenizer.ts:9 | a greedy run: the prefix is all in the class and the next character is not |
| Lexer.IndexOf | src/rubac/parser/Tokenizer.ts:37-38 | the first occurrence of the closing quote, or none |
| Lexer.MatchPattern | src/rubac/parser/Tokenizer.ts:103-110 | a match is a non-empty prefix of the remaining input |
| Lexer.FirstMatch | src/rubac/parser/Tokenizer.ts:68-85 | rules are tried in order: the returned rule matches and no earlier rule does; None when no rule matches |
| Lexer.WellFormedTokenKind | src/rubac/parser/Tokenizer.ts:6-39 | a well-formed token has one of the table's kinds and non-empty text |
| Lexer.RuleEmitsWellFormed | src/rubac/parser/Tokenizer.ts:6-39 | each emitting rule's match is a token of its kind, of the shape the rule's regex describes |
| Lexer.OnlyRuleZeroSkips | src/rubac/parser/Tokenizer.ts:9-38 | whitespace is the only rule with a null token type |
| Lexer.Scan | src/rubac/parser/Tokenizer.ts:61-88 | one `getNextToken`: the cursor moves no further than the input, and a returned token is well formed and no longer than what was consumed |
| Lexer.FirstMatchAt | src/rubac/parser/Tokenizer.ts:68-85 | rule i wins when it matches and no earlier rule does |
| Lexer.ScanFollowsTable | src/rubac/parser/Tokenizer.ts:61-88 | `Scan` is the source's table walk: no match is a SyntaxError naming the first character, a skip rule re-scans after its match, any other rule returns its token |
| Tokenizing.Tokenizer.constructor | src/rubac/parser/Tokenizer.ts:46-48 | a new tokenizer has an empty input and cursor 0 |
| Tokenizing.Tokenizer.Init | src/rubac/parser/Tokenizer.ts:53-56 | `init` sets the input and resets the cursor to 0 |
| Tokenizing.Tokenizer.HasMoreTokens | src/rubac/parser/Tokenizer.ts:92-94 | true exactly when input remains after the cursor |
| Tokenizing.Tokenizer.IsEOF | src/rubac/parser/Tokenizer.ts:99-101 | true exactly when the cursor is at the end of the input |
| Tokenizing.Tokenizer.Match | src/rubac/parser/Tokenizer.ts:103-110 | the match of the pattern on the remaining input; the cursor advances by exactly its length, or not at all |
| Tokenizing.Tokenizer.GetNextToken | src/rubac/parser/Tokenizer.ts:61-88 | the result is `Scan` of the remaining input, the cursor advances by what `Scan` consumed, and it stays within the input |
| LexerProperties.FirstMatchIsFirst | src/rubac/parser/Tokenizer.ts:68-85 | no rule before the winning rule matches |
| LexerProperties.ScanAtEnd | src/rubac/parser/Tokenizer.ts:61-64 | null exactly when only whitespace is left, which is then consumed |
| LexerProperties.ScanTokenIsNextPiece | src/rubac/parser/Tokenizer.ts:65-110 | a token's text is the non-empty piece of input after skipped whitespace, the cursor stops right after it, and no token has type '$' |
| LexerProperties.ScanErrorNamesChar | src/rubac/parser/Tokenizer.ts:87 | an error means no rule matches after the whitespace, and it names the first remaining character |
| LexerProperties.SkipsLeadingSpaces | src/rubac/parser/Tokenizer.ts:77-79 | leading whitespace changes only how far the cursor moves, never the token |
| LexerProperties.NoRuleBefore | src/rubac/parser/Tokenizer.ts:9-28 | the rules before rule i all reject text whose first character each of them rejects |
| LexerProperties.ScanNumber | src/rubac/parser/Tokenizer.ts:20 | a leading digit run is one NUMBER, even when word characters follow |
| LexerProperties.ScanIdentifier | src/rubac/parser/Tokenizer.ts:33 | a word not starting with a digit is one IDENTIFIER |
| LexerProperties.ScanVariable | src/rubac/parser/Tokenizer.ts:24 | `$` and word characters are one VARIABLE token that keeps its `$` |
| LexerProperties.ScanEqualityOperator | src/rubac/parser/Tokenizer.ts:28 | `==` and `!=` are EQUALITY_OPERATOR tokens carrying both characters |
| LexerProperties.ScanLoneEqualsOrBang | src/rubac/parser/Tokenizer.ts:28 | a lone `=` or `!` matches no rule and is a SyntaxError |
| LexerProperties.ScanQuoted | src/rubac/parser/Tokenizer.ts:37-38 | a quoted run up to the next same quote is one STRING with both quotes; an unclosed quote is a SyntaxError |
| LexerProperties.TwelveAb | src/rubac/parser/Tokenizer.ts:20-33 | "12ab" lexes as NUMBER "12" and then IDENTIFIER "ab" |
| Grammar.Next | src/rubac/parser/Parser.ts:405 | fetching the next token gives a state the tokenizer can produce, with no more input left than before |
| Grammar.Eat | src/rubac/parser/Parser.ts:392-407 | `_eat`: a SyntaxError at end of input or on another type; otherwise the lookahead is returned and exactly one token is fetched |
| Grammar.Unquote | src/rubac/parser/Parser.ts:377 | `slice(1, -1)`: the text between the first and last characters |
| Grammar.Identifier | src/rubac/parser/Parser.ts:316-332 | an IDENTIFIER token becomes an Identifier named by its text, consuming it |
| Grammar.Variable | src/rubac/parser/Parser.ts:277-299 | `$` then IDENTIFIER becomes a Variable node |
| Grammar.NumericLiteral | src/rubac/parser/Parser.ts:358-368 | a NUMBER token becomes a NumericLiteral of the number its digits denote |
| Grammar.StringLiteral | src/rubac/parser/Parser.ts:375-385 | a STRING token becomes a StringLiteral of its text without the quotes |
| Grammar.Literal | src/rubac/parser/Parser.ts:340-351 | only a NUMBER or STRING becomes a literal |
| Grammar.Primary | src/rubac/parser/Parser.ts:232-240 | the result is a primary expression, and it has no Variable on any state the tokenizer produces |
| Grammar.MemberLoop | src/rubac/parser/Parser.ts:200-218 | the `.name` loop keeps the tree a member chain and adds no Variable |
| Grammar.Member | src/rubac/parser/Parser.ts:197-220 | MemberExpression yields a left-folded member chain |
| Grammar.ArgumentListFrom | src/rubac/parser/Parser.ts:167-173 | the do-while consumes at least one token and stays within the input |
| Grammar.ArgumentListExtends | src/rubac/parser/Parser.ts:167-173 | the list only appends: earlier arguments stay in front, and at least one is added |
| Grammar.ArgumentListShape | src/rubac/parser/Parser.ts:181-189 | every added argument is a primary expression, free of Variables from a reachable state |
| Grammar.Arguments | src/rubac/parser/Parser.ts:151-160 | `(`, an optional list, `)`: every argument is a primary expression without Variables |
| Grammar.Call | src/rubac/parser/Parser.ts:126-145 | a CallExpression of the given callee with primary-expression arguments |
| Grammar.CallMember | src/rubac/parser/Parser.ts:105-113 | a member chain, called at most once |
| Grammar.Equality | src/rubac/parser/Parser.ts:247-262 | one operator, the given left operand, and a primary right operand |
| Grammar.Binary | src/rubac/parser/Parser.ts:66-79 | the result is a call/member expression, optionally compared once; GrammarProperties.BinaryOther, BinaryEq and BinaryOperandFails state each branch after the left operand |
| Grammar.Parse | src/rubac/parser/Parser.ts:38-47 | a parsed tree is an Expression and holds no Variable node |
| Parsing.Parser.constructor | src/rubac/parser/Parser.ts:29-31 | a fresh tokenizer and no lookahead |
| Parsing.Parser.Parse | src/rubac/parser/Parser.ts:38-47 | `parse` returns exactly `Grammar.Parse` of the input |
| Parsing.Parser.Expression | src/rubac/parser/Parser.ts:57-59 | agrees with `Grammar.Binary`: same node or error, and the same final state |
| Parsing.Parser.BinaryExpression | src/rubac/parser/Parser.ts:66-79 | agrees with `Grammar.Binary` |
| Parsing.Parser.UnaryExpression | src/rubac/parser/Parser.ts:86-88 | agrees with `Grammar.CallMember` |
| Parsing.Parser.LeftHandSideExpression | src/rubac/parser/Parser.ts:96-98 | agrees with `Grammar.CallMember` |
| Parsing.Parser.CallMemberExpression | src/rubac/parser/Parser.ts:105-113 | agrees with `Grammar.CallMember` |
| Parsing.Parser.CallExpression | src/rubac/parser/Parser.ts:126-145 | agrees with `Grammar.Call` |
| Parsing.Parser.Arguments | src/rubac/parser/Parser.ts:151-160 | agrees with `Grammar.Arguments`; no lookahead is a TypeError |
| Parsing.Parser.ArgumentList | src/rubac/parser/Parser.ts:167-173 | the do-while loop agrees with `Grammar.ArgumentListFrom` from an empty list |
| Parsing.Parser.Argument | src/rubac/parser/Parser.ts:181-189 | agrees with `Grammar.Primary` |
| Parsing.Parser.MemberExpression | src/rubac/parser/Parser.ts:197-220 | the while loop agrees with `Grammar.Member` |
| Parsing.Parser.PrimaryExpression | src/rubac/parser/Parser.ts:232-240 | agrees with `Grammar.Primary`; no lookahead is a TypeError |
| Parsing.Parser.EqualityOperation | src/rubac/parser/Parser.ts:247-262 | agrees with `Grammar.Equality` |
| Parsing.Parser.Variable | src/rubac/parser/Parser.ts:277-299 | agrees with `Grammar.Variable` |
| Parsing.Parser.Identifier | src/rubac/parser/Parser.ts:316-332 | agrees with `Grammar.Identifier` |
| Parsing.Parser.Literal | src/rubac/parser/Parser.ts:340-351 | agrees with `Grammar.Literal` |
| Parsing.Parser.NumericLiteral | src/rubac/parser/Parser.ts:358-368 | agrees with `Grammar.NumericLiteral` |
| Parsing.Parser.StringLiteral | src/rubac/parser/Parser.ts:375-385 | agrees with `Grammar.StringLiteral` |
| Parsing.Parser.Eat | src/rubac/parser/Parser.ts:392-407 | agrees with `Grammar.Eat` |
| GrammarProperties.NextWord | src/rubac/parser/Tokenizer.ts:33 | a word at the cursor, not followed by a word character, is the next IDENTIFIER lookahead |
| GrammarProperties.NextNumber | src/rubac/parser/Tokenizer.ts:20 | a digit run at the cursor is the next NUMBER lookahead |
| GrammarProperties.NextVariable | src/rubac/parser/Tokenizer.ts:24 | `$word` at the cursor is the next VARIABLE lookahead |
| GrammarProperties.NextSymbol | src/rubac/parser/Tokenizer.ts:13-16 | `,` `.` `(` `)` at the cursor are one-character tokens of their own type |
| GrammarProperties.NextEquals | src/rubac/parser/Tokenizer.ts:28 | `==` at the cursor is the next EQUALITY_OPERATOR lookahead |
| GrammarProperties.NextAtEnd | src/rubac/parser/Tokenizer.ts:61-64 | at the end of input the lookahead is null and the cursor stays |
| GrammarProperties.VariableUnreachable | src/rubac/parser/Parser.ts:277-299 | no token has type '$', so `Variable` fails on every state the tokenizer produces |
| GrammarProperties.DollarOperandIsNotALiteral | src/rubac/parser/Parser.ts:232-240 | a VARIABLE lookahead where an operand is expected falls to `Literal` and is a SyntaxError |
| GrammarProperties.ParseIsBinary | src/rubac/parser/Parser.ts:38-59 | `parse` is the Expression at the first token; what it leaves is ignored |
| GrammarProperties.BinaryAtEnd | src/rubac/parser/Parser.ts:71-74 | at end of input the left operand is the whole expression |
| GrammarProperties.CallMemberUncalled | src/rubac/parser/Parser.ts:105-113 | without a following `(` the member expression is not called |
| GrammarProperties.MemberOfPrimary | src/rubac/parser/Parser.ts:197-200 | MemberExpression starts its loop from the primary expression |
| GrammarProperties.IdentifierStep | src/rubac/parser/Parser.ts:232-240 | an IDENTIFIER lookahead is an Identifier node, and the next token becomes the lookahead |
| GrammarProperties.MemberLoopDot | src/rubac/parser/Parser.ts:200-217 | one `.name` wraps the object built so far in a MemberExpression |
| GrammarProperties.MemberLoopStop | src/rubac/parser/Parser.ts:200 | the loop stops when the lookahead is not `.` |
| GrammarProperties.MemberChainFoldsLeft | src/rubac/parser/Parser.ts:197-220 | `a.b.c` parses to MemberExpression(MemberExpression(a, b), c), every property an Identifier |
| GrammarProperties.CallWithoutArguments | src/rubac/parser/Parser.ts:151-160 | `f()` is a call with an empty argument list |
| GrammarProperties.ArgumentThenComma | src/rubac/parser/Parser.ts:169-171 | an argument followed by `,` continues the list |
| GrammarProperties.LastArgument | src/rubac/parser/Parser.ts:169-172 | an argument followed by anything but `,` ends the list |
| GrammarProperties.ArgumentsEnclosed | src/rubac/parser/Parser.ts:151-160 | `(`, a non-empty list, `)` is that list of arguments |
| GrammarProperties.CallMemberCalled | src/rubac/parser/Parser.ts:105-110 | a member expression followed by arguments is called with them |
| GrammarProperties.TwoArguments | src/rubac/parser/Parser.ts:167-173 | `x, y` is the list `[x, y]` |
| GrammarProperties.CallArgumentsInOrder | src/rubac/parser/Parser.ts:126-173 | `f(x, y)` parses to a call of f with arguments x and y, in source order |
| GrammarProperties.TokensAfterRightOperandIgnored | src/rubac/parser/Parser.ts:247-262 | `x == y` followed by any token parses to one EqualityOperation; the rest is never read |
| GrammarProperties.OperandThenOtherToken | src/rubac/parser/Parser.ts:66-79 | a single number followed by one token that is not `.`, `(` or an equality operator is a SyntaxError naming that token's type; the general rule is GrammarProperties.BinaryOther |
| GrammarProperties.BinaryOther | src/rubac/parser/Parser.ts:66-79 | after any left operand, a lookahead that is not an equality operator is a SyntaxError naming its type |
| GrammarProperties.BinaryEq | src/rubac/parser/Parser.ts:66-79 | after any left operand, an equality operator continues as the EqualityOperation with that operand on the left |
| GrammarProperties.BinaryOperandFails | src/rubac/parser/Parser.ts:66-79 | a left operand that fails to parse fails the expression with its own error |
| GrammarProperties.TwelveAbRejected | src/rubac/parser/Parser.ts:66-79 | "12ab" is rejected after `12`, naming IDENTIFIER |
| GrammarProperties.DollarNameCannotParse | src/rubac/parser/Parser.ts:340-350 | any input starting with `$name` is a SyntaxError from `Literal` |
| GrammarProperties.DollarRightOperand | src/rubac/parser/Parser.ts:249 | a `$name` right operand is rejected the same way |
| Interpreter.Eval | src/rubac/parser/Parser.ts:126-385 | each node's `evaluate(env)`; its promises are InterpreterProperties.EvalIdentifier, EvalVariable, EvalAllInOrder, EvalCall, EvalInCall, EvalEquals, NotEqualNegatesEqual, EvalMemberCallsGetter, EvalMemberAccess and FlatEnvironmentFails |
| Interpreter.Visits | src/rubac/interpreter/Interpreter.ts:41-64 | the calls `_visit` makes for one subtree, the node first; InterpreterProperties.VisitsEveryNodeOnce states that every subtree is visited exactly once |
| Interpreter.ChildVisits | src/rubac/interpreter/Interpreter.ts:53-63 | the calls of the children loop; InterpreterProperties.ChildVisitsEveryNodeOnce and ChildVisitsLinked state that they cover every proper subtree once, each with its parent, field and index |
| Interpreter.VisitsAll | src/rubac/interpreter/Interpreter.ts:56-59 | the calls for the elements of an array field, indexed from 0; InterpreterProperties.VisitsAllEveryNodeOnce, VisitsAllLinked and IndexOnlyForArrays state them |
| Interpreter.Visit | src/rubac/interpreter/Interpreter.ts:65 | the walk from the root with a null parent; InterpreterProperties.VisitIsPreOrder states its pre-order and parent links |
| Interpreter.ChildAt | src/rubac/interpreter/Interpreter.ts:53-63 | the child `node[keys[i]]` (element `j` for an array) a visit names; InterpreterProperties.ChildVisitsLinked and VisitIsPreOrder state that every visit's parent holds the node there |
| Interpreter.RunCallbacks | src/rubac/interpreter/Interpreter.ts:41-65 | the callbacks fired over the walk, the first throw ending it; InterpreterProperties.RunCallbacksOk states when it completes and what it throws |
| Interpreter.RunOn | src/rubac/interpreter/Interpreter.ts:45-51 | the `Node` and type callbacks fired on one node; InterpreterProperties.RunOnOk states that it returns normally exactly when each does |
| Interpreter.EnvOf | src/rubac/interpreter/Interpreter.ts:30-33 | reading `vars` or `predefIdent` off an object without that key gives undefined |
| Interpreter.EvalAll | src/rubac/parser/Parser.ts:131 | `args.map(evaluate)` yields one value per argument |
| Interpreter.Evaluate | src/rubac/interpreter/Interpreter.ts:68-70 | `evaluate` is the node's own evaluation; a literal yields its value |
| Interpreter.Dispatch | src/rubac/interpreter/Interpreter.ts:45-51 | `Node` fires first when present, the type callback fires exactly when the map has the node's type, and nothing else fires |
| InterpreterProperties.VisitsEveryNodeOnce | src/rubac/interpreter/Interpreter.ts:41-65 | the walk hands every subtree to the callbacks exactly once and nothing else |
| InterpreterProperties.ChildVisitsEveryNodeOnce | src/rubac/interpreter/Interpreter.ts:53-63 | the children loop visits every proper subtree once |
| InterpreterProperties.VisitsAllEveryNodeOnce | src/rubac/interpreter/Interpreter.ts:56-59 | the array loop visits every subtree of every element once |
| InterpreterProperties.ChildVisitsLinked | src/rubac/interpreter/Interpreter.ts:53-63 | every child call passes its containing node, field name and index |
| InterpreterProperties.VisitsAllLinked | src/rubac/interpreter/Interpreter.ts:56-59 | every record of an array field's walk names its parent, which holds the node at the record's key and index; the order is stated by InterpreterProperties.ChildVisitsInFieldOrder |
| InterpreterProperties.VisitIsPreOrder | src/rubac/interpreter/Interpreter.ts:41-65 | the root is visited first with a null parent; every later call names an earlier-visited parent whose field holds the node |
| InterpreterProperties.LeavesHaveNoChildren | src/rubac/interpreter/Interpreter.ts:76-81 | literal and name nodes have only primitive fields, so only they are visited |
| InterpreterProperties.IndexOnlyForArrays | src/rubac/interpreter/Interpreter.ts:56-62 | an index is passed exactly for the elements of the `arguments` array |
| InterpreterProperties.DirectChildren | src/rubac/interpreter/Interpreter.ts:53-63 | the calls `_visit` makes directly on a node's children, in declared field order and array elements by ascending index; InterpreterProperties.ChildVisitsInFieldOrder states that the walk makes exactly these |
| InterpreterProperties.ChildVisitsInFieldOrder | src/rubac/interpreter/Interpreter.ts:53-63 | the records of the children loop whose parent is the node are exactly its direct children, in order: `object` before `property`, `callee` before the arguments, `arguments[0]` before `arguments[1]` and so on, with no index except for array elements |
| InterpreterProperties.RunOnOk | src/rubac/interpreter/Interpreter.ts:45-51 | the callbacks fired on one node return normally exactly when each does |
| InterpreterProperties.RunCallbacksOk | src/rubac/interpreter/Interpreter.ts:41-65 | the walk completes exactly when no fired callback throws; otherwise it throws what a fired callback threw |
| InterpreterProperties.NodeFiresBeforeType | src/rubac/interpreter/Interpreter.ts:45-51 | with both present, `Node` fires first and the type callback second |
| InterpreterProperties.NodeIsNoType | src/rubac/interpreter/Interpreter.ts:42 | no node has type `Node` |
| InterpreterProperties.EvalIdentifier | src/rubac/parser/Parser.ts:320-329 | an Identifier is `env.predefIdent[name]`, or its own name when that is undefined |
| InterpreterProperties.EvalVariable | src/rubac/parser/Parser.ts:284-292 | a Variable throws ExecutionError naming it exactly when `env.vars[name]` is undefined |
| InterpreterProperties.EvalAllInOrder | src/rubac/parser/Parser.ts:131 | arguments evaluate left to right: all succeed with values in order, or the first failure is thrown |
| InterpreterProperties.EvalCall | src/rubac/parser/Parser.ts:130-139 | arguments are evaluated before the callee: an argument's error wins, then the callee's; a function callee (`in`, `ip_range`, an accessor) is applied to the argument values, any other callee is the DynamicEval fallback |
| InterpreterProperties.EvalInCall | src/rubac/parser/Parser.ts:130-134 | calling `in` returns whether the first argument is strictly equal to another |
| InterpreterProperties.NotEqualNegatesEqual | src/rubac/parser/Parser.ts:254-259 | `!=` is the negation of `==` on the same operands |
| InterpreterProperties.EvalEquals | src/rubac/parser/Parser.ts:254-259 | `==` is the equality of the two evaluated sides; an error of the left side wins, then the right side's |
| InterpreterProperties.EvalMemberCallsGetter | src/rubac/parser/Parser.ts:208-216 | a member access whose field is an accessor calls it with no arguments and yields its value |
| InterpreterProperties.EvalMemberAccess | src/rubac/parser/Parser.ts:208-216 | the object is evaluated before the property and either's error is thrown; an undefined object is a TypeError; an absent key or a primitive object gives undefined; a non-function field is returned as it is; a builtin field is called with no arguments, so `in` gives false and `ip_range` the oracle's value on no arguments |
| InterpreterProperties.FlatEnvironmentFails | src/rubac/interpreter/Interpreter.ts:30-33 | without `vars` and `predefIdent` keys, every tree naming an identifier or variable fails |
| Workflows.PrimaryCallback | src/rubac/workflow/Workflow.ts:104-115 | the `Node` callback of `checkForPrimaryExpression`; WorkflowProperties.PrimaryRecordOk and PrimaryCallbackError state which nodes it accepts and the error naming the others |
| Workflows.PrimaryCallbacks | src/rubac/workflow/Workflow.ts:103-116 | the callback map holding only `Node`; WorkflowProperties.PrimaryVisits states that the walk with it accepts exactly the trees of primary nodes |
| Workflows.CheckForPrimaryExpression | src/rubac/workflow/Workflow.ts:102-117 | the param check; WorkflowProperties.PrimaryCheck states that it accepts iff every node is a member expression, variable or identifier |
| Workflows.IdentifierCallback | src/rubac/workflow/Workflow.ts:83-90 | an identifier called as a function must be a builtin; WorkflowProperties.RuleRecordOk, RuleCallbackErrors and RootIdentifierRejected state it |
| Workflows.VariableCallback | src/rubac/workflow/Workflow.ts:91-98 | a variable must be declared unless none are; WorkflowProperties.RuleRecordOk, RuleCallbackErrors and BareVariableNameRejected state it |
| Workflows.RuleCallbacks | src/rubac/workflow/Workflow.ts:82-99 | the `Identifier` and `Variable` callbacks of the rule check; WorkflowProperties.RuleVisits states the walk with them |
| Workflows.CheckForPredefFunctionsAndVars | src/rubac/workflow/Workflow.ts:76-100 | the rule check; WorkflowProperties.RuleCheck and NoVariablesAllDeclared state what it accepts and its errors |
| Workflows.CompileParam | src/rubac/workflow/Workflow.ts:24-28 | one param parsed and checked; WorkflowProperties.CompileParamIs states it |
| Workflows.CompileRule | src/rubac/workflow/Workflow.ts:32-35 | one rule parsed and checked against the declared names; WorkflowProperties.CompileRuleIs states it |
| Workflows.CompileSpec | src/rubac/workflow/Workflow.ts:19-38 | the constructor as a value; Workflows.Compile returns it, WorkflowProperties.Compiles and CompileParamsFirstError state what it accepts and rejects |
| Workflows.BaseEnvironment | src/rubac/workflow/Workflow.ts:42-46 | the builtins with `$user` and `$request` spread into one object; WorkflowProperties.EnvironmentsAreFlat states that it has no `vars` or `predefIdent` key |
| Workflows.SomeFalse | src/rubac/workflow/Workflow.ts:60 | `results.some(res => res === false)`; Workflows.SomeFalseExists states it |
| Workflows.Decision | src/rubac/workflow/Workflow.ts:40-61 | what `executeRules` resolves to; Workflows.ExecuteRules returns it, WorkflowProperties.DecisionResults, DecisionIsNoFalseRule, DecisionIgnoresRuleOrder and ParamsBlockExecution state it |
| Workflows.DeclaredNames | src/rubac/workflow/Workflow.ts:27 | one name per param, `$` + its name, in declaration order |
| Workflows.MapUntilError | src/rubac/workflow/Workflow.ts:23-36 | the loop over params or rules yields one result per element |
| Workflows.MapPrefixError | src/rubac/workflow/Workflow.ts:23-36 | once an iteration throws, the rest of the loop never runs |
| Workflows.CompileParams | src/rubac/workflow/Workflow.ts:23-29 | the params loop gives one compiled param per param |
| Workflows.CompileRules | src/rubac/workflow/Workflow.ts:31-36 | the rules loop gives one compiled rule per rule |
| Workflows.CompileParamList | src/rubac/workflow/Workflow.ts:22-29 | the params loop with a parser is `CompileParams`, and on success the declared names are `DeclaredNames` |
| Workflows.CompileRuleList | src/rubac/workflow/Workflow.ts:31-36 | the rules loop with a parser is `CompileRules` against the declared names |
| Workflows.Compile | src/rubac/workflow/Workflow.ts:19-38 | the constructor yields `CompileSpec`: params first, then rules against all declared names |
| Workflows.ResolveSpec | src/rubac/workflow/Workflow.ts:63-74 | every key filled in is `$`-prefixed |
| Workflows.ResolveReqParams | src/rubac/workflow/Workflow.ts:63-74 | the loop filling the dictionary yields `ResolveSpec` |
| Workflows.RuleAsts | src/rubac/workflow/Workflow.ts:56-58 | the trees of the rules, one per rule, in order |
| Workflows.ExecuteRules | src/rubac/workflow/Workflow.ts:40-61 | `executeRules` resolves to `Decision` |
| Workflows.SomeFalseExists | src/rubac/workflow/Workflow.ts:60 | `some(res === false)` is true exactly when some result is exactly `false` |
| WorkflowProperties.PrimaryRecordOk | src/rubac/workflow/Workflow.ts:104-115 | the `Node` callback passes exactly on member expressions, variables and identifiers |
| WorkflowProperties.PrimaryVisits | src/rubac/workflow/Workflow.ts:102-117 | the walk passes exactly on trees made only of those nodes |
| WorkflowProperties.PrimaryCheck | src/rubac/workflow/Workflow.ts:102-117 | a param tree is accepted iff every node is a member expression, variable or identifier; otherwise the CompilationError names an offending node's type |
| WorkflowProperties.PrimaryCallbackError | src/rubac/workflow/Workflow.ts:110-114 | the error the callback throws names the node's type |
| WorkflowProperties.RuleRecordOk | src/rubac/workflow/Workflow.ts:82-98 | the two callbacks pass on a node exactly when `NodeOk` holds for it and its parent |
| WorkflowProperties.RuleVisits | src/rubac/workflow/Workflow.ts:82-99 | the walk passes exactly when every node passes given its parent |
| WorkflowProperties.RuleCheck | src/rubac/workflow/Workflow.ts:76-100 | a rule passes iff its root is not a bare identifier, every called or directly passed identifier is a builtin, and, unless no names are declared, every variable is declared; errors are only those three kinds |
| WorkflowProperties.RuleCallbackErrors | src/rubac/workflow/Workflow.ts:83-98 | the callbacks throw only a null-parent TypeError or one of the two CompilationErrors |
| WorkflowProperties.RootIdentifierRejected | src/rubac/workflow/Workflow.ts:84-85 | a bare identifier rule dereferences its null parent: TypeError |
| WorkflowProperties.BareVariableNameRejected | src/rubac/workflow/Workflow.ts:91-97 | a Variable named without `$` is not among the `$`-prefixed declared names |
| WorkflowProperties.NoVariablesAllDeclared | src/rubac/workflow/Workflow.ts:91-97 | a tree without variables satisfies any declared list |
| WorkflowProperties.ParsedRuleIgnoresDeclaredNames | src/rubac/workflow/Workflow.ts:32-34 | for a parsed rule the declared names never change the check's outcome |
| WorkflowProperties.CompileParamIs | src/rubac/workflow/Workflow.ts:24-28 | a param compiles iff it parses and passes the primary check; it keeps its fields and gains its tree |
| WorkflowProperties.CompileRuleIs | src/rubac/workflow/Workflow.ts:32-35 | a rule compiles iff it parses and passes the builtin and variable check; it keeps its fields and gains its tree |
| WorkflowProperties.MapUntilErrorOk | src/rubac/workflow/Workflow.ts:23-36 | the loop succeeds iff every element succeeds, with results in order |
| WorkflowProperties.MapUntilErrorFirstError | src/rubac/workflow/Workflow.ts:23-36 | the error thrown is the first failing element's, after all earlier ones succeeded |
| WorkflowProperties.Compiles | src/rubac/workflow/Workflow.ts:19-38 | a document compiles iff every param compiles and every rule compiles against `$`+each param name; the fields are kept and each entry gains its own tree at the same index |
| WorkflowProperties.CompileParamsFirstError | src/rubac/workflow/Workflow.ts:23-29 | compilation stops at the first failing param |
| WorkflowProperties.ResolveKeys | src/rubac/workflow/Workflow.ts:63-74 | the keys filled in are exactly `$` + each param's name |
| WorkflowProperties.ResolveValue | src/rubac/workflow/Workflow.ts:68-71 | each param is evaluated against the given environment, not earlier params, and the last of a name wins |
| WorkflowProperties.DecisionResults | src/rubac/workflow/Workflow.ts:40-61 | a decision evaluates every rule in the environment extended by the resolved params |
| WorkflowProperties.DecisionIsNoFalseRule | src/rubac/workflow/Workflow.ts:55-60 | false iff some rule evaluates to exactly `false`; other values pass, and no rules gives true |
| WorkflowProperties.SomeFalseIsFalseRule | src/rubac/workflow/Workflow.ts:60 | some result is exactly `false` iff some rule tree evaluates to `false` |
| WorkflowProperties.RulesEvaluateTogether | src/rubac/workflow/Workflow.ts:55-59 | rule lists with the same elements evaluate without error together |
| WorkflowProperties.SomeRuleFalseTogether | src/rubac/workflow/Workflow.ts:55-60 | rule lists with the same elements have a `false` rule together |
| WorkflowProperties.DecisionIgnoresRuleOrder | src/rubac/workflow/Workflow.ts:55-60 | the rules' order changes neither the decision nor whether there is one |
| WorkflowProperties.OnlyNameNodesNames | src/rubac/workflow/Workflow.ts:102-117 | a tree passing the primary check names an identifier or variable |
| WorkflowProperties.EnvironmentsAreFlat | src/rubac/workflow/Workflow.ts:42-53 | neither environment `executeRules` builds has a `vars` or `predefIdent` key |
| WorkflowProperties.ParamsBlockExecution | src/rubac/workflow/Workflow.ts:42-53 | a workflow whose first param passed the primary check never reaches a decision |
| WorkflowProperties.DecisionNeedsNameFreeRules | src/rubac/workflow/Workflow.ts:50-59 | a decision is reached only when no rule names an identifier or variable |
| WorkflowProperties.CompiledParamsBlockExecution | src/rubac/workflow/Workflow.ts:19-61 | every workflow compiled from a document with a param fails to execute |
| PathUtils.Lead | src/rubac/rubac.service.utils.ts:2-4 | the one leading `/` `cleanUpPath` drops; PathUtils.CleanUp's contract states the result with it |
| PathUtils.CleanUp | src/rubac/rubac.service.utils.ts:1-9 | at most one leading and one trailing `/` are removed and nothing else changes |
| PathUtils.CleanUpPath | src/rubac/rubac.service.utils.ts:1-9 | the two reassignments of `path` yield `CleanUp` |
| PathUtils.Split | src/rubac/rubac.service.utils.ts:14-15 | `split('/')` gives at least one segment, none containing `/` |
| PathUtils.Join | src/rubac/rubac.service.utils.ts:14-15 | `segs.join('/')`, the inverse PathUtils.JoinSplit checks Split against |
| PathUtils.JoinSplit | src/rubac/rubac.service.utils.ts:14-15 | joining the segments with `/` gives back the text |
| PathUtils.SplitNoSlash | src/rubac/rubac.service.utils.ts:14-15 | a text without `/` is its own single segment |
| PathUtils.SplitAfterSegment | src/rubac/rubac.service.utils.ts:14-15 | splitting `a/b` gives `a` followed by the segments of `b` |
| PathUtils.Trim | src/rubac/rubac.service.utils.ts:17-18 | `trim()` gives no longer text with no whitespace at either end |
| PathUtils.TrimIsInfix | src/rubac/rubac.service.utils.ts:17-18 | `trim()` keeps one infix of the text and removes only whitespace before and after it; with Trim's own contract the removed runs are maximal |
| PathUtils.Walk | src/rubac/rubac.service.utils.ts:16-25 | the segment loop from a given segment; PathUtils.WalkReaches, WildcardAccepts, FirstMismatchRejects, LongerRequestFails and WalkEqualSegments state it |
| PathUtils.CheckPathSpec | src/rubac/rubac.service.utils.ts:11-27 | `checkPath` as a value; PathUtils.CheckPath returns it, PathUtils.CheckPathReflexive, ShorterRequestMatches, SegmentPrefixMatches and CheckPathIgnoresSlashes state it |
| PathUtils.CheckPath | src/rubac/rubac.service.utils.ts:11-27 | the segment loop with its early returns yields `CheckPathSpec` |
| PathUtils.WalkReaches | src/rubac/rubac.service.utils.ts:16-25 | the loop reaches segment i when every earlier segment passes |
| PathUtils.Segments | src/rubac/rubac.service.utils.ts:12-15 | a cleaned path has at least one segment |
| PathUtils.WildcardAccepts | src/rubac/rubac.service.utils.ts:19-21 | the first `*` reached in the pattern accepts, whatever the later request segments |
| PathUtils.FirstMismatchRejects | src/rubac/rubac.service.utils.ts:22-24 | the first differing trimmed segment, not `*`, rejects |
| PathUtils.LongerRequestFails | src/rubac/rubac.service.utils.ts:16-18 | a request longer than the pattern, with no `*` reached, reads a missing segment: TypeError |
| PathUtils.WalkEqualSegments | src/rubac/rubac.service.utils.ts:16-26 | equal trimmed segments all the way accept |
| PathUtils.SegmentPrefixMatches | src/rubac/rubac.service.utils.ts:16-26 | a request whose segments are a prefix of the pattern's matches |
| PathUtils.CheckPathReflexive | src/rubac/rubac.service.utils.ts:11-27 | every path matches itself |
| PathUtils.ShorterRequestMatches | src/rubac/rubac.service.utils.ts:16-26 | `w` matches the pattern `w/x` ("admin" against "admin/w1") |
| PathUtils.CleanUpSlashed | src/rubac/rubac.service.utils.ts:1-9 | one slash added at either end is removed again |
| PathUtils.CheckPathIgnoresSlashes | src/rubac/rubac.service.utils.ts:12-13 | for base paths with no `/` at either end, adding a leading or trailing slash to either argument does not change the result |
| RubacService.Get | src/rubac/rubac.service.ts:91 | `d[key]` is defined exactly when some entry has the key |
| RubacService.Put | src/rubac/rubac.service.ts:55 | `acc[key] = value`: an existing key keeps its place, a new key goes last, keys stay unique |
| RubacService.GetPut | src/rubac/rubac.service.ts:55 | reading back gives the value put; other keys are unaffected |
| RubacService.Prepared | src/rubac/rubac.service.ts:73-79 | every prepared key is `$`-prefixed and holds a truthy value |
| RubacService.PrepareParams | src/rubac/rubac.service.ts:73-79 | the fold filling its accumulator in place yields `Prepared` |
| RubacService.PreparedKeys | src/rubac/rubac.service.ts:73-79 | `$n` is prepared iff some param named n resolves to a truthy value |
| RubacService.PreparedValue | src/rubac/rubac.service.ts:74-77 | of the params with one name, the last truthy one's value is stored |
| RubacService.Substring | src/rubac/rubac.service.ts:94 | `substring` never yields more than the text |
| RubacService.ReplaceArg | src/rubac/rubac.service.ts:89-98 | a `$` argument is looked up, undefined when absent; a quoted one loses its quotes; anything else is a BadRequest naming the argument and rule |
| RubacService.LoneQuoteIsKept | src/rubac/rubac.service.ts:93-94 | the argument `'` is both quotes, and `substring(1, 0)` gives `'` back |
| RubacService.ReplaceArgs | src/rubac/rubac.service.ts:89-99 | one value per argument |
| RubacService.ReplaceRule | src/rubac/rubac.service.ts:100 | the entry keeps its name, `fn` and `operator` |
| RubacService.Replaced | src/rubac/rubac.service.ts:86-103 | one output entry per prepared rule |
| RubacService.ReplacedRules | src/rubac/rubac.service.ts:86-103 | substitution succeeds iff every argument is a reference or quoted, keeping each rule, in order, with `fn`, `operator` and each argument replaced in place |
| RubacService.ReplacedError | src/rubac/rubac.service.ts:96-98 | a failure is a BadRequest naming a bad argument and its rule |
| RubacService.AllRulesPass | src/rubac/rubac.service.ts:105-127 | every replaced rule's function returns a truthy value; RubacService.ExecuteRules returns exactly this |
| RubacService.ExecuteRules | src/rubac/rubac.service.ts:105-127 | true iff every rule passes (also with no rules); false means the first failing rule came after only passing ones |
| RubacService.Translated | src/rubac/rubac.service.ts:44-59 | the rule table has unique names |
| RubacService.TranslatedStep | src/rubac/rubac.service.ts:45-56 | one more rule is skipped when untranslatable, else stored under its name |
| RubacService.LastTranslation | src/rubac/rubac.service.ts:44-59 | the translation of the last rule of a name that translates; RubacService.TranslatedGet and LastTranslationFound state it |
| RubacService.TranslatedGet | src/rubac/rubac.service.ts:44-59 | the entry under a name is the last translation of a rule of that name |
| RubacService.LastTranslationFound | src/rubac/rubac.service.ts:44-59 | such a translation exists iff some rule of that name translates, and it is the last one's |
| RubacService.TranslatedEntry | src/rubac/rubac.service.ts:44-59 | a name has an entry iff some rule of it translates; the entry is the last such rule's translation |
| RubacService.NothingTranslated | src/rubac/rubac.service.ts:60-66 | the table is empty iff no rule translates |
| RubacService.Decision | src/rubac/rubac.service.ts:70-84 | `testAgainstRules` on the loaded state; RubacService.Service.TestAgainstRules returns it and RubacService.FalsyParamIsUndefined states how params reach it |
| RubacService.FalsyParamIsUndefined | src/rubac/rubac.service.ts:75-92 | an argument naming a param whose values are all falsy reaches the rule as undefined |
| RubacService.Service.constructor | src/rubac/rubac.service.ts:15-17 | nothing is loaded yet |
| RubacService.Service.ParseJsonRules | src/rubac/rubac.service.ts:40-68 | the document is kept; succeeds iff some rule translates and then stores the table; otherwise throws naming the workflow and keeps the old table |
| RubacService.Service.ReplaceParamsInRules | src/rubac/rubac.service.ts:86-103 | the loop filling a new object yields `Replaced`; with no rules loaded it is a TypeError |
| RubacService.Service.TestAgainstRules | src/rubac/rubac.service.ts:70-84 | prepare params, substitute, execute: the result is `Decision` on the loaded state |

## Left out

- Logging and console output are not modelled.
- The constructor of the legacy service is left out: its file read,
  `process.env` and `JSON.parse` are I/O. The new service starts with nothing
  loaded, and the document is a parameter of `ParseJsonRules`.
- `ParseJsonRules` returns its exception as a value; the model does not
  capture that `parseJsonRules` is async, so the source's exception becomes
  a rejected promise nobody awaits.
- `tryOperations`, `resolveParams` and calling a translated rule function
  are not defined in any of the modelled files, so they are parameters
  (`Translator`, `Resolver`, `Caller`).
- `ip_range` is the `ip-range-check` library, CIDR notation as in section
  3.1 of RFC 4632. It is an oracle parameter of `Eval` and `Apply`.
- The `eval` fallbacks are not modelled.
  - A call whose callee is not a function (`Parser.ts:136-138`) is the
    `DynamicEval` error.
  - Equality is built as source text and run through `eval`
    (`Parser.ts:254-259`). It is modelled as typed value equality, with `!=`
    as its negation. JavaScript's loose `==` between mixed types and
    string-quoting quirks are not captured.
- Interpreter.Eval: numbers are integers. The grammar has only digit
  literals, so no floating point arises, but numbers beyond 2^53 lose
  precision in the source and not here.
- `null` is not a value. Property access on a primitive gives undefined,
  and inherited prototype properties (e.g. `"x".length`, `toString`) are not
  modelled.
- Workflows.IdentifierCallback: `predefFunctions[node.name]` also finds the
  members every object inherits from `Object.prototype` (`toString`,
  `constructor`, `hasOwnProperty`, ...). The source therefore accepts such a
  name as a callee or call argument, as in `toString(1)`; the model raises
  `FunctionNotDefined` for it, since only `in` and `ip_range` are builtins
  here.
- Strings are sequences of Unicode scalar values, while JavaScript strings
  are UTF-16 code units. For a character outside the Basic Multilingual
  Plane the source's cursor advances by two units where the model's
  advances by one, and the `Unexpected token` error names only its first
  unit (a lone surrogate) where the model names the whole character. The
  tokens, `slice`, `trim()` and `split('/')` give the same text in both,
  since every delimiter, quote and whitespace character is in that plane.
- Interpreter.Visits: `Object.keys` order is the field order of the object
  literals the parser builds. The model fixes it per node kind, and
  EqualityOperation's `arguments: [left, right]` is two fields.
- Callbacks are modelled by what the checks do with them (throw or return).
  The arbitrary side effects a `visit` callback may have are not modelled.
- `Promise.all` in `executeRules` is an in-order map. The rules are
  independent, so order only decides which of several errors is thrown.
- Workflows.Compile: the injected `Parser` is reset by every `parse`, so
  the model uses a fresh one. `Object.assign(this, json)` and the in-place
  `json.Params[idx].Ast =` writes are modelled as building the compiled
  workflow value.
- RubacService.Replaced: `Object.entries` lists integer-like keys first in
  numeric order; the model keeps insertion order for every key.
- Evaluator.ts is a deprecated alternative evaluator that nothing uses.
- The guard, the controller, the decorator, module wiring and bootstrap are
  framework glue.
- `src/config/rules.ts` is an environment lookup.
- The type-only files give only the shapes of the datatypes and errors.
- Error messages are reduced to the data each message names.
- Grammar.ArgumentListFrom: its own contract states only progress. The
  shape of the list is stated by `ArgumentListExtends` and
  `ArgumentListShape`.
- JsValues.PropertyKey: a function used as a property key is no key here, so
  the lookup gives undefined. JavaScript converts the function to its source
  text and looks that text up, so the two differ only for an object with a
  field named by that text.
- RubacService.Put: a rule named `__proto__` is stored as an ordinary entry.
  In the source, `acc[rule.RuleName] = result` (rubac.service.ts:55) then
  replaces the object's prototype instead, and `Object.entries` never lists
  that rule, so it is never replaced or executed.
- Builtins.In: values are compared by structure. JavaScript's `===`
  compares objects and functions by reference. Strings, numbers, booleans,
  `undefined` and the two builtins compare alike in both. They differ only
  when an argument evaluates to an object, i.e. a param whose expression is
  a bare `$user` or `$request` (its accessors are compared as fields of
  it). Two distinct objects with equal fields are equal here but not in
  the source.
- Builtins.SomeStrictlyEqual: the same structural comparison as `In`, for
  the same reason.
