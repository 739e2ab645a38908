/** The exceptions the engine throws, as values. The message texts of the
    source are abstracted to the data each message names. */
module Errors {

  /** What a `SyntaxError` complains about. */
  datatype SyntaxReason =
    | UnexpectedChar(ch: char)                          // no lexer rule matched
    | UnexpectedEnd(expected: string)                   // `_eat` at end of input
    | UnexpectedToken(value: string, expected: string)  // `_eat` on a type mismatch
    | UnexpectedOperator(kind: string)                  // after the left operand
    | NotALiteral                                       // `Literal` on a non-literal
    | NotAnIdentifier(value: string)                    // `Variable` without a name

  /** What a `TypeError` (a JavaScript runtime fault) dereferenced. */
  datatype TypeFault =
    | NullLookahead        // `this._lookahead.type` with no lookahead token
    | NullParent           // `parent.type` on the root of a visited tree
    | UndefinedObject      // indexing `undefined`
    | MissingSegment       // `rulePathArr[ind].trim()` past the pattern's end

  /** What a `CompilationError` rejects. */
  datatype CompileReason =
    | NotPrimary(kind: string)
    | FunctionNotDefined(name: string)
    | VariableNotDeclared(name: string)

  datatype Error =
    | SyntaxError(syntax: SyntaxReason)
    | TypeError(fault: TypeFault)
    | CompilationError(compile: CompileReason)
    | ExecutionError(variable: string)
    | DynamicEval                                  // the `eval` fallback, not modelled
    | BadRequest(param: string, rule: string)
    | NoRuleTranslated(workflowName: string, workflowId: int)
}
