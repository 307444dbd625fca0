/**
 * Tokens and operations of the Go rewrite (`gollo`), with the opcode set the lexer, the
 * runner and the x86-64 generator handle. Locations are kept as the rendered strings
 * `path:row:col` the lexer builds.
 */
module GoSyntax {
  datatype Code =
    | PushInt | PushString
    | Plus | Minus | Mul | Div | Mod | Bor | Band | Xor | Shl | Shr
    | Eq | Ne | Lt | Gt | Le | Ge
    | If | Else | End | Do | While
    | Put | Puts
    | Copy | TwoCopy | Swap | Drop | Over
    | Syscall0 | Syscall1 | Syscall2 | Syscall3

  /** An operation; `jumpTo` is 0 until the crossreferencer writes it. */
  datatype Op = Op(code: Code, intValue: int, stringValue: string, loc: string, jumpTo: int)

  datatype TokenKind = Word | Int | Str

  datatype Token = Token(kind: TokenKind, stringValue: string, intValue: int, loc: string)

  /** The constructors `operation.PushInt`, `operation.PushString` and the operand-free ones. */
  function PushIntOp(value: int, loc: string): Op { Op(PushInt, value, "", loc, 0) }

  function PushStringOp(value: string, loc: string): Op { Op(PushString, 0, value, loc, 0) }

  function PlainOp(code: Code, loc: string): Op { Op(code, 0, "", loc, 0) }

  predicate IsBlockCode(c: Code) { c.If? || c.Else? || c.End? || c.Do? || c.While? }
}
