/**
 * The vocabulary shared by the two C++ compilers: wis.cpp and its sibling gollo.cpp.
 * They differ only in a few places, so one model covers both and takes the dialect
 * as a parameter.
 */
module WisSyntax {
  import opened Wrappers
  import opened Location

  /** Which compiler: wis.cpp, or gollo.cpp (no character literals, other load/store words). */
  datatype Dialect = Wis | Gollo

  datatype OpType =
    | PushInt | PushString | Plus | Minus | Mul | Div | Mod | Bor | Band | Xor | Shl | Shr
    | Eq | Ne | Lt | Gt | Le | Ge | Not | True | False | If | Else | End | Do | While
    | Bind | Mem | Load8 | Store8 | Load64 | Store64 | Use | Put | Fputs | Here
    | Copy | Over | Swap | Swap2 | Drop | Rot
    | Syscall0 | Syscall1 | Syscall2 | Syscall3 | Syscall4 | Syscall5 | Syscall6

  /** `Operation`: each op carries both payloads; `jumpTo` starts at 0 until cross-referencing. */
  datatype Operation = Operation(kind: OpType, intValue: int, stringValue: string, loc: Loc, jumpTo: int)

  function MakeOp(kind: OpType, loc: Loc): Operation { Operation(kind, 0, "", loc, 0) }
  function PushIntOp(v: int, loc: Loc): Operation { Operation(PushInt, v, "", loc, 0) }
  function PushStringOp(s: string, loc: Loc): Operation { Operation(PushString, 0, s, loc, 0) }

  datatype TokenType = WordToken | IntToken | StringToken | CharToken

  /** `Token`: a word, string or character keeps its text; an integer keeps its value and no text. */
  datatype Token = Token(kind: TokenType, stringValue: string, intValue: int, loc: Loc)

  function WordTok(text: string, loc: Loc): Token { Token(WordToken, text, 0, loc) }
  function IntTok(v: int, loc: Loc): Token { Token(IntToken, "", v, loc) }
  function StringTok(text: string, loc: Loc): Token { Token(StringToken, text, 0, loc) }
  function CharTok(text: string, loc: Loc): Token { Token(CharToken, text, 0, loc) }

  /** A `std::map` from words to ops, as a list of its entries. */
  datatype Table = Empty | Entry(word: string, op: OpType, rest: Table)

  /** `std::map::find`: the op of the first entry for `word`. */
  function Lookup(table: Table, word: string): Option<OpType>
  {
    match table
    case Empty => None
    case Entry(w, k, rest) => if w == word then Some(k) else Lookup(rest, word)
  }

  /** `BuiltInOps` of wis.cpp: the words naming built-in operations, in the source's order. */
  const WisBuiltInOps: Table :=
      Entry("+", Plus,
      Entry("-", Minus,
      Entry("*", Mul,
      Entry("/", Div,
      Entry("%", Mod,
      Entry("bor", Bor,
      Entry("band", Band,
      Entry("xor", Xor,
      Entry("shl", Shl,
      Entry("shr", Shr,
      Entry("==", Eq,
      Entry("!=", Ne,
      Entry("<", Lt,
      Entry(">", Gt,
      Entry("<=", Le,
      Entry(">=", Ge,
      Entry("not", Not,
      Entry("true", True,
      Entry("false", False,
      Entry("if", If,
      Entry("else", Else,
      Entry("end", End,
      Entry("do", Do,
      Entry("while", While,
      Entry("bind", Bind,
      Entry("mem", Mem,
      Entry("@8", Load8,
      Entry("!8", Store8,
      Entry("@64", Load64,
      Entry("!64", Store64,
      Entry("use", Use,
      Entry("put", Put,
      Entry("fputs", Fputs,
      Entry("here", Here,
      Entry("copy", Copy,
      Entry("over", Over,
      Entry("swap", Swap,
      Entry("2swap", Swap2,
      Entry("drop", Drop,
      Entry("rot", Rot,
      Entry("syscall0", Syscall0,
      Entry("syscall1", Syscall1,
      Entry("syscall2", Syscall2,
      Entry("syscall3", Syscall3,
      Entry("syscall4", Syscall4,
      Entry("syscall5", Syscall5,
      Entry("syscall6", Syscall6,
      Empty)))))))))))))))))))))))))))))))))))))))))))))))

  /** `BuiltInOps` of gollo.cpp: the same entries with other words for loads and stores. */
  const GolloBuiltInOps: Table :=
      Entry("+", Plus,
      Entry("-", Minus,
      Entry("*", Mul,
      Entry("/", Div,
      Entry("%", Mod,
      Entry("bor", Bor,
      Entry("band", Band,
      Entry("xor", Xor,
      Entry("shl", Shl,
      Entry("shr", Shr,
      Entry("==", Eq,
      Entry("!=", Ne,
      Entry("<", Lt,
      Entry(">", Gt,
      Entry("<=", Le,
      Entry(">=", Ge,
      Entry("not", Not,
      Entry("true", True,
      Entry("false", False,
      Entry("if", If,
      Entry("else", Else,
      Entry("end", End,
      Entry("do", Do,
      Entry("while", While,
      Entry("bind", Bind,
      Entry("mem", Mem,
      Entry(".", Load8,
      Entry(",", Store8,
      Entry("load64", Load64,
      Entry("store64", Store64,
      Entry("use", Use,
      Entry("put", Put,
      Entry("fputs", Fputs,
      Entry("here", Here,
      Entry("copy", Copy,
      Entry("over", Over,
      Entry("swap", Swap,
      Entry("2swap", Swap2,
      Entry("drop", Drop,
      Entry("rot", Rot,
      Entry("syscall0", Syscall0,
      Entry("syscall1", Syscall1,
      Entry("syscall2", Syscall2,
      Entry("syscall3", Syscall3,
      Entry("syscall4", Syscall4,
      Entry("syscall5", Syscall5,
      Entry("syscall6", Syscall6,
      Empty)))))))))))))))))))))))))))))))))))))))))))))))

  function BuiltInOps(d: Dialect): Table
  {
    if d == Wis then WisBuiltInOps else GolloBuiltInOps
  }

  /** What a compiler recognises: its dialect and its table of built-in words. */
  datatype Vocabulary = Vocabulary(dialect: Dialect, builtIns: Table)

  function VocabularyOf(d: Dialect): Vocabulary
  {
    Vocabulary(d, BuiltInOps(d))
  }
}
