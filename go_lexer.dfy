/**
 * The front end of the Go rewrite (internal/lexer/lexer.go): a file is split into lines,
 * each line loses its `//` comment and is cut into tokens, the tokens become operations, and
 * the blocks are cross-referenced in place with a stack of indices.
 */
module GoLexer {
  import opened Wrappers
  import opened Strings
  import opened Location
  import opened GoStrings
  import opened GoStrconv
  import opened GoSyntax
  import GoStack

  datatype LexError =
    | IndexOutOfRange(index: nat, length: nat)  // the runtime panic on an unclosed string literal
    | UnknownWord(loc: string, word: string)    // `can't parse token`
    | AssertionFailed(message: string)          // `assert.Assert`: an `end` closing neither kind of block
    | UnclosedBlock(loc: string)                // `block didn't closed with `end``, at the latest opener

  /**
   * `unicode.IsSpace` on the ASCII range: the lines are byte strings, and a byte of 0x80 or
   * more is never white space on its own.
   */
  predicate IsSpace(c: char)
  {
    c == '\t' || c == '\n' || c == '\U{000B}' || c == '\U{000C}' || c == '\r' || c == ' '
  }

  predicate NotSpace(c: char) { !IsSpace(c) }

  predicate IsQuote(c: char) { c == '"' }

  /** `findCol`: the index of the next character satisfying `matches`, or `len(line)`. */
  method FindCol(line: string, start: nat, matches: char -> bool) returns (col: nat)
    requires start <= |line|
    ensures col == FirstFrom(line, start, matches)
  {
    col := start;
    while col < |line|
      invariant start <= col <= |line|
      invariant FirstFrom(line, col, matches) == FirstFrom(line, start, matches)
    {
      if matches(line[col]) {
        return;
      }
      col := col + 1;
    }
  }

  // ---------------------------------------------------------------------------------
  // Lines

  /** The location of the character at index `col`, with 1-based columns. */
  function Place(path: string, row: int, col: nat): string
  {
    LocationView(path, row, col + 1)
  }

  /** A token delimited by white space: an integer if `strconv.Atoi` accepts it, else a word. */
  function BareToken(text: string, loc: string): Token
  {
    match Atoi(text)
    case Some(v) => Token(Int, "", v, loc)
    case None => Token(Word, text, 0, loc)
  }

  /** `t` is what the lexer makes of the bare text `text`. */
  predicate Spells(t: Token, text: string)
  {
    if Atoi(text).Some? then t.kind.Int? && t.intValue == Atoi(text).value
    else t.kind.Word? && t.stringValue == text
  }

  /** The token starting at `col`, and the column of the first non-space character after it. */
  function Scan(path: string, row: int, line: string, col: nat): (r: Result<(Token, nat), LexError>)
    requires col < |line|
    ensures r.Ok? ==> col < r.value.1 <= |line|
  {
    if line[col] == '"' then
      var colEnd := FirstFrom(line, col + 1, IsQuote);
      if colEnd == |line| then Err(IndexOutOfRange(colEnd, |line|))
      else Ok((Token(Str, line[col + 1..colEnd], 0, Place(path, row, col)), FirstFrom(line, colEnd + 1, NotSpace)))
    else
      var colEnd := FirstFrom(line, col, IsSpace);
      Ok((BareToken(line[col..colEnd], Place(path, row, col)), FirstFrom(line, colEnd, NotSpace)))
  }

  /** The loop of `LexLine` from the column `col`, after the tokens `acc`. */
  function LexFrom(path: string, row: int, line: string, col: nat, acc: seq<Token>): Result<seq<Token>, LexError>
    requires col <= |line|
    decreases |line| - col
  {
    if col == |line| then Ok(acc)
    else
      var r := Scan(path, row, line, col);
      if r.Err? then Err(r.error) else LexFrom(path, row, line, r.value.1, acc + [r.value.0])
  }

  lemma LexFromStep(path: string, row: int, line: string, col: nat, acc: seq<Token>, t: Token, next: nat)
    requires col < |line| && Scan(path, row, line, col) == Ok((t, next))
    ensures next <= |line| && LexFrom(path, row, line, col, acc) == LexFrom(path, row, line, next, acc + [t])
  {
  }

  function LineTokens(path: string, row: int, line: string): Result<seq<Token>, LexError>
  {
    LexFrom(path, row, line, FirstFrom(line, 0, NotSpace), [])
  }

  /**
   * One iteration of the loop of `LexLine`: a `"` opens a string literal that runs to the
   * next `"`, anything else runs to the next white space; the token is located at its first
   * character.
   */
  method ScanToken(filepath: string, number: int, line: string, col: nat) returns (r: Result<(Token, nat), LexError>)
    requires col < |line|
    ensures r == Scan(filepath, number, line, col)
  {
    if line[col] == '"' {
      var colEnd := FindCol(line, col + 1, IsQuote);
      if colEnd == |line| {
        // `line[colEnd]` is read past the end of the line
        return Err(IndexOutOfRange(colEnd, |line|));
      }
      var textOfToken := line[col + 1..colEnd];
      var next := FindCol(line, colEnd + 1, NotSpace);
      r := Ok((Token(Str, textOfToken, 0, Place(filepath, number, col)), next));
    } else {
      var colEnd := FindCol(line, col, IsSpace);
      var textOfToken := line[col..colEnd];
      var intValue := Atoi(textOfToken);
      var t;
      if intValue.Some? {
        t := Token(Int, "", intValue.value, Place(filepath, number, col));
      } else {
        t := Token(Word, textOfToken, 0, Place(filepath, number, col));
      }
      var next := FindCol(line, colEnd, NotSpace);
      r := Ok((t, next));
    }
  }

  /** `LexLine`: the tokens of one line, located at row `number`. */
  method LexLine(filepath: string, number: int, line: string) returns (r: Result<seq<Token>, LexError>)
    ensures r == LineTokens(filepath, number, line)
  {
    var tokens: seq<Token> := [];
    var col := FindCol(line, 0, NotSpace);
    while col < |line|
      invariant col <= |line|
      invariant LexFrom(filepath, number, line, col, tokens) == LineTokens(filepath, number, line)
      decreases |line| - col
    {
      var scanned := ScanToken(filepath, number, line, col);
      if scanned.Err? {
        return Err(scanned.error);
      }
      var (t, next) := scanned.value;
      LexFromStep(filepath, number, line, col, tokens, t, next);
      tokens := tokens + [t];
      col := next;
    }
    r := Ok(tokens);
  }

  lemma BareTokenSpells(text: string, loc: string)
    ensures Spells(BareToken(text, loc), text)
  {
  }

  /** A bare token at `col`: the next field, and the lexer goes on after the white space behind it. */
  lemma LexFromBare(path: string, row: int, line: string, col: nat, acc: seq<Token>)
    requires col < |line| && NotSpace(line[col]) && line[col] != '"'
    ensures var colEnd := FirstFrom(line, col, IsSpace);
            var next := FirstFrom(line, colEnd, NotSpace);
            var t := BareToken(line[col..colEnd], Place(path, row, col));
            col < next
            && Scan(path, row, line, col) == Ok((t, next))
            && FieldsFrom(line, IsSpace, col) == [line[col..colEnd]] + FieldsFrom(line, IsSpace, next)
  {
    var colEnd := FirstFrom(line, col, IsSpace);
    var next := FirstFrom(line, colEnd, NotSpace);
    FirstFromIsFirst(line, colEnd, NotSpace);
    FieldsFromSkip(line, IsSpace, colEnd, next);
  }

  /** `ts` is `acc` followed by one token per field of `fs`, each spelling its field. */
  predicate SpellsAfter(ts: seq<Token>, acc: seq<Token>, fs: seq<string>)
  {
    |ts| == |acc| + |fs| && ts[..|acc|] == acc
    && forall k :: 0 <= k < |fs| ==> Spells(ts[|acc| + k], fs[k])
  }

  lemma {:induction false} LexFromFields(path: string, row: int, line: string, col: nat, acc: seq<Token>)
    requires col <= |line| && (col == |line| || NotSpace(line[col]))
    requires forall k :: col <= k < |line| ==> line[k] != '"'
    ensures LexFrom(path, row, line, col, acc).Ok?
    ensures SpellsAfter(LexFrom(path, row, line, col, acc).value, acc, FieldsFrom(line, IsSpace, col))
    decreases |line| - col
  {
    if col < |line| {
      var colEnd := FirstFrom(line, col, IsSpace);
      var next := FirstFrom(line, colEnd, NotSpace);
      var text := line[col..colEnd];
      var t := BareToken(text, Place(path, row, col));
      BareTokenSpells(text, Place(path, row, col));
      LexFromBare(path, row, line, col, acc);
      LexFromStep(path, row, line, col, acc, t, next);
      LexFromFields(path, row, line, next, acc + [t]);
      ConsSpells(acc, t, LexFrom(path, row, line, next, acc + [t]).value, text, FieldsFrom(line, IsSpace, next));
    } else {
      assert LexFrom(path, row, line, col, acc) == Ok(acc);
    }
  }

  lemma ConsSpells(acc: seq<Token>, t: Token, ts: seq<Token>, text: string, rest: seq<string>)
    requires Spells(t, text) && SpellsAfter(ts, acc + [t], rest)
    ensures SpellsAfter(ts, acc, [text] + rest)
  {
    assert ts[..|acc|] == (acc + [t])[..|acc|];
    forall k | 0 <= k < |[text] + rest|
      ensures Spells(ts[|acc| + k], ([text] + rest)[k])
    {
      if k == 0 {
        assert ts[|acc|] == (acc + [t])[|acc|];
      } else {
        assert ts[|acc| + k] == ts[|acc + [t]| + (k - 1)];
      }
    }
  }

  /**
   * A line without string literals always lexes, into one token per white-space-delimited
   * field (`strings.FieldsFunc` on `unicode.IsSpace`), each an integer or a word as `Atoi` decides.
   */
  lemma LineTokensFields(path: string, row: int, line: string)
    requires forall k :: 0 <= k < |line| ==> line[k] != '"'
    ensures LineTokens(path, row, line).Ok?
    ensures var ts := LineTokens(path, row, line).value;
            var fs := Fields(line, IsSpace);
            |ts| == |fs| && forall k :: 0 <= k < |fs| ==> Spells(ts[k], fs[k])
  {
    var start := FirstFrom(line, 0, NotSpace);
    FirstFromIsFirst(line, 0, NotSpace);
    FieldsFromSkip(line, IsSpace, 0, start);
    LexFromFields(path, row, line, start, []);
    var ts := LineTokens(path, row, line).value;
    assert SpellsAfter(ts, [], Fields(line, IsSpace));
    assert forall k :: 0 <= k < |ts| ==> ts[k] == ts[0 + k];
  }

  /** A string literal is the text between a `"` and the next one; it holds no `"`. */
  lemma StringLiteral(path: string, row: int, line: string, col: nat, close: nat, acc: seq<Token>)
    requires col < close < |line| && line[col] == '"' && line[close] == '"'
    requires forall k :: col < k < close ==> line[k] != '"'
    ensures Scan(path, row, line, col)
            == Ok((Token(Str, line[col + 1..close], 0, Place(path, row, col)), FirstFrom(line, close + 1, NotSpace)))
    ensures '"' !in line[col + 1..close]
  {
    FirstFromIsFirst(line, col + 1, IsQuote);
    assert FirstFrom(line, col + 1, IsQuote) == close;
  }

  /** A `"` with no other `"` after it reads past the end of the line. */
  lemma UnclosedLiteral(path: string, row: int, line: string, col: nat, acc: seq<Token>)
    requires col < |line| && line[col] == '"'
    requires forall k :: col < k < |line| ==> line[k] != '"'
    ensures Scan(path, row, line, col) == Err(IndexOutOfRange(|line|, |line|))
    ensures LexFrom(path, row, line, col, acc) == Err(IndexOutOfRange(|line|, |line|))
  {
    assert FirstFrom(line, col + 1, IsQuote) == |line|;
  }

  // ---------------------------------------------------------------------------------
  // Files

  /** The text of a line that is lexed: what precedes its first `//`, then a newline. */
  function CodeLine(line: string): string
  {
    Split(line, "//")[0] + "\n"
  }

  /** The code line is the line cut at its first `//`, and ends in white space. */
  lemma CodeLineShape(line: string)
    ensures Find(line, "//", 0).None? ==> CodeLine(line) == line + "\n"
    ensures Find(line, "//", 0).Some? ==> CodeLine(line) == line[..Find(line, "//", 0).value] + "\n"
    ensures !Contains(Split(line, "//")[0], "//")
    ensures |CodeLine(line)| > 0 && IsSpace(CodeLine(line)[|CodeLine(line)| - 1])
  {
    SplitFirstPiece(line, "//");
    SplitPiecesLackDelimiter(line, "//");
    assert Split(line, "//")[0] in Split(line, "//");
  }

  /** The tokens of the lines from `k` on, line `k` (0-based) being row `k + 1`. */
  function FileTokensFrom(path: string, lines: seq<string>, k: nat, acc: seq<Token>): Result<seq<Token>, LexError>
    requires k <= |lines|
    decreases |lines| - k
  {
    if k == |lines| then Ok(acc)
    else
      match LineTokens(path, k + 1, CodeLine(lines[k]))
      case Err(e) => Err(e)
      case Ok(ts) => FileTokensFrom(path, lines, k + 1, acc + ts)
  }

  lemma FileTokensFromStep(path: string, lines: seq<string>, k: nat, acc: seq<Token>)
    requires k < |lines|
    ensures var line := LineTokens(path, k + 1, CodeLine(lines[k]));
            FileTokensFrom(path, lines, k, acc)
            == if line.Err? then Err(line.error) else FileTokensFrom(path, lines, k + 1, acc + line.value)
  {
  }

  function FileTokens(path: string, source: string): Result<seq<Token>, LexError>
  {
    FileTokensFrom(path, Split(source, "\n"), 0, [])
  }

  lemma {:induction false} FileTokensFromQuoteFree(path: string, lines: seq<string>, k: nat, acc: seq<Token>)
    requires k <= |lines|
    requires forall j :: k <= j < |lines| ==> '"' !in lines[j]
    ensures FileTokensFrom(path, lines, k, acc).Ok?
    decreases |lines| - k
  {
    if k < |lines| {
      var line := CodeLine(lines[k]);
      SplitFirstPiece(lines[k], "//");
      assert forall m :: 0 <= m < |line| ==> line[m] != '"' by {
        assert forall m :: 0 <= m < |line| - 1 ==> line[m] == lines[k][m];
      }
      LineTokensFields(path, k + 1, line);
      FileTokensFromQuoteFree(path, lines, k + 1, acc + LineTokens(path, k + 1, line).value);
    }
  }

  /** Only a string literal can make a file fail to lex: a file without `"` always lexes. */
  lemma FileTokensQuoteFree(path: string, source: string)
    requires '"' !in source
    ensures FileTokens(path, source).Ok?
  {
    var lines := Split(source, "\n");
    assert forall j :: 0 <= j < |lines| ==> '"' !in lines[j] by {
      JoinSplit(source, "\n");
      forall j | 0 <= j < |lines| ensures '"' !in lines[j] {
        JoinHolds(lines, "\n", j);
      }
    }
    FileTokensFromQuoteFree(path, lines, 0, []);
  }

  /** Every character of a piece occurs in the joined text. */
  lemma {:induction false} JoinHolds(parts: seq<string>, d: string, j: nat)
    requires j < |parts|
    ensures forall c :: c in parts[j] ==> c in Join(parts, d)
    decreases j
  {
    if j > 0 {
      JoinHolds(parts[1..], d, j - 1);
      assert parts[1..][j - 1] == parts[j];
    }
  }

  // ---------------------------------------------------------------------------------
  // Tokens to operations

  /** The words `parseTokensAsOperations` knows, with the operation each one stands for. */
  function WordCode(w: string): Option<Code>
  {
    if w == "+" then Some(Plus) else if w == "-" then Some(Minus) else if w == "*" then Some(Mul)
    else if w == "/" then Some(Div) else if w == "%" then Some(Mod) else if w == "bor" then Some(Bor)
    else if w == "band" then Some(Band) else if w == "xor" then Some(Xor) else if w == "shl" then Some(Shl)
    else if w == "shr" then Some(Shr) else if w == "==" then Some(Eq) else if w == "!=" then Some(Ne)
    else if w == "<" then Some(Lt) else if w == ">" then Some(Gt) else if w == "<=" then Some(Le)
    else if w == ">=" then Some(Ge) else if w == "if" then Some(If) else if w == "else" then Some(Else)
    else if w == "end" then Some(End) else if w == "do" then Some(Do) else if w == "while" then Some(While)
    else if w == "put" then Some(Put) else if w == "puts" then Some(Puts) else if w == "copy" then Some(Copy)
    else if w == "2copy" then Some(TwoCopy) else if w == "swap" then Some(Swap) else if w == "drop" then Some(Drop)
    else if w == "over" then Some(Over) else if w == "syscall0" then Some(Syscall0)
    else if w == "syscall1" then Some(Syscall1) else if w == "syscall2" then Some(Syscall2)
    else if w == "syscall3" then Some(Syscall3)
    else None
  }

  /** The operation a token stands for; an unknown word is an error at its location. */
  function TokenOp(t: Token): Result<Op, LexError>
  {
    if t.kind.Int? then Ok(PushIntOp(t.intValue, t.loc))
    else if t.kind.Str? then Ok(PushStringOp(t.stringValue, t.loc))
    else
      var c := WordCode(t.stringValue);
      if c.None? then Err(UnknownWord(t.loc, t.stringValue)) else Ok(PlainOp(c.value, t.loc))
  }

  /** The operations of the tokens, one per token, or the error of the first token that has none. */
  function TokenOps(ts: seq<Token>): Result<seq<Op>, LexError>
    decreases |ts|
  {
    if ts == [] then Ok([])
    else
      var init := TokenOps(ts[..|ts| - 1]);
      if init.Err? then init
      else
        var op := TokenOp(ts[|ts| - 1]);
        if op.Err? then Err(op.error) else Ok(init.value + [op.value])
  }

  /** `parseTokensAsOperations`. */
  method ParseTokensAsOperations(tokens: seq<Token>) returns (r: Result<seq<Op>, LexError>)
    ensures r == TokenOps(tokens)
  {
    var program: seq<Op> := [];
    var k := 0;
    while k < |tokens|
      invariant 0 <= k <= |tokens|
      invariant TokenOps(tokens[..k]) == Ok(program)
    {
      var tok := tokens[k];
      assert tokens[..k + 1][..k] == tokens[..k];
      if tok.kind.Int? {
        program := program + [PushIntOp(tok.intValue, tok.loc)];
      } else if tok.kind.Str? {
        program := program + [PushStringOp(tok.stringValue, tok.loc)];
      } else {
        var code := WordCode(tok.stringValue);
        if code.None? {
          r := Err(UnknownWord(tok.loc, tok.stringValue));
          TokenOpsErrorStays(tokens, k + 1);
          return;
        }
        program := program + [PlainOp(code.value, tok.loc)];
      }
      k := k + 1;
    }
    assert tokens[..|tokens|] == tokens;
    r := Ok(program);
  }

  /** Once a prefix fails, the whole sequence fails with the same error. */
  lemma {:induction false} TokenOpsErrorStays(ts: seq<Token>, k: nat)
    requires k <= |ts| && TokenOps(ts[..k]).Err?
    ensures TokenOps(ts) == TokenOps(ts[..k])
    decreases |ts| - k
  {
    if k == |ts| {
      assert ts[..k] == ts;
    } else {
      assert ts[..k + 1][..k] == ts[..k];
      TokenOpsErrorStays(ts, k + 1);
    }
  }

  /** The operation made of token `t` carries its value, its location and no jump yet. */
  predicate OpOfToken(op: Op, t: Token)
  {
    op.loc == t.loc && op.jumpTo == 0
    && (t.kind.Int? ==> op.code.PushInt? && op.intValue == t.intValue)
    && (t.kind.Str? ==> op.code.PushString? && op.stringValue == t.stringValue)
    && (t.kind.Word? ==> WordCode(t.stringValue) == Some(op.code))
  }

  predicate KnownToken(t: Token) { !t.kind.Word? || WordCode(t.stringValue).Some? }

  lemma TokenOpShape(t: Token)
    ensures TokenOp(t).Ok? <==> KnownToken(t)
    ensures TokenOp(t).Ok? ==> OpOfToken(TokenOp(t).value, t)
    ensures TokenOp(t).Err? ==> TokenOp(t).error == UnknownWord(t.loc, t.stringValue)
  {
  }

  /**
   * Every token becomes exactly one operation, in order, with its value and location and no
   * jump; parsing fails exactly when a word is not known, reporting the first such word.
   */
  lemma {:induction false} TokenOpsShape(ts: seq<Token>)
    ensures TokenOps(ts).Ok? <==> forall k :: 0 <= k < |ts| ==> KnownToken(ts[k])
    ensures TokenOps(ts).Ok? ==>
              |TokenOps(ts).value| == |ts|
              && forall k :: 0 <= k < |ts| ==> OpOfToken(TokenOps(ts).value[k], ts[k])
    ensures TokenOps(ts).Err? ==>
              exists k :: 0 <= k < |ts| && !KnownToken(ts[k])
                          && (forall j :: 0 <= j < k ==> KnownToken(ts[j]))
                          && TokenOps(ts).error == UnknownWord(ts[k].loc, ts[k].stringValue)
    decreases |ts|
  {
    if ts != [] {
      var init := ts[..|ts| - 1];
      var last := ts[|ts| - 1];
      TokenOpsShape(init);
      TokenOpShape(last);
      assert forall k :: 0 <= k < |init| ==> init[k] == ts[k];
      if TokenOps(init).Err? {
        var k :| 0 <= k < |init| && !KnownToken(init[k]) && (forall j :: 0 <= j < k ==> KnownToken(init[j]))
                 && TokenOps(init).error == UnknownWord(init[k].loc, init[k].stringValue);
        assert !KnownToken(ts[k]);
      } else if TokenOp(last).Err? {
        assert !KnownToken(ts[|ts| - 1]);
      } else {
        var ops := TokenOps(ts).value;
        assert ops == TokenOps(init).value + [TokenOp(last).value];
        assert forall k :: 0 <= k < |init| ==> ops[k] == TokenOps(init).value[k];
      }
    }
  }

  // ---------------------------------------------------------------------------------
  // Cross-referencing

  /** The indices on the block stack, all of ops already passed. */
  predicate StackBelow(stack: seq<int>, i: nat)
  {
    forall k :: 0 <= k < |stack| ==> 0 <= stack[k] < i
  }

  function SetJump(p: seq<Op>, k: nat, target: int): (q: seq<Op>)
    requires k < |p|
    ensures |q| == |p|
  {
    p[k := p[k].(jumpTo := target)]
  }

  const EndMessage := "`end` can only close `if-else` and `do-while` blocks"

  /**
   * One iteration of the loop of `crossreferenceBlocks`, on op `i`. Popping an empty stack
   * gives index 0, so an unmatched `else`, `do` or `end` works on the first op of the program.
   */
  function XrefStep(p: seq<Op>, i: nat, stack: seq<int>): (r: Result<(seq<Op>, seq<int>), LexError>)
    requires i < |p| && StackBelow(stack, i)
    ensures r.Ok? ==> |r.value.0| == |p| && StackBelow(r.value.1, i + 1)
  {
    var code := p[i].code;
    var pos := GoStack.Top(stack);
    var rest := GoStack.Below(stack);
    if code.If? || code.While? then Ok((p, stack + [i]))
    else if code.Else? then Ok((SetJump(p, pos, i + 1), rest + [i]))
    else if code.Do? then Ok((SetJump(p, i, pos), rest + [i]))
    else if code.End? then
      if p[pos].code.If? || p[pos].code.Else? then Ok((SetJump(p, pos, i), rest))
      else if p[pos].code.Do? then Ok((SetJump(SetJump(p, i, p[pos].jumpTo), pos, i + 1), rest))
      else Err(AssertionFailed(EndMessage))
    else Ok((p, stack))
  }

  /** The loop from op `i` on, then the check that no block is left open. */
  function XrefFrom(p: seq<Op>, i: nat, stack: seq<int>): Result<seq<Op>, LexError>
    requires i <= |p| && StackBelow(stack, i)
    decreases |p| - i
  {
    if i == |p| then
      if stack == [] then Ok(p) else Err(UnclosedBlock(p[GoStack.Top(stack)].loc))
    else
      var r := XrefStep(p, i, stack);
      if r.Err? then Err(r.error) else XrefFrom(r.value.0, i + 1, r.value.1)
  }

  function Xref(p: seq<Op>): Result<seq<Op>, LexError>
  {
    XrefFrom(p, 0, [])
  }

  lemma XrefFromStep(p: seq<Op>, i: nat, stack: seq<int>, q: seq<Op>, stack': seq<int>)
    requires i < |p| && StackBelow(stack, i)
    requires XrefStep(p, i, stack) == Ok((q, stack'))
    ensures StackBelow(stack', i + 1) && |q| == |p|
    ensures XrefFrom(p, i, stack) == XrefFrom(q, i + 1, stack')
  {
  }

  /** One iteration of the loop of `crossreferenceBlocks`, on op `i`. */
  method XrefIteration(program: array<Op>, i: nat, stack: GoStack.Stack) returns (r: Result<(), LexError>)
    requires i < program.Length && StackBelow(stack.items, i)
    modifies program, stack
    ensures XrefStep(old(program[..]), i, old(stack.items)).Ok? <==> r.Ok?
    ensures r.Ok? ==> XrefStep(old(program[..]), i, old(stack.items)) == Ok((program[..], stack.items))
    ensures r.Err? ==> XrefStep(old(program[..]), i, old(stack.items)) == Err(r.error)
  {
    var op := program[i];
    if op.code.If? {
      stack.Push(i);
    } else if op.code.Else? {
      var pos := stack.Pop();
      program[pos] := program[pos].(jumpTo := i + 1);
      stack.Push(i);
    } else if op.code.Do? {
      var pos := stack.Pop();
      program[i] := program[i].(jumpTo := pos);
      stack.Push(i);
    } else if op.code.While? {
      stack.Push(i);
    } else if op.code.End? {
      var pos := stack.Pop();
      if program[pos].code.If? || program[pos].code.Else? {
        program[pos] := program[pos].(jumpTo := i);
      } else if program[pos].code.Do? {
        program[i] := program[i].(jumpTo := program[pos].jumpTo);
        program[pos] := program[pos].(jumpTo := i + 1);
      } else {
        return Err(AssertionFailed(EndMessage));
      }
    }
    r := Ok(());
  }

  /**
   * One turn of the loop of `crossreferenceBlocks`, as a step of `XrefFrom`: a failure is the
   * outcome of the whole pass, otherwise the pass goes on from the next op.
   */
  method XrefTurn(program: array<Op>, i: nat, stack: GoStack.Stack, ghost target: Result<seq<Op>, LexError>)
    returns (i': nat, fault: Option<LexError>)
    requires i < program.Length && StackBelow(stack.items, i)
    requires XrefFrom(program[..], i, stack.items) == target
    modifies program, stack
    ensures fault.Some? ==> i' == i && target == Err(fault.value)
    ensures fault.None? ==> i' == i + 1 && StackBelow(stack.items, i') && XrefFrom(program[..], i', stack.items) == target
  {
    ghost var before := program[..];
    ghost var stack0 := stack.items;
    var next := XrefIteration(program, i, stack);
    if next.Err? {
      return i, Some(next.error);
    }
    XrefFromStep(before, i, stack0, program[..], stack.items);
    i', fault := i + 1, None;
  }

  /** `crossreferenceBlocks`, rewriting `JumpTo` of the program's ops in place. */
  method CrossreferenceBlocks(program: array<Op>) returns (r: Result<(), LexError>)
    modifies program
    ensures r.Ok? <==> Xref(old(program[..])).Ok?
    ensures r.Ok? ==> program[..] == Xref(old(program[..])).value
    ensures r.Err? ==> Xref(old(program[..])) == Err(r.error)
  {
    ghost var target := Xref(program[..]);
    var stack := new GoStack.Stack();
    var i := 0;
    var fault: Option<LexError> := None;
    while fault.None? && i < program.Length
      invariant 0 <= i <= program.Length
      invariant fault.None? ==> StackBelow(stack.items, i) && XrefFrom(program[..], i, stack.items) == target
      invariant fault.Some? ==> target == Err(fault.value)
      decreases program.Length - i, if fault.None? then 1 else 0
    {
      i, fault := XrefTurn(program, i, stack, target);
    }
    if fault.Some? {
      return Err(fault.value);
    }
    if !stack.IsEmpty() {
      var latest := stack.Pop();
      return Err(UnclosedBlock(program[latest].loc));
    }
    r := Ok(());
  }

  /**
   * From op `i` on, every `do` takes over a block a `while` opened, and no `else` takes over
   * the block of a `do`; the block an empty stack yields is the first op's. The pass itself
   * checks neither.
   */
  predicate DoFollowsWhileFrom(p: seq<Op>, i: nat, stack: seq<int>)
    requires i <= |p| && StackBelow(stack, i)
    decreases |p| - i
  {
    i < |p| ==>
      (p[i].code.Do? ==> p[GoStack.Top(stack)].code.While?) &&
      (p[i].code.Else? ==> !p[GoStack.Top(stack)].code.Do?) &&
      (XrefStep(p, i, stack).Ok? ==>
         DoFollowsWhileFrom(XrefStep(p, i, stack).value.0, i + 1, XrefStep(p, i, stack).value.1))
  }

  predicate DoFollowsWhile(p: seq<Op>)
  {
    DoFollowsWhileFrom(p, 0, [])
  }

  // ---------------------------------------------------------------------------------
  // What the pass may change

  /** `q` is `p` with at most the `JumpTo` fields rewritten. */
  predicate SameExceptJumps(p: seq<Op>, q: seq<Op>)
  {
    |q| == |p| && forall k :: 0 <= k < |p| ==> q[k] == p[k].(jumpTo := q[k].jumpTo)
  }

  /** Every `JumpTo` lies in `[0, n]`. */
  predicate JumpsWithin(p: seq<Op>, n: int)
  {
    forall k :: 0 <= k < |p| ==> 0 <= p[k].jumpTo <= n
  }

  lemma XrefStepInvariants(p: seq<Op>, i: nat, stack: seq<int>)
    requires i < |p| && StackBelow(stack, i) && XrefStep(p, i, stack).Ok?
    ensures SameExceptJumps(p, XrefStep(p, i, stack).value.0)
    ensures JumpsWithin(p, |p|) ==> JumpsWithin(XrefStep(p, i, stack).value.0, |p|)
  {
  }

  lemma {:induction false} XrefFromInvariants(p: seq<Op>, i: nat, stack: seq<int>)
    requires i <= |p| && StackBelow(stack, i)
    requires XrefFrom(p, i, stack).Ok?
    ensures SameExceptJumps(p, XrefFrom(p, i, stack).value)
    ensures JumpsWithin(p, |p|) ==> JumpsWithin(XrefFrom(p, i, stack).value, |p|)
    decreases |p| - i
  {
    if i < |p| {
      var (q, stack') := XrefStep(p, i, stack).value;
      XrefFromStep(p, i, stack, q, stack');
      XrefStepInvariants(p, i, stack);
      XrefFromInvariants(q, i + 1, stack');
    }
  }

  /**
   * Cross-referencing keeps every op, its code, values and location, and changes only
   * `JumpTo`; from targets within `[0, len]` (the parser leaves them all 0) every target
   * written is an index of the program or one past its end.
   */
  lemma XrefInvariants(p: seq<Op>)
    requires Xref(p).Ok?
    ensures SameExceptJumps(p, Xref(p).value)
    ensures JumpsWithin(p, |p|) ==> JumpsWithin(Xref(p).value, |p|)
  {
    XrefFromInvariants(p, 0, []);
  }

  // ---------------------------------------------------------------------------------
  // The links of single blocks

  /** The ops other than those at the listed indices open or close no block. */
  predicate OnlyBlocksAt(p: seq<Op>, at: set<nat>)
  {
    forall k :: 0 <= k < |p| && k !in at ==> !IsBlockCode(p[k].code)
  }

  lemma {:induction false} XrefSkip(p: seq<Op>, i: nat, j: nat, stack: seq<int>)
    requires i <= j <= |p| && StackBelow(stack, i)
    requires forall k :: i <= k < j ==> !IsBlockCode(p[k].code)
    ensures StackBelow(stack, j)
    ensures XrefFrom(p, i, stack) == XrefFrom(p, j, stack)
    decreases j - i
  {
    if i < j {
      XrefStepPlain(p, i, stack);
      XrefFromStep(p, i, stack, p, stack);
      XrefSkip(p, i + 1, j, stack);
    }
  }

  lemma XrefStepPlain(p: seq<Op>, i: nat, stack: seq<int>)
    requires i < |p| && StackBelow(stack, i) && !IsBlockCode(p[i].code)
    ensures XrefStep(p, i, stack) == Ok((p, stack))
  {
  }

  /** Up to `b`, past the only block op before it, an `if` or `while` at `a`. */
  lemma XrefOpenUpTo(p: seq<Op>, a: nat, b: nat)
    requires a < b <= |p| && (p[a].code.If? || p[a].code.While?)
    requires forall k :: 0 <= k < b && k != a ==> !IsBlockCode(p[k].code)
    ensures Xref(p) == XrefFrom(p, b, [a])
  {
    XrefSkip(p, 0, a, []);
    assert [] + [a] == [a];
    XrefFromStep(p, a, [], p, [a]);
    XrefSkip(p, a + 1, b, [a]);
  }

  /** An `else` at `i` replacing the single open block `pos`. */
  lemma XrefElse(p: seq<Op>, i: nat, pos: nat)
    requires pos < i < |p| && p[i].code.Else?
    ensures XrefFrom(p, i, [pos]) == XrefFrom(SetJump(p, pos, i + 1), i + 1, [i])
  {
    assert GoStack.Top([pos]) == pos && GoStack.Below([pos]) + [i] == [i];
    assert XrefStep(p, i, [pos]) == Ok((SetJump(p, pos, i + 1), [i]));
    XrefFromStep(p, i, [pos], SetJump(p, pos, i + 1), [i]);
  }

  /** A `do` at `i` replacing the single open block `pos`. */
  lemma XrefDo(p: seq<Op>, i: nat, pos: nat)
    requires pos < i < |p| && p[i].code.Do?
    ensures XrefFrom(p, i, [pos]) == XrefFrom(SetJump(p, i, pos), i + 1, [i])
  {
    assert GoStack.Top([pos]) == pos && GoStack.Below([pos]) + [i] == [i];
    assert XrefStep(p, i, [pos]) == Ok((SetJump(p, i, pos), [i]));
    XrefFromStep(p, i, [pos], SetJump(p, i, pos), [i]);
  }

  /** The `end` at `c` closing the single open block `pos`, an `if` or `else`, with no block op after it. */
  lemma XrefCloseIf(p: seq<Op>, c: nat, pos: nat)
    requires pos < c < |p| && p[c].code.End? && (p[pos].code.If? || p[pos].code.Else?)
    requires forall k :: c < k < |p| ==> !IsBlockCode(p[k].code)
    ensures XrefFrom(p, c, [pos]) == Ok(SetJump(p, pos, c))
  {
    var q := SetJump(p, pos, c);
    assert GoStack.Top([pos]) == pos && GoStack.Below([pos]) == [];
    assert XrefStep(p, c, [pos]) == Ok((q, []));
    XrefFromStep(p, c, [pos], q, []);
    XrefSkip(q, c + 1, |q|, []);
  }

  /** The `end` at `c` closing the single open block `pos`, a `do`, with no block op after it. */
  lemma XrefCloseDo(p: seq<Op>, c: nat, pos: nat)
    requires pos < c < |p| && p[c].code.End? && p[pos].code.Do?
    requires forall k :: c < k < |p| ==> !IsBlockCode(p[k].code)
    ensures XrefFrom(p, c, [pos]) == Ok(SetJump(SetJump(p, c, p[pos].jumpTo), pos, c + 1))
  {
    var q := SetJump(SetJump(p, c, p[pos].jumpTo), pos, c + 1);
    assert GoStack.Top([pos]) == pos && GoStack.Below([pos]) == [];
    assert XrefStep(p, c, [pos]) == Ok((q, []));
    XrefFromStep(p, c, [pos], q, []);
    XrefSkip(q, c + 1, |q|, []);
  }

  /** From just past the open block `b`, an `if` or `else`, to the end: closed by the `end` at `c`. */
  lemma XrefCloseIfAfter(p: seq<Op>, b: nat, c: nat)
    requires b < c < |p| && p[c].code.End? && (p[b].code.If? || p[b].code.Else?)
    requires forall k :: b < k < |p| && k != c ==> !IsBlockCode(p[k].code)
    ensures XrefFrom(p, b + 1, [b]) == Ok(SetJump(p, b, c))
  {
    calc {
      XrefFrom(p, b + 1, [b]);
      { XrefSkip(p, b + 1, c, [b]); }
      XrefFrom(p, c, [b]);
      { XrefCloseIf(p, c, b); }
      Ok(SetJump(p, b, c));
    }
  }

  /** From just past the open block `b`, a `do`, to the end: closed by the `end` at `c`. */
  lemma XrefCloseDoAfter(p: seq<Op>, b: nat, c: nat)
    requires b < c < |p| && p[c].code.End? && p[b].code.Do?
    requires forall k :: b < k < |p| && k != c ==> !IsBlockCode(p[k].code)
    ensures XrefFrom(p, b + 1, [b]) == Ok(SetJump(SetJump(p, c, p[b].jumpTo), b, c + 1))
  {
    calc {
      XrefFrom(p, b + 1, [b]);
      { XrefSkip(p, b + 1, c, [b]); }
      XrefFrom(p, c, [b]);
      { XrefCloseDo(p, c, b); }
      Ok(SetJump(SetJump(p, c, p[b].jumpTo), b, c + 1));
    }
  }

  /** `r` is `p` with `JumpTo` of the ops at the keys of `targets` set as it says, nothing else changed. */
  predicate LinkedAs(p: seq<Op>, r: seq<Op>, targets: map<nat, int>)
  {
    |r| == |p| &&
    forall k :: 0 <= k < |p| ==>
      r[k] == (if k in targets then p[k].(jumpTo := targets[k]) else p[k])
  }

  lemma LinkedTwo(p: seq<Op>, a: nat, x: int, b: nat, y: int)
    requires a < |p| && b < |p| && a != b
    ensures LinkedAs(p, SetJump(SetJump(p, a, x), b, y), map[a := x, b := y])
  {
  }

  /** `if … end`: the `if` jumps to its `end`, and the `end` keeps its `JumpTo`. */
  lemma XrefIfEnd(p: seq<Op>, a: nat, b: nat)
    requires a < b < |p| && p[a].code.If? && p[b].code.End? && OnlyBlocksAt(p, {a, b})
    ensures Xref(p).Ok? && LinkedAs(p, Xref(p).value, map[a := b])
  {
    XrefOpenUpTo(p, a, b);
    XrefCloseIf(p, b, a);
  }

  lemma XrefIfElseEndRun(p: seq<Op>, a: nat, b: nat, c: nat)
    requires a < b < c < |p| && p[a].code.If? && p[b].code.Else? && p[c].code.End?
    requires OnlyBlocksAt(p, {a, b, c})
    ensures Xref(p) == Ok(SetJump(SetJump(p, a, b + 1), b, c))
  {
    XrefOpenUpTo(p, a, b);
    XrefElse(p, b, a);
    var q := SetJump(p, a, b + 1);
    assert forall k :: a < k < |p| ==> q[k] == p[k];
    XrefCloseIfAfter(q, b, c);
  }

  /** `if … else … end`: the `if` jumps just past the `else`, the `else` to the `end`. */
  lemma XrefIfElseEnd(p: seq<Op>, a: nat, b: nat, c: nat)
    requires a < b < c < |p| && p[a].code.If? && p[b].code.Else? && p[c].code.End?
    requires OnlyBlocksAt(p, {a, b, c})
    ensures Xref(p).Ok? && LinkedAs(p, Xref(p).value, map[a := b + 1, b := c])
  {
    XrefIfElseEndRun(p, a, b, c);
    LinkedTwo(p, a, b + 1, b, c);
  }

  lemma XrefWhileDoEndRun(p: seq<Op>, a: nat, b: nat, c: nat)
    requires a < b < c < |p| && p[a].code.While? && p[b].code.Do? && p[c].code.End?
    requires OnlyBlocksAt(p, {a, b, c})
    ensures Xref(p) == Ok(SetJump(SetJump(p, c, a), b, c + 1))
  {
    XrefOpenUpTo(p, a, b);
    XrefDo(p, b, a);
    var q := SetJump(p, b, a);
    assert forall k :: b < k < |p| ==> q[k] == p[k];
    assert q[b].code.Do? && q[b].jumpTo == a;
    XrefCloseDoAfter(q, b, c);
    assert SetJump(SetJump(q, c, a), b, c + 1) == SetJump(SetJump(p, c, a), b, c + 1);
  }

  /** `while … do … end`: the `do` jumps just past the `end`, the `end` back to the `while`. */
  lemma XrefWhileDoEnd(p: seq<Op>, a: nat, b: nat, c: nat)
    requires a < b < c < |p| && p[a].code.While? && p[b].code.Do? && p[c].code.End?
    requires OnlyBlocksAt(p, {a, b, c})
    ensures Xref(p).Ok? && LinkedAs(p, Xref(p).value, map[b := c + 1, c := a])
  {
    XrefWhileDoEndRun(p, a, b, c);
    LinkedTwo(p, c, a, b, c + 1);
  }

  /** A lone opener is reported as an unclosed block at its location. */
  lemma XrefUnclosed(p: seq<Op>, a: nat)
    requires a < |p| && (p[a].code.If? || p[a].code.While?) && OnlyBlocksAt(p, {a})
    ensures Xref(p) == Err(UnclosedBlock(p[a].loc))
  {
    XrefOpenUpTo(p, a, |p|);
    assert GoStack.Top([a]) == a;
  }

  /** `while … end` without `do` fails the assertion at the `end`. */
  lemma XrefWhileEnd(p: seq<Op>, a: nat, b: nat)
    requires a < b < |p| && p[a].code.While? && p[b].code.End? && OnlyBlocksAt(p, {a, b})
    ensures Xref(p) == Err(AssertionFailed(EndMessage))
  {
    XrefOpenUpTo(p, a, b);
    assert GoStack.Top([a]) == a;
    assert XrefStep(p, b, [a]) == Err(AssertionFailed(EndMessage));
  }

  /**
   * Unlike the C++ compilers, a surplus `end` is accepted: with an `if` first in the program,
   * `if … end … end` is cross-referenced, and the second `end`, popping an empty stack,
   * re-links the `if` to itself.
   */
  lemma XrefSurplusEnd(p: seq<Op>, b: nat, c: nat)
    requires 0 < b < c < |p| && p[0].code.If? && p[b].code.End? && p[c].code.End?
    requires OnlyBlocksAt(p, {0, b, c})
    ensures Xref(p).Ok? && LinkedAs(p, Xref(p).value, map[0 := c])
  {
    XrefOpenUpTo(p, 0, b);
    var q := SetJump(p, 0, b);
    assert GoStack.Top([0]) == 0 && GoStack.Below([0]) == [];
    assert XrefStep(p, b, [0]) == Ok((q, []));
    XrefFromStep(p, b, [0], q, []);
    XrefSkip(q, b + 1, c, []);
    var q' := SetJump(q, 0, c);
    assert XrefStep(q, c, []) == Ok((q', []));
    XrefFromStep(q, c, [], q', []);
    XrefSkip(q', c + 1, |q'|, []);
  }

  /** A program that opens no block is left as it is. */
  lemma XrefWithoutBlocks(p: seq<Op>)
    requires OnlyBlocksAt(p, {})
    ensures Xref(p) == Ok(p)
  {
    XrefSkip(p, 0, |p|, []);
  }

  // ---------------------------------------------------------------------------------
  // The whole front end

  /** `LexFile` once the file is read: its tokens, their operations, cross-referenced. */
  function Lexed(path: string, source: string): Result<seq<Op>, LexError>
  {
    var ts := FileTokens(path, source);
    if ts.Err? then Err(ts.error)
    else
      var ops := TokenOps(ts.value);
      if ops.Err? then Err(ops.error) else Xref(ops.value)
  }

  /** `LexFile`, given the contents of the file. */
  method LexFile(filepath: string, source: string) returns (r: Result<seq<Op>, LexError>)
    ensures r == Lexed(filepath, source)
  {
    var lines := Split(source, "\n");
    var tokens: seq<Token> := [];
    var i := 0;
    while i < |lines|
      invariant 0 <= i <= |lines|
      invariant FileTokensFrom(filepath, lines, i, tokens) == FileTokens(filepath, source)
    {
      var line := Split(lines[i], "//")[0] + "\n";
      var lineTokens := LexLine(filepath, i + 1, line);
      FileTokensFromStep(filepath, lines, i, tokens);
      if lineTokens.Err? {
        return Err(lineTokens.error);
      }
      tokens := tokens + lineTokens.value;
      i := i + 1;
    }
    assert FileTokens(filepath, source) == Ok(tokens);
    var parsed := ParseTokensAsOperations(tokens);
    if parsed.Err? {
      return Err(parsed.error);
    }
    var program := new Op[|parsed.value|](k requires 0 <= k < |parsed.value| => parsed.value[k]);
    assert program[..] == parsed.value;
    var linked := CrossreferenceBlocks(program);
    if linked.Err? {
      return Err(linked.error);
    }
    r := Ok(program[..]);
  }

  /**
   * What the front end delivers: one operation per token of the file, in order, each with its
   * token's code, value and location, and every jump target within `[0, len]`.
   */
  lemma LexedOps(path: string, source: string)
    requires Lexed(path, source).Ok?
    ensures FileTokens(path, source).Ok?
    ensures var ts := FileTokens(path, source).value;
            var ops := Lexed(path, source).value;
            |ops| == |ts|
            && forall k :: 0 <= k < |ts| ==> OpOfToken(ops[k].(jumpTo := 0), ts[k]) && 0 <= ops[k].jumpTo <= |ops|
  {
    var ts := FileTokens(path, source).value;
    TokenOpsShape(ts);
    var parsed := TokenOps(ts).value;
    assert JumpsWithin(parsed, |parsed|);
    XrefInvariants(parsed);
    var ops := Lexed(path, source).value;
    assert forall k :: 0 <= k < |ts| ==> ops[k].(jumpTo := 0) == parsed[k];
  }
}
