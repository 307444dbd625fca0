/**
 * The first prototype of the toolchain (main.cpp): each line of a file is cut into tokens,
 * bare tokens being read with `std::stoi`; the tokens become operations, of which only the
 * words `+` and `put` exist; and the operations run on a `std::stack<int>`, `put` printing
 * what it pops. Every `exit(1)`, failed assertion, uncaught exception and `top()` of an empty
 * stack is an error result.
 */
module ProtoCpp {
  import opened Wrappers
  import opened Decimal
  import opened Location
  import opened GoStrings
  import WisText

  datatype OpType = PushInt | PushString | Plus | Put

  datatype TokenType = Word | Int | Str

  datatype Token = Token(kind: TokenType, stringValue: string, intValue: int, loc: string)

  datatype Operation = Operation(kind: OpType, intValue: int, stringValue: string, loc: string)

  datatype CppError =
    | ClosingQuoteExpected                        // the assertion after a string literal
    | IntOutOfRange(text: string)                 // `std::out_of_range` from `stoi`, caught nowhere
    | UnexpectedToken(loc: string, word: string)  // a word other than `+` and `put`
    | PushingStringsUnimplemented                 // the assertion on PUSH_STRING in `run_program`
    | EmptyStack                                  // `top()` of an empty `std::stack`

  predicate NotCSpace(c: char) { !WisText.IsCSpace(c) }

  predicate IsQuote(c: char) { c == '"' }

  // ---------------------------------------------------------------------------------
  // Columns

  /**
   * `find_col`: the first index at or after `start` whose character satisfies `pred`, or the
   * length of the line when there is none; a start past the end is returned as it is.
   */
  method FindCol(line: string, start: nat, pred: char -> bool) returns (col: nat)
    ensures start <= col
    ensures start <= |line| ==> col == FirstFrom(line, start, pred)
    ensures start > |line| ==> col == start
    ensures forall k :: start <= k < col ==> k < |line| && !pred(line[k])
  {
    col := start;
    while col < |line| && !pred(line[col])
      invariant start <= col
      invariant start <= |line| ==> col <= |line| && FirstFrom(line, col, pred) == FirstFrom(line, start, pred)
      invariant start > |line| ==> col == start
      invariant forall k :: start <= k < col ==> k < |line| && !pred(line[k])
      decreases |line| - col
    {
      col := col + 1;
    }
  }

  // ---------------------------------------------------------------------------------
  // `std::stoi`

  datatype StoiOutcome = Converted(value: int) | InvalidArgument | OutOfRange

  /** The number of decimal digits at the front of `s`. */
  function DigitRun(s: string): (n: nat)
    ensures n <= |s| && AllDigits(s[..n])
    ensures n < |s| ==> !IsDigit(s[n])
  {
    if |s| > 0 && IsDigit(s[0]) then
      var n := 1 + DigitRun(s[1..]);
      assert forall k :: 1 <= k < n ==> s[..n][k] == s[1..][..n - 1][k - 1];
      n
    else 0
  }

  /**
   * `std::stoi(s)`: after leading white space and one optional sign, the longest run of
   * decimal digits is read and the rest ignored; no digit there is `invalid_argument`, a value
   * outside the 32-bit `int` is `out_of_range`.
   */
  function Stoi(s: string): StoiOutcome
  {
    var t := WisText.DropCSpace(s);
    var signed := |t| > 0 && (t[0] == '-' || t[0] == '+');
    var rest := if signed then t[1..] else t;
    var n := DigitRun(rest);
    if n == 0 then InvalidArgument
    else
      var magnitude := DigitsValue(rest[..n]);
      var v := if signed && t[0] == '-' then -(magnitude as int) else magnitude;
      if WisText.INT_MIN <= v <= WisText.INT_MAX then Converted(v) else OutOfRange
  }

  lemma {:induction false} DigitRunAppend(d: string, tail: string)
    requires AllDigits(d) && (tail == "" || !IsDigit(tail[0]))
    ensures DigitRun(d + tail) == |d|
    decreases |d|
  {
    if |d| > 0 {
      assert (d + tail)[1..] == d[1..] + tail;
      DigitRunAppend(d[1..], tail);
    }
  }

  /**
   * `stoi` reads an integer off the front of a string and ignores what follows a non-digit:
   * the spelling of a 32-bit value followed by anything not starting with a digit reads as
   * that value.
   */
  lemma StoiReadsPrefix(x: int, tail: string)
    requires WisText.INT_MIN <= x <= WisText.INT_MAX
    requires tail == "" || !IsDigit(tail[0])
    ensures Stoi(IntToString(x) + tail) == Converted(x)
  {
    if x < 0 {
      StoiReadsNegative(x, tail);
    } else {
      StoiReadsNatural(x, tail);
    }
  }

  lemma StoiReadsNatural(x: nat, tail: string)
    requires x <= WisText.INT_MAX
    requires tail == "" || !IsDigit(tail[0])
    ensures Stoi(NatToString(x) + tail) == Converted(x)
  {
    var d := NatToString(x);
    var s := d + tail;
    assert s[0] == d[0];
    assert WisText.DropCSpace(s) == s by { assert !WisText.IsCSpace(s[0]); }
    DigitRunAppend(d, tail);
    assert s[..|d|] == d;
    DigitsValueOfNatToString(x);
  }

  lemma StoiReadsNegative(x: int, tail: string)
    requires WisText.INT_MIN <= x < 0
    requires tail == "" || !IsDigit(tail[0])
    ensures Stoi(IntToString(x) + tail) == Converted(x)
  {
    var d := NatToString(-x);
    var s := IntToString(x) + tail;
    assert s == "-" + d + tail;
    assert s[0] == '-';
    assert WisText.DropCSpace(s) == s by { assert !WisText.IsCSpace(s[0]); }
    var rest := s[1..];
    assert rest == d + tail;
    DigitRunAppend(d, tail);
    assert DigitRun(rest) == |d| > 0;
    assert rest[..|d|] == d;
    DigitsValueOfNatToString(-x);
    assert DigitsValue(rest[..|d|]) == -x;
  }

  /** `stoi` throws `invalid_argument` exactly when no digit follows the white space and the sign. */
  lemma StoiInvalid(s: string)
    ensures var t := WisText.DropCSpace(s);
            var rest := if |t| > 0 && (t[0] == '-' || t[0] == '+') then t[1..] else t;
            Stoi(s) == InvalidArgument <==> rest == "" || !IsDigit(rest[0])
  {
  }

  // ---------------------------------------------------------------------------------
  // Lines

  /** A token delimited by white space: INT when `stoi` reads a number, WORD when it cannot. */
  function BareToken(text: string, loc: string): Result<Token, CppError>
  {
    match Stoi(text)
    case Converted(v) => Ok(Token(Int, "", v, loc))
    case InvalidArgument => Ok(Token(Word, text, 0, loc))
    case OutOfRange => Err(IntOutOfRange(text))
  }

  /** The token at column `col` and the column of the first non-space character after it. */
  function Scan(path: string, row: int, line: string, col: nat): (r: Result<(Token, nat), CppError>)
    requires col < |line| && NotCSpace(line[col])
    ensures r.Ok? ==> col < r.value.1 <= |line| && (r.value.1 < |line| ==> NotCSpace(line[r.value.1]))
  {
    var loc := LocationView(path, row, col + 1);
    if line[col] == '"' then
      var colEnd := FirstFrom(line, col + 1, IsQuote);
      if colEnd == |line| then Err(ClosingQuoteExpected)
      else Ok((Token(Str, line[col + 1..colEnd], 0, loc), FirstFrom(line, colEnd + 1, NotCSpace)))
    else
      var colEnd := FirstFrom(line, col, WisText.IsCSpace);
      var t := BareToken(line[col..colEnd], loc);
      if t.Err? then Err(t.error) else Ok((t.value, FirstFrom(line, colEnd, NotCSpace)))
  }

  /** The loop of `lex_line` from column `col`, after the tokens `acc`. */
  function LexFrom(path: string, row: int, line: string, col: nat, acc: seq<Token>): Result<seq<Token>, CppError>
    requires col <= |line| && (col < |line| ==> NotCSpace(line[col]))
    decreases |line| - col
  {
    if col == |line| then Ok(acc)
    else
      var r := Scan(path, row, line, col);
      if r.Err? then Err(r.error) else LexFrom(path, row, line, r.value.1, acc + [r.value.0])
  }

  function LineTokens(path: string, row: int, line: string): Result<seq<Token>, CppError>
  {
    LexFrom(path, row, line, FirstFrom(line, 0, NotCSpace), [])
  }

  lemma LexFromStep(path: string, row: int, line: string, col: nat, acc: seq<Token>, t: Token, next: nat)
    requires col < |line| && NotCSpace(line[col]) && Scan(path, row, line, col) == Ok((t, next))
    ensures next <= |line| && (next < |line| ==> NotCSpace(line[next]))
    ensures LexFrom(path, row, line, col, acc) == LexFrom(path, row, line, next, acc + [t])
  {
  }

  /** One iteration of the loop of `lex_line`. */
  method ScanToken(filepath: string, lineNumber: int, line: string, col: nat) returns (r: Result<(Token, nat), CppError>)
    requires col < |line| && NotCSpace(line[col])
    ensures r == Scan(filepath, lineNumber, line, col)
  {
    var loc := LocationView(filepath, lineNumber, col + 1);
    if line[col] == '"' {
      var colEnd := FindCol(line, col + 1, IsQuote);
      if colEnd == |line| {
        // the character read past the end of the line is not a quote
        return Err(ClosingQuoteExpected);
      }
      var textOfToken := line[col + 1..colEnd];
      var next := FindCol(line, colEnd + 1, NotCSpace);
      r := Ok((Token(Str, textOfToken, 0, loc), next));
    } else {
      var colEnd := FindCol(line, col, WisText.IsCSpace);
      var textOfToken := line[col..colEnd];
      var t;
      match Stoi(textOfToken) {
        case Converted(v) =>
          t := Token(Int, "", v, loc);
        case InvalidArgument =>
          t := Token(Word, textOfToken, 0, loc);
        case OutOfRange =>
          return Err(IntOutOfRange(textOfToken));
      }
      var next := FindCol(line, colEnd, NotCSpace);
      r := Ok((t, next));
    }
  }

  /** `lex_line`: the tokens of one line, located at row `lineNumber`. */
  method LexLine(filepath: string, lineNumber: int, line: string) returns (r: Result<seq<Token>, CppError>)
    ensures r == LineTokens(filepath, lineNumber, line)
  {
    var tokens: seq<Token> := [];
    var col := FindCol(line, 0, NotCSpace);
    while col < |line|
      invariant col <= |line| && (col < |line| ==> NotCSpace(line[col]))
      invariant LexFrom(filepath, lineNumber, line, col, tokens) == LineTokens(filepath, lineNumber, line)
      decreases |line| - col
    {
      var scanned := ScanToken(filepath, lineNumber, line, col);
      if scanned.Err? {
        return Err(scanned.error);
      }
      var (t, next) := scanned.value;
      LexFromStep(filepath, lineNumber, line, col, tokens, t, next);
      tokens := tokens + [t];
      col := next;
    }
    r := Ok(tokens);
  }

  /**
   * A `"` opens a string literal that must close on the same line: the token's text is exactly
   * what lies between the two quotes, and its location is the column of the opening quote,
   * counted from 1.
   */
  lemma ScanString(path: string, row: int, line: string, col: nat)
    requires col < |line| && line[col] == '"'
    ensures var r := Scan(path, row, line, col);
            && (r.Err? <==> '"' !in line[col + 1..])
            && (r.Err? ==> r.error == ClosingQuoteExpected)
            && (r.Ok? ==>
                  var t := r.value.0;
                  var close := col + 1 + |t.stringValue|;
                  && t.kind == Str && t.loc == LocationView(path, row, col + 1)
                  && close < |line| && line[close] == '"'
                  && t.stringValue == line[col + 1..close] && '"' !in t.stringValue)
  {
    var colEnd := FirstFrom(line, col + 1, IsQuote);
    FirstFromIsFirst(line, col + 1, IsQuote);
    var after := line[col + 1..];
    if colEnd == |line| {
      assert forall k :: 0 <= k < |after| ==> after[k] == line[col + 1 + k];
    } else {
      assert after[colEnd - col - 1] == '"';
      var text := line[col + 1..colEnd];
      assert forall k :: 0 <= k < |text| ==> text[k] == line[col + 1 + k];
    }
  }

  /** A bare token starting with a number, such as `2swap`, is the INT of that number. */
  lemma IntPrefixToken(text: string, loc: string, x: int, tail: string)
    requires WisText.INT_MIN <= x <= WisText.INT_MAX
    requires text == IntToString(x) + tail && (tail == "" || !IsDigit(tail[0]))
    ensures BareToken(text, loc) == Ok(Token(Int, "", x, loc))
  {
    StoiReadsPrefix(x, tail);
  }

  lemma TwoSwapIsInt(loc: string)
    ensures BareToken("2swap", loc) == Ok(Token(Int, "", 2, loc))
  {
    assert IntToString(2) == "2";
    IntPrefixToken("2swap", loc, 2, "swap");
  }

  /** A bare token is a WORD, carrying its text, exactly when `stoi` finds no number in it. */
  lemma WordToken(text: string, loc: string)
    ensures BareToken(text, loc).Ok? && BareToken(text, loc).value.kind == Word
            <==> Stoi(text) == InvalidArgument
    ensures Stoi(text) == InvalidArgument ==> BareToken(text, loc).value.stringValue == text
  {
  }

  // ---------------------------------------------------------------------------------
  // Operations

  /** The operation a token stands for; a word other than `+` and `put` is an error at its location. */
  function TokenOp(t: Token): Result<Operation, CppError>
  {
    match t.kind
    case Int => Ok(Operation(PushInt, t.intValue, "", t.loc))
    case Str => Ok(Operation(PushString, 0, t.stringValue, t.loc))
    case Word =>
      if t.stringValue == "+" then Ok(Operation(Plus, 0, "", t.loc))
      else if t.stringValue == "put" then Ok(Operation(Put, 0, "", t.loc))
      else Err(UnexpectedToken(t.loc, t.stringValue))
  }

  /** The operations of the tokens, one per token, or the error of the first token that has none. */
  function TokenOps(ts: seq<Token>): Result<seq<Operation>, CppError>
    decreases |ts|
  {
    if ts == [] then Ok([])
    else
      var init := TokenOps(ts[..|ts| - 1]);
      if init.Err? then init
      else
        var op := TokenOp(ts[|ts| - 1]);
        if op.Err? then Err(op.error) else Ok(init.value + [op.value])
  }

  /** Once a prefix fails, the whole sequence fails with the same error. */
  lemma {:induction false} TokenOpsErrorStays(ts: seq<Token>, k: nat)
    requires k <= |ts| && TokenOps(ts[..k]).Err?
    ensures TokenOps(ts) == TokenOps(ts[..k])
    decreases |ts| - k
  {
    if k == |ts| {
      assert ts[..k] == ts;
    } else {
      assert ts[..k + 1][..k] == ts[..k];
      TokenOpsErrorStays(ts, k + 1);
    }
  }

  /** `parse_tokens_as_operations`. */
  method ParseTokensAsOperations(tokens: seq<Token>) returns (r: Result<seq<Operation>, CppError>)
    ensures r == TokenOps(tokens)
  {
    var program: seq<Operation> := [];
    var k := 0;
    while k < |tokens|
      invariant 0 <= k <= |tokens|
      invariant TokenOps(tokens[..k]) == Ok(program)
    {
      var token := tokens[k];
      assert tokens[..k + 1][..k] == tokens[..k];
      match token.kind {
        case Int =>
          program := program + [Operation(PushInt, token.intValue, "", token.loc)];
        case Str =>
          program := program + [Operation(PushString, 0, token.stringValue, token.loc)];
        case Word =>
          if token.stringValue == "+" {
            program := program + [Operation(Plus, 0, "", token.loc)];
          } else if token.stringValue == "put" {
            program := program + [Operation(Put, 0, "", token.loc)];
          } else {
            r := Err(UnexpectedToken(token.loc, token.stringValue));
            TokenOpsErrorStays(tokens, k + 1);
            return;
          }
      }
      k := k + 1;
    }
    assert tokens[..|tokens|] == tokens;
    r := Ok(program);
  }

  predicate KnownToken(t: Token) { t.kind.Word? ==> t.stringValue == "+" || t.stringValue == "put" }

  /** The operation made of token `t` has its location and its value. */
  predicate OpOfToken(op: Operation, t: Token)
  {
    op.loc == t.loc
    && (t.kind.Int? ==> op.kind == PushInt && op.intValue == t.intValue)
    && (t.kind.Str? ==> op.kind == PushString && op.stringValue == t.stringValue)
    && (t.kind.Word? ==> op.kind == (if t.stringValue == "+" then Plus else Put))
  }

  /**
   * Every token becomes exactly one operation, in order; parsing fails exactly when some word
   * is neither `+` nor `put`, and then reports the first such word at its location.
   */
  lemma {:induction false} ParseOnePerToken(ts: seq<Token>)
    ensures TokenOps(ts).Ok? <==> forall k :: 0 <= k < |ts| ==> KnownToken(ts[k])
    ensures TokenOps(ts).Ok? ==>
              |TokenOps(ts).value| == |ts|
              && forall k :: 0 <= k < |ts| ==> OpOfToken(TokenOps(ts).value[k], ts[k])
    ensures TokenOps(ts).Err? ==>
              exists k :: 0 <= k < |ts| && !KnownToken(ts[k])
                          && (forall j :: 0 <= j < k ==> KnownToken(ts[j]))
                          && TokenOps(ts).error == UnexpectedToken(ts[k].loc, ts[k].stringValue)
    decreases |ts|
  {
    if ts != [] {
      var init := ts[..|ts| - 1];
      var last := ts[|ts| - 1];
      ParseOnePerToken(init);
      assert forall k :: 0 <= k < |init| ==> init[k] == ts[k];
      if TokenOps(init).Err? {
        var k :| 0 <= k < |init| && !KnownToken(init[k]) && (forall j :: 0 <= j < k ==> KnownToken(init[j]))
                 && TokenOps(init).error == UnexpectedToken(init[k].loc, init[k].stringValue);
        assert !KnownToken(ts[k]);
      } else if TokenOp(last).Err? {
        assert !KnownToken(ts[|ts| - 1]);
      } else {
        var ops := TokenOps(ts).value;
        assert ops == TokenOps(init).value + [TokenOp(last).value];
        assert forall k :: 0 <= k < |init| ==> ops[k] == TokenOps(init).value[k];
      }
    }
  }

  // ---------------------------------------------------------------------------------
  // Files

  /** The tokens of the lines from index `k` on (row `k + 1`), after the tokens `acc`. */
  function FileTokensFrom(path: string, lines: seq<string>, k: nat, acc: seq<Token>): Result<seq<Token>, CppError>
    requires k <= |lines|
    decreases |lines| - k
  {
    if k == |lines| then Ok(acc)
    else
      var ts := LineTokens(path, k + 1, lines[k]);
      if ts.Err? then Err(ts.error) else FileTokensFrom(path, lines, k + 1, acc + ts.value)
  }

  /** What `lex_file` returns for a file made of `lines`. */
  function FileProgram(path: string, lines: seq<string>): Result<seq<Operation>, CppError>
  {
    var ts := FileTokensFrom(path, lines, 0, []);
    if ts.Err? then Err(ts.error) else TokenOps(ts.value)
  }

  /**
   * `lex_file` after the file is opened: the lines are numbered from 1, their tokens are
   * joined in order and parsed (`crossreference_blocks` changes nothing and is left out).
   */
  method LexFile(path: string, lines: seq<string>) returns (r: Result<seq<Operation>, CppError>)
    ensures r == FileProgram(path, lines)
  {
    var tokens: seq<Token> := [];
    var lineNumber := 1;
    while lineNumber <= |lines|
      invariant 1 <= lineNumber <= |lines| + 1
      invariant FileTokensFrom(path, lines, lineNumber - 1, tokens) == FileTokensFrom(path, lines, 0, [])
    {
      var lineTokens := LexLine(path, lineNumber, lines[lineNumber - 1]);
      if lineTokens.Err? {
        return Err(lineTokens.error);
      }
      tokens := tokens + lineTokens.value;
      lineNumber := lineNumber + 1;
    }
    r := ParseTokensAsOperations(tokens);
  }

  // ---------------------------------------------------------------------------------
  // Running

  /**
   * One operation on the stack (top last) and the printed lines: PLUS replaces the top `a`
   * and the next `b` by `a + b`, PUT pops the top and prints it on a line of its own.
   */
  function Step(op: Operation, stack: seq<int>, out: seq<string>): Result<(seq<int>, seq<string>), CppError>
  {
    match op.kind
    case PushInt => Ok((stack + [op.intValue], out))
    case PushString => Err(PushingStringsUnimplemented)
    case Plus =>
      if |stack| < 2 then Err(EmptyStack)
      else Ok((stack[..|stack| - 2] + [stack[|stack| - 1] + stack[|stack| - 2]], out))
    case Put =>
      if |stack| == 0 then Err(EmptyStack)
      else Ok((stack[..|stack| - 1], out + [IntToString(stack[|stack| - 1]) + "\n"]))
  }

  /** The operations from index `i` on. */
  function RunFrom(p: seq<Operation>, i: nat, stack: seq<int>, out: seq<string>): Result<seq<string>, CppError>
    requires i <= |p|
    decreases |p| - i
  {
    if i == |p| then Ok(out)
    else
      var r := Step(p[i], stack, out);
      if r.Err? then Err(r.error) else RunFrom(p, i + 1, r.value.0, r.value.1)
  }

  /** The lines a program prints, from an empty stack. */
  function Run(p: seq<Operation>): Result<seq<string>, CppError>
  {
    RunFrom(p, 0, [], [])
  }

  /** `run_program`, with what it writes to standard output returned as lines. */
  method RunProgram(program: seq<Operation>) returns (r: Result<seq<string>, CppError>)
    ensures r == Run(program)
  {
    var runtimeStack: seq<int> := [];
    var out: seq<string> := [];
    var i := 0;
    while i < |program|
      invariant 0 <= i <= |program|
      invariant RunFrom(program, i, runtimeStack, out) == Run(program)
    {
      var op := program[i];
      match op.kind {
        case PushInt =>
          runtimeStack := runtimeStack + [op.intValue];
        case PushString =>
          return Err(PushingStringsUnimplemented);
        case Plus =>
          if |runtimeStack| == 0 {
            return Err(EmptyStack);
          }
          ghost var before := runtimeStack;
          var a := runtimeStack[|runtimeStack| - 1];
          runtimeStack := runtimeStack[..|runtimeStack| - 1];
          if |runtimeStack| == 0 {
            return Err(EmptyStack);
          }
          var b := runtimeStack[|runtimeStack| - 1];
          runtimeStack := runtimeStack[..|runtimeStack| - 1];
          assert runtimeStack == before[..|before| - 2];
          runtimeStack := runtimeStack + [a + b];
        case Put =>
          if |runtimeStack| == 0 {
            return Err(EmptyStack);
          }
          var val := runtimeStack[|runtimeStack| - 1];
          runtimeStack := runtimeStack[..|runtimeStack| - 1];
          out := out + [IntToString(val) + "\n"];
      }
      i := i + 1;
    }
    r := Ok(out);
  }

  /**
   * Whether the operations from index `i` on find enough values, starting from a stack of
   * height `h`: PLUS needs two, PUT one, and PUSH_STRING is never allowed.
   */
  predicate Balanced(p: seq<Operation>, i: nat, h: nat)
    requires i <= |p|
    decreases |p| - i
  {
    i == |p|
    || match p[i].kind
       case PushInt => Balanced(p, i + 1, h + 1)
       case PushString => false
       case Plus => h >= 2 && Balanced(p, i + 1, h - 1)
       case Put => h >= 1 && Balanced(p, i + 1, h - 1)
  }

  /** The number of PUT operations from index `i` on. */
  function PutsFrom(p: seq<Operation>, i: nat): nat
    requires i <= |p|
    decreases |p| - i
  {
    if i == |p| then 0 else (if p[i].kind == Put then 1 else 0) + PutsFrom(p, i + 1)
  }

  /** What one step needs of the stack height, and what it does to the height and the output. */
  lemma StepHeights(op: Operation, stack: seq<int>, out: seq<string>)
    ensures var r := Step(op, stack, out);
            && (r.Ok? <==> op.kind == PushInt || (op.kind == Plus && |stack| >= 2) || (op.kind == Put && |stack| >= 1))
            && (r.Ok? ==> |r.value.0| == if op.kind == PushInt then |stack| + 1 else |stack| - 1)
            && (r.Ok? && op.kind != Put ==> r.value.1 == out)
            && (r.Ok? && op.kind == Put ==> |r.value.1| == |out| + 1 && r.value.1[..|out|] == out)
  {
  }

  /**
   * A run fails exactly when the stack heights do not allow it, whatever the values; when it
   * succeeds it prints one line per PUT, after those already printed.
   */
  lemma {:induction false} RunFromShape(p: seq<Operation>, i: nat, stack: seq<int>, out: seq<string>)
    requires i <= |p|
    ensures RunFrom(p, i, stack, out).Ok? <==> Balanced(p, i, |stack|)
    ensures RunFrom(p, i, stack, out).Ok? ==>
              |RunFrom(p, i, stack, out).value| == |out| + PutsFrom(p, i)
              && RunFrom(p, i, stack, out).value[..|out|] == out
    decreases |p| - i
  {
    if i < |p| {
      var r := Step(p[i], stack, out);
      StepHeights(p[i], stack, out);
      if r.Ok? {
        var (stack', out') := r.value;
        assert RunFrom(p, i, stack, out) == RunFrom(p, i + 1, stack', out');
        RunFromShape(p, i + 1, stack', out');
        assert Balanced(p, i, |stack|) == Balanced(p, i + 1, |stack'|);
        if RunFrom(p, i, stack, out).Ok? {
          var v := RunFrom(p, i, stack, out).value;
          assert v[..|out'|][..|out|] == v[..|out|];
        }
      } else {
        assert !Balanced(p, i, |stack|);
      }
    }
  }

  /**
   * `run_program` succeeds exactly on programs whose stack never runs short and that push no
   * string, and then prints one line per `put`.
   */
  lemma RunSucceedsIffBalanced(p: seq<Operation>)
    ensures Run(p).Ok? <==> Balanced(p, 0, 0)
    ensures Run(p).Ok? ==> |Run(p).value| == PutsFrom(p, 0)
  {
    RunFromShape(p, 0, [], []);
  }

  /** Reaching a PUSH_STRING aborts the run with the "not implemented" assertion. */
  lemma {:induction false} PushStringAborts(p: seq<Operation>, i: nat, stack: seq<int>, out: seq<string>, j: nat)
    requires i <= j < |p| && p[j].kind == PushString
    ensures RunFrom(p, i, stack, out).Err?
    decreases j - i
  {
    var r := Step(p[i], stack, out);
    if i < j && r.Ok? {
      PushStringAborts(p, i + 1, r.value.0, r.value.1, j);
    }
  }

  /** `2 3 + put` prints `5`. */
  lemma SumExample(loc: string)
    ensures Run([Operation(PushInt, 2, "", loc), Operation(PushInt, 3, "", loc), Operation(Plus, 0, "", loc),
                 Operation(Put, 0, "", loc)]) == Ok(["5\n"])
  {
    var p := [Operation(PushInt, 2, "", loc), Operation(PushInt, 3, "", loc), Operation(Plus, 0, "", loc),
              Operation(Put, 0, "", loc)];
    assert Step(p[0], [], []) == Ok(([2], [])) by { assert [] + [2] == [2]; }
    assert RunFrom(p, 0, [], []) == RunFrom(p, 1, [2], []);
    assert Step(p[1], [2], []) == Ok(([2, 3], [])) by { assert [2] + [3] == [2, 3]; }
    assert RunFrom(p, 1, [2], []) == RunFrom(p, 2, [2, 3], []);
    assert Step(p[2], [2, 3], []) == Ok(([5], [])) by { assert [2, 3][..0] + [3 + 2] == [5]; }
    assert RunFrom(p, 2, [2, 3], []) == RunFrom(p, 3, [5], []);
    assert Step(p[3], [5], []) == Ok(([], ["5\n"])) by {
      assert DigitChar(5) == '5' && NatToString(5) == "5" && IntToString(5) == "5";
      assert IntToString(5) + "\n" == "5\n";
      assert [5][..0] == [] && [] + ["5\n"] == ["5\n"];
    }
    assert RunFrom(p, 3, [5], []) == RunFrom(p, 4, [], ["5\n"]);
  }
}
