/**
 * `lex_line` and `lex_file` of the C++ compilers: a character-by-character state
 * machine over the line with one space appended. It keeps the pending text `cur`, a
 * string-literal flag and, in wis.cpp only, a character-literal flag.
 */
module WisLexer {
  import opened Wrappers
  import opened Strings
  import opened Location
  import opened WisText
  import opened WisSyntax

  datatype LexError =
    | CharLength(loc: Loc)          // "`char` should be exactly 1 character"
    | UnmodelledEscape(loc: Loc)    // a character literal with an octal or hex escape

  datatype LexState = LexState(cur: string, stringMode: bool, charMode: bool)

  const Start := LexState("", false, false)

  /**
   * A finished bare token: an integer when `string_to_int` accepts the whole text (its
   * column is that of the delimiting space), a word otherwise (its column is that of
   * its first character).
   */
  function Bare(path: string, row: int, cur: string, i: int): Token
  {
    match StringToInt(cur)
    case Some(v) => IntTok(v, Loc(path, row, i))
    case None => WordTok(cur, Loc(path, row, i - |cur| + 1))
  }

  /** One iteration of the `lex_line` loop, on character `ch` at index `i`. */
  function Step(d: Dialect, path: string, row: int, i: int, ch: char, st: LexState, acc: seq<Token>)
    : Result<(LexState, seq<Token>), LexError>
  {
    if ch == '"' && (d == Gollo || !st.charMode) then
      if st.stringMode then
        Ok((st.(cur := "", stringMode := false), acc + [StringTok(st.cur, Loc(path, row, i - |st.cur|))]))
      else
        Ok((st.(stringMode := true), acc))
    else if d == Wis && ch == '\'' && !st.stringMode then
      if st.charMode then
        var loc := Loc(path, row, i - |st.cur|);
        match Unescaped(st.cur)
        case None => Err(UnmodelledEscape(loc))
        case Some(u) =>
          if |u| != 1 then Err(CharLength(loc))
          else Ok((st.(cur := "", charMode := false), acc + [CharTok(st.cur, loc)]))
      else
        Ok((st.(charMode := true), acc))
    else if ch == ' ' && (st.cur != "" || (d == Wis && (st.stringMode || st.charMode))) then
      if st.stringMode || st.charMode then Ok((st.(cur := st.cur + " "), acc))
      else Ok((st.(cur := ""), acc + [Bare(path, row, st.cur, i)]))
    else if ch != ' ' then
      Ok((st.(cur := st.cur + [ch]), acc))
    else
      Ok((st, acc))
  }

  /** The loop of `lex_line` from index `i` on. */
  function LexFrom(d: Dialect, path: string, row: int, line: string, i: nat, st: LexState, acc: seq<Token>)
    : Result<seq<Token>, LexError>
    requires i <= |line|
    decreases |line| - i
  {
    if i == |line| then Ok(acc)
    else
      match Step(d, path, row, i, line[i], st, acc)
      case Err(e) => Err(e)
      case Ok((st', acc')) => LexFrom(d, path, row, line, i + 1, st', acc')
  }

  /** The tokens of one line: the loop run over the line with a space appended. */
  function LineTokens(d: Dialect, path: string, row: int, line: string): Result<seq<Token>, LexError>
  {
    LexFrom(d, path, row, line + " ", 0, Start, [])
  }

  /** `lex_line`. */
  method LexLine(d: Dialect, filepath: string, lineNumber: int, line0: string)
    returns (r: Result<seq<Token>, LexError>)
    ensures r == LineTokens(d, filepath, lineNumber, line0)
  {
    var line := line0 + " ";
    var tokens: seq<Token> := [];
    var cur := "";
    var i := 0;
    var stringMode := false;
    var charMode := false;
    while i < |line|
      invariant 0 <= i <= |line|
      invariant LexFrom(d, filepath, lineNumber, line, i, LexState(cur, stringMode, charMode), tokens)
                == LineTokens(d, filepath, lineNumber, line0)
    {
      var ch := line[i];
      if ch == '"' && (d == Gollo || !charMode) {
        if stringMode {
          tokens := tokens + [StringTok(cur, Loc(filepath, lineNumber, i - |cur|))];
          cur := "";
        }
        stringMode := !stringMode;
      } else if d == Wis && ch == '\'' && !stringMode {
        if charMode {
          var loc := Loc(filepath, lineNumber, i - |cur|);
          var u := UnescapeString(cur);
          if u.None? {
            return Err(UnmodelledEscape(loc));
          }
          if |u.value| != 1 {
            return Err(CharLength(loc));
          }
          tokens := tokens + [CharTok(cur, loc)];
          cur := "";
        }
        charMode := !charMode;
      } else if ch == ' ' && (cur != "" || (d == Wis && (stringMode || charMode))) {
        if stringMode || charMode {
          cur := cur + [ch];
        } else {
          var value := StringToInt(cur);
          if value.Some? {
            tokens := tokens + [IntTok(value.value, Loc(filepath, lineNumber, i))];
          } else {
            tokens := tokens + [WordTok(cur, Loc(filepath, lineNumber, i - |cur| + 1))];
          }
          cur := "";
        }
      } else if ch != ' ' {
        cur := cur + [ch];
      }
      i := i + 1;
    }
    r := Ok(tokens);
  }

  // ---------------------------------------------------------------------------------
  // What a token looks like

  /** The characters that end a bare token or open a literal. */
  predicate Separator(d: Dialect, c: char)
  {
    c == ' ' || c == '"' || (d == Wis && c == '\'')
  }

  predicate NoSeparator(d: Dialect, s: string)
  {
    forall k :: 0 <= k < |s| ==> !Separator(d, s[k])
  }

  /** Every token is placed on this line; a word is non-empty and holds no separator. */
  predicate TokensWellFormed(d: Dialect, path: string, row: int, ts: seq<Token>)
  {
    forall t :: t in ts ==>
      t.loc.file == path && t.loc.row == row &&
      (t.kind == WordToken ==> t.stringValue != "" && NoSeparator(d, t.stringValue)) &&
      (d == Gollo ==> t.kind != CharToken)
  }

  predicate StateWellFormed(d: Dialect, st: LexState)
  {
    (d == Gollo ==> !st.charMode) &&
    (!st.stringMode && !st.charMode ==> NoSeparator(d, st.cur))
  }

  lemma StepWellFormed(d: Dialect, path: string, row: int, i: int, ch: char, st: LexState, acc: seq<Token>)
    requires StateWellFormed(d, st) && TokensWellFormed(d, path, row, acc)
    requires Step(d, path, row, i, ch, st, acc).Ok?
    ensures StateWellFormed(d, Step(d, path, row, i, ch, st, acc).value.0)
    ensures TokensWellFormed(d, path, row, Step(d, path, row, i, ch, st, acc).value.1)
  {
  }

  lemma {:induction false} LexFromWellFormed(d: Dialect, path: string, row: int, line: string, i: nat, st: LexState, acc: seq<Token>)
    requires i <= |line| && StateWellFormed(d, st) && TokensWellFormed(d, path, row, acc)
    requires LexFrom(d, path, row, line, i, st, acc).Ok?
    ensures TokensWellFormed(d, path, row, LexFrom(d, path, row, line, i, st, acc).value)
    decreases |line| - i
  {
    if i < |line| {
      StepWellFormed(d, path, row, i, line[i], st, acc);
      var next := Step(d, path, row, i, line[i], st, acc).value;
      LexFromWellFormed(d, path, row, line, i + 1, next.0, next.1);
    }
  }

  /**
   * Every token of a line carries that line's path and row; a word is never empty and
   * never holds a space or a quote (nor an apostrophe in wis.cpp): those end the
   * pending text or open a literal. gollo.cpp never produces a character token.
   */
  lemma LineTokensWellFormed(d: Dialect, path: string, row: int, line: string)
    requires LineTokens(d, path, row, line).Ok?
    ensures TokensWellFormed(d, path, row, LineTokens(d, path, row, line).value)
  {
    LexFromWellFormed(d, path, row, line + " ", 0, Start, []);
  }

  // ---------------------------------------------------------------------------------
  // Lines without literals: the space-separated runs

  predicate PlainLine(d: Dialect, line: string)
  {
    forall m :: 0 <= m < |line| ==> line[m] != '"' && (d == Wis ==> line[m] != '\'')
  }

  /** The end of the run of non-space characters starting at `i`. */
  function RunEnd(line: string, i: nat): (j: nat)
    requires i <= |line|
    ensures i <= j <= |line|
    ensures j < |line| ==> line[j] == ' '
    ensures forall m :: i <= m < j ==> line[m] != ' '
    decreases |line| - i
  {
    if i == |line| || line[i] == ' ' then i else RunEnd(line, i + 1)
  }

  /**
   * Reference reading of a line without literals: each maximal run of non-space
   * characters becomes one bare token, which ends at the space after it or at the end
   * of the line.
   */
  function PlainTokens(path: string, row: int, line: string, i: nat): seq<Token>
    requires i <= |line|
    decreases |line| - i
  {
    if i == |line| then []
    else if line[i] == ' ' then PlainTokens(path, row, line, i + 1)
    else
      var j := RunEnd(line, i);
      [Bare(path, row, line[i..j], j)] + PlainTokens(path, row, line, j)
  }

  lemma PlainTokensAtSpace(path: string, row: int, line: string, k: nat, i: nat)
    requires k <= i <= |line| && (i == |line| || line[i] == ' ')
    requires forall m :: k <= m < i ==> line[m] != ' '
    ensures k < i ==> PlainTokens(path, row, line, k) == [Bare(path, row, line[k..i], i)] + PlainTokens(path, row, line, i)
    ensures i == |line| ==> PlainTokens(path, row, line, i) == []
    ensures i < |line| ==> PlainTokens(path, row, line, i) == PlainTokens(path, row, line, i + 1)
  {
    if k < i {
      assert RunEnd(line, k) == i;
    }
  }

  /** A space outside literals ends the pending text, if any, as a bare token. */
  lemma LexFromAtSpace(d: Dialect, path: string, row: int, L: string, i: nat, cur: string, acc: seq<Token>)
    requires i < |L| && L[i] == ' ' && NoSeparator(d, cur)
    ensures LexFrom(d, path, row, L, i, LexState(cur, false, false), acc)
            == LexFrom(d, path, row, L, i + 1, Start, if cur != "" then acc + [Bare(path, row, cur, i)] else acc)
  {
  }

  /** Any other character outside literals is added to the pending text. */
  lemma LexFromPlainChar(d: Dialect, path: string, row: int, L: string, i: nat, cur: string, acc: seq<Token>)
    requires i < |L| && !Separator(d, L[i])
    ensures LexFrom(d, path, row, L, i, LexState(cur, false, false), acc)
            == LexFrom(d, path, row, L, i + 1, LexState(cur + [L[i]], false, false), acc)
  {
  }

  lemma PlainCharStep(d: Dialect, path: string, row: int, line: string, k: nat, i: nat, acc: seq<Token>)
    requires k <= i < |line| && PlainLine(d, line) && line[i] != ' '
    ensures LexFrom(d, path, row, line + " ", i, LexState(line[k..i], false, false), acc)
            == LexFrom(d, path, row, line + " ", i + 1, LexState(line[k..i + 1], false, false), acc)
  {
    var L := line + " ";
    assert L[i] == line[i] && !Separator(d, L[i]);
    assert line[k..i + 1] == line[k..i] + [L[i]];
    LexFromPlainChar(d, path, row, L, i, line[k..i], acc);
  }

  /** The space (or the appended space) after the run `line[k..i]`. */
  lemma PlainSpaceStep(d: Dialect, path: string, row: int, line: string, k: nat, i: nat, acc: seq<Token>)
    requires k <= i <= |line| && PlainLine(d, line) && (i == |line| || line[i] == ' ')
    requires forall m :: k <= m < i ==> line[m] != ' '
    ensures LexFrom(d, path, row, line + " ", i, LexState(line[k..i], false, false), acc)
            == LexFrom(d, path, row, line + " ", i + 1, Start,
                       if k < i then acc + [Bare(path, row, line[k..i], i)] else acc)
  {
    var L := line + " ";
    var cur := line[k..i];
    assert NoSeparator(d, cur) by {
      forall m | 0 <= m < |cur| ensures !Separator(d, cur[m]) {
        assert cur[m] == line[k + m];
      }
    }
    assert L[i] == ' ';
    assert cur != "" <==> k < i;
    LexFromAtSpace(d, path, row, L, i, cur, acc);
  }

  /** The reference tokens split at the space after a run. */
  lemma PlainTokensSplit(path: string, row: int, line: string, k: nat, i: nat, acc: seq<Token>)
    requires k <= i <= |line| && (i == |line| || line[i] == ' ')
    requires forall m :: k <= m < i ==> line[m] != ' '
    ensures acc + PlainTokens(path, row, line, k)
            == (if k < i then acc + [Bare(path, row, line[k..i], i)] else acc) + PlainTokens(path, row, line, i)
  {
    PlainTokensAtSpace(path, row, line, k, i);
    if k < i {
      ConcatAssoc(acc, Bare(path, row, line[k..i], i), PlainTokens(path, row, line, i));
    }
  }

  lemma ConcatAssoc(a: seq<Token>, t: Token, r: seq<Token>)
    ensures a + ([t] + r) == (a + [t]) + r
  {
  }

  /** One step of the loop, once the step's outcome is known. */
  lemma LexFromStep(d: Dialect, path: string, row: int, L: string, i: nat, st: LexState, acc: seq<Token>,
                    st': LexState, acc': seq<Token>)
    requires i < |L| && Step(d, path, row, i, L[i], st, acc) == Ok((st', acc'))
    ensures LexFrom(d, path, row, L, i, st, acc) == LexFrom(d, path, row, L, i + 1, st', acc')
  {
  }

  lemma {:induction false} LexPlainFrom(d: Dialect, path: string, row: int, line: string, k: nat, i: nat, acc: seq<Token>)
    requires k <= i <= |line| && PlainLine(d, line)
    requires forall m :: k <= m < i ==> line[m] != ' '
    ensures LexFrom(d, path, row, line + " ", i, LexState(line[k..i], false, false), acc)
            == Ok(acc + PlainTokens(path, row, line, k))
    decreases |line| - i, 1
  {
    if i == |line| || line[i] == ' ' {
      LexPlainAtSpace(d, path, row, line, k, i, acc);
    } else {
      PlainCharStep(d, path, row, line, k, i, acc);
      LexPlainFrom(d, path, row, line, k, i + 1, acc);
    }
  }

  lemma {:induction false} LexPlainAtSpace(d: Dialect, path: string, row: int, line: string, k: nat, i: nat, acc: seq<Token>)
    requires k <= i <= |line| && PlainLine(d, line)
    requires forall m :: k <= m < i ==> line[m] != ' '
    requires i == |line| || line[i] == ' '
    ensures LexFrom(d, path, row, line + " ", i, LexState(line[k..i], false, false), acc)
            == Ok(acc + PlainTokens(path, row, line, k))
    decreases |line| - i, 0
  {
    var acc' := if k < i then acc + [Bare(path, row, line[k..i], i)] else acc;
    PlainSpaceStep(d, path, row, line, k, i, acc);
    PlainTokensSplit(path, row, line, k, i, acc);
    if i == |line| {
      PlainLineEnd(d, path, row, line, acc');
    } else {
      LexPlainFromStart(d, path, row, line, i + 1, acc');
      PlainTokensAtSpace(path, row, line, i, i);
    }
  }

  lemma PlainLineEnd(d: Dialect, path: string, row: int, line: string, acc: seq<Token>)
    ensures LexFrom(d, path, row, line + " ", |line| + 1, Start, acc) == Ok(acc + PlainTokens(path, row, line, |line|))
  {
    assert acc + [] == acc;
  }

  lemma {:induction false} LexPlainFromStart(d: Dialect, path: string, row: int, line: string, i: nat, acc: seq<Token>)
    requires i <= |line| && PlainLine(d, line)
    ensures LexFrom(d, path, row, line + " ", i, Start, acc) == Ok(acc + PlainTokens(path, row, line, i))
    decreases |line| - i, 2
  {
    assert line[i..i] == "";
    assert LexState(line[i..i], false, false) == Start;
    LexPlainFrom(d, path, row, line, i, i, acc);
  }

  /** A line without quotes (nor apostrophes in wis.cpp) lexes to its space-separated runs. */
  lemma PlainLineTokens(d: Dialect, path: string, row: int, line: string)
    requires PlainLine(d, line)
    ensures LineTokens(d, path, row, line) == Ok(PlainTokens(path, row, line, 0))
  {
    assert line[0..0] == "";
    LexPlainFrom(d, path, row, line, 0, 0, []);
    assert [] + PlainTokens(path, row, line, 0) == PlainTokens(path, row, line, 0);
  }

  // ---------------------------------------------------------------------------------
  // String and character literals

  function TrimLeadingSpaces(s: string): (t: string)
    ensures |t| <= |s| && t == s[|s| - |t|..]
    ensures |t| > 0 ==> t[0] != ' '
  {
    if |s| > 0 && s[0] == ' ' then TrimLeadingSpaces(s[1..]) else s
  }

  lemma {:induction false} TrimLeadingSpacesSnoc(s: string, c: char)
    ensures TrimLeadingSpaces(s + [c])
            == if TrimLeadingSpaces(s) == "" && c == ' ' then "" else TrimLeadingSpaces(s) + [c]
    decreases |s|
  {
    if |s| > 0 && s[0] == ' ' {
      assert (s + [c])[1..] == s[1..] + [c];
      TrimLeadingSpacesSnoc(s[1..], c);
    } else if |s| == 0 {
      assert s + [c] == [c];
    }
  }

  /**
   * The text a string literal keeps: all of it in wis.cpp; in gollo.cpp a space is only
   * added to non-empty pending text, so the literal's leading spaces are lost.
   */
  function Content(d: Dialect, s: string): string
  {
    if d == Wis then s else TrimLeadingSpaces(s)
  }

  function LiteralToken(d: Dialect, path: string, row: int, text: string, j: int): Token
  {
    StringTok(Content(d, text), Loc(path, row, j - |Content(d, text)|))
  }

  /** Inside a string literal every character but the quote is added to the pending text. */
  lemma LexFromInString(d: Dialect, path: string, row: int, L: string, k: nat, cur: string, acc: seq<Token>)
    requires k < |L| && L[k] != '"'
    ensures LexFrom(d, path, row, L, k, LexState(cur, true, false), acc)
            == LexFrom(d, path, row, L, k + 1,
                       LexState(if d == Gollo && L[k] == ' ' && cur == "" then cur else cur + [L[k]], true, false), acc)
  {
  }

  /** The quote closing a string literal turns the pending text into a string token. */
  lemma LexFromStringClose(d: Dialect, path: string, row: int, L: string, k: nat, cur: string, acc: seq<Token>)
    requires k < |L| && L[k] == '"'
    ensures LexFrom(d, path, row, L, k, LexState(cur, true, false), acc)
            == LexFrom(d, path, row, L, k + 1, Start, acc + [StringTok(cur, Loc(path, row, k - |cur|))])
  {
  }

  lemma StringScanStep(d: Dialect, path: string, row: int, L: string, i: nat, k: nat, acc: seq<Token>)
    requires i < k < |L| && L[k] != '"'
    ensures LexFrom(d, path, row, L, k, LexState(Content(d, L[i + 1..k]), true, false), acc)
            == LexFrom(d, path, row, L, k + 1, LexState(Content(d, L[i + 1..k + 1]), true, false), acc)
  {
    var cur := Content(d, L[i + 1..k]);
    assert L[i + 1..k + 1] == L[i + 1..k] + [L[k]];
    if d == Gollo {
      TrimLeadingSpacesSnoc(L[i + 1..k], L[k]);
    }
    assert Content(d, L[i + 1..k + 1]) == if d == Gollo && L[k] == ' ' && cur == "" then cur else cur + [L[k]];
    LexFromInString(d, path, row, L, k, cur, acc);
  }

  lemma StringScanClose(d: Dialect, path: string, row: int, L: string, i: nat, j: nat, acc: seq<Token>)
    requires i < j < |L| && L[j] == '"'
    ensures LexFrom(d, path, row, L, j, LexState(Content(d, L[i + 1..j]), true, false), acc)
            == LexFrom(d, path, row, L, j + 1, Start, acc + [LiteralToken(d, path, row, L[i + 1..j], j)])
  {
    var cur := Content(d, L[i + 1..j]);
    assert LiteralToken(d, path, row, L[i + 1..j], j) == StringTok(cur, Loc(path, row, j - |cur|));
    LexFromStringClose(d, path, row, L, j, cur, acc);
  }

  lemma {:induction false} StringScan(d: Dialect, path: string, row: int, L: string, i: nat, k: nat, j: nat, acc: seq<Token>)
    requires i < k <= j < |L| && L[j] == '"'
    requires forall m :: i < m < j ==> L[m] != '"'
    ensures LexFrom(d, path, row, L, k, LexState(Content(d, L[i + 1..k]), true, false), acc)
            == LexFrom(d, path, row, L, j + 1, Start, acc + [LiteralToken(d, path, row, L[i + 1..j], j)])
    decreases j - k
  {
    if k < j {
      StringScanStep(d, path, row, L, i, k, acc);
      StringScan(d, path, row, L, i, k + 1, j, acc);
    } else {
      StringScanClose(d, path, row, L, i, j, acc);
    }
  }

  /**
   * A string literal opened by the quote at `i` runs to the next quote at `j`: one
   * string token for the text between them, then lexing resumes after the closing quote.
   * In wis.cpp its column is the 1-based column of the opening quote.
   */
  lemma StringLiteralToken(d: Dialect, path: string, row: int, L: string, i: nat, j: nat, acc: seq<Token>)
    requires i < j < |L| && L[i] == '"' && L[j] == '"'
    requires forall m :: i < m < j ==> L[m] != '"'
    ensures LexFrom(d, path, row, L, i, Start, acc)
            == LexFrom(d, path, row, L, j + 1, Start, acc + [LiteralToken(d, path, row, L[i + 1..j], j)])
    ensures d == Wis ==> LiteralToken(d, path, row, L[i + 1..j], j).loc.col == i + 1
  {
    assert TrimLeadingSpaces(L[i + 1..i + 1]) == "";
    StringScan(d, path, row, L, i, i + 1, j, acc);
  }

  lemma {:induction false} UnterminatedScan(d: Dialect, path: string, row: int, L: string, k: nat, cur: string, acc: seq<Token>)
    requires k <= |L|
    requires forall m :: k <= m < |L| ==> L[m] != '"'
    ensures LexFrom(d, path, row, L, k, LexState(cur, true, false), acc) == Ok(acc)
    decreases |L| - k
  {
    if k < |L| {
      var next := Step(d, path, row, k, L[k], LexState(cur, true, false), acc).value;
      UnterminatedScan(d, path, row, L, k + 1, next.0.cur, acc);
    }
  }

  /** A quote with no closing quote after it drops the rest of the line without an error. */
  lemma UnterminatedString(d: Dialect, path: string, row: int, L: string, i: nat, acc: seq<Token>)
    requires i < |L| && L[i] == '"'
    requires forall m :: i < m < |L| ==> L[m] != '"'
    ensures LexFrom(d, path, row, L, i, Start, acc) == Ok(acc)
  {
    UnterminatedScan(d, path, row, L, i + 1, "", acc);
  }

  /** What closing a character literal at `j`, opened at `i`, results in. */
  function CharClose(path: string, row: int, L: string, i: nat, j: nat, acc: seq<Token>): Result<seq<Token>, LexError>
    requires i < j < |L|
  {
    var text := L[i + 1..j];
    var loc := Loc(path, row, i + 1);
    match Unescaped(text)
    case None => Err(UnmodelledEscape(loc))
    case Some(u) =>
      if |u| != 1 then Err(CharLength(loc))
      else LexFrom(Wis, path, row, L, j + 1, Start, acc + [CharTok(text, loc)])
  }

  lemma {:induction false} CharScan(path: string, row: int, L: string, i: nat, k: nat, j: nat, acc: seq<Token>)
    requires i < k <= j < |L| && L[j] == '\''
    requires forall m :: i < m < j ==> L[m] != '\''
    ensures LexFrom(Wis, path, row, L, k, LexState(L[i + 1..k], false, true), acc) == CharClose(path, row, L, i, j, acc)
    decreases j - k
  {
    if k < j {
      assert L[i + 1..k + 1] == L[i + 1..k] + [L[k]];
      CharScan(path, row, L, i, k + 1, j, acc);
    }
  }

  /**
   * wis.cpp: an apostrophe opens a character literal that runs to the next apostrophe
   * (quotes inside it are plain text). It is accepted only when it unescapes to exactly
   * one character, and then becomes one character token at the column of the opening
   * apostrophe.
   */
  lemma CharLiteralToken(path: string, row: int, L: string, i: nat, j: nat, acc: seq<Token>)
    requires i < j < |L| && L[i] == '\'' && L[j] == '\''
    requires forall m :: i < m < j ==> L[m] != '\''
    ensures LexFrom(Wis, path, row, L, i, Start, acc) == CharClose(path, row, L, i, j, acc)
  {
    assert L[i + 1..i + 1] == "";
    CharScan(path, row, L, i, i + 1, j, acc);
  }

  // ---------------------------------------------------------------------------------
  // Whole files

  /** The code part of a line: everything before the first `//`. */
  function CodePart(line: string): string
  {
    Split(line, "//")[0]
  }

  /** `lex_file` after reading: line `k` (0-based) is lexed as row `k + 1`. */
  function FileTokensFrom(d: Dialect, path: string, lines: seq<string>, k: nat, acc: seq<Token>)
    : Result<seq<Token>, LexError>
    requires k <= |lines|
    decreases |lines| - k
  {
    if k == |lines| then Ok(acc)
    else
      match LineTokens(d, path, k + 1, CodePart(lines[k]))
      case Err(e) => Err(e)
      case Ok(ts) => FileTokensFrom(d, path, lines, k + 1, acc + ts)
  }

  function FileTokens(d: Dialect, path: string, lines: seq<string>): Result<seq<Token>, LexError>
  {
    FileTokensFrom(d, path, lines, 0, [])
  }

  /**
   * `lex_file`, given the lines `getline` delivers: each line loses its comment and is
   * lexed with its 1-based line number.
   */
  method LexFile(d: Dialect, path: string, lines: seq<string>) returns (r: Result<seq<Token>, LexError>)
    ensures r == FileTokens(d, path, lines)
  {
    var tokens: seq<Token> := [];
    var lineNumber := 1;
    var k := 0;
    while k < |lines|
      invariant 0 <= k <= |lines| && lineNumber == k + 1
      invariant FileTokensFrom(d, path, lines, k, tokens) == FileTokens(d, path, lines)
    {
      var parts := SplitString(lines[k], "//");
      var lineTokens := LexLine(d, path, lineNumber, parts[0]);
      if lineTokens.Err? {
        return Err(lineTokens.error);
      }
      tokens := tokens + lineTokens.value;
      lineNumber := lineNumber + 1;
      k := k + 1;
    }
    r := Ok(tokens);
  }

  /** The lexed part of a line is the text before its first `//`, which holds no `//`. */
  lemma CodePartIsBeforeComment(line: string)
    ensures Find(line, "//", 0).None? ==> CodePart(line) == line
    ensures Find(line, "//", 0).Some? ==> CodePart(line) == line[..Find(line, "//", 0).value]
    ensures !Contains(CodePart(line), "//")
  {
    SplitFirstPiece(line, "//");
    SplitPiecesLackDelimiter(line, "//");
  }

  predicate RowsOrdered(ts: seq<Token>)
  {
    forall a, b :: 0 <= a < b < |ts| ==> ts[a].loc.row <= ts[b].loc.row
  }

  lemma {:induction false} FileTokensFromPlaced(d: Dialect, path: string, lines: seq<string>, k: nat, acc: seq<Token>)
    requires k <= |lines| && RowsOrdered(acc)
    requires forall t :: t in acc ==> t.loc.file == path && 1 <= t.loc.row <= k
    requires FileTokensFrom(d, path, lines, k, acc).Ok?
    ensures RowsOrdered(FileTokensFrom(d, path, lines, k, acc).value)
    ensures forall t :: t in FileTokensFrom(d, path, lines, k, acc).value ==>
              t.loc.file == path && 1 <= t.loc.row <= |lines|
    decreases |lines| - k
  {
    if k < |lines| {
      var ts := LineTokens(d, path, k + 1, CodePart(lines[k])).value;
      LineTokensWellFormed(d, path, k + 1, CodePart(lines[k]));
      var acc' := acc + ts;
      assert forall a :: 0 <= a < |acc'| ==> acc'[a] in acc || acc'[a] in ts;
      FileTokensFromPlaced(d, path, lines, k + 1, acc');
    }
  }

  /** A file's tokens come in line order, each with the file's path and a row that exists. */
  lemma FileTokensPlaced(d: Dialect, path: string, lines: seq<string>)
    requires FileTokens(d, path, lines).Ok?
    ensures RowsOrdered(FileTokens(d, path, lines).value)
    ensures forall t :: t in FileTokens(d, path, lines).value ==> t.loc.file == path && 1 <= t.loc.row <= |lines|
  {
    FileTokensFromPlaced(d, path, lines, 0, []);
  }
}
