/**
 * The string helpers of the C++ compilers (wis.cpp; gollo.cpp carries identical copies
 * of all but `get_file_extension`): file extensions, vector shifting, splitting,
 * trimming, unescaping, integer parsing.
 */
module WisText {
  import opened Wrappers
  import opened Decimal
  import opened Strings

  /** `get_file_extension`: the text after the last dot, or nothing when there is no dot. */
  function GetFileExtension(filename: string): (ext: string)
    ensures '.' !in ext
    ensures '.' !in filename ==> ext == ""
    ensures '.' in filename ==>
              |ext| < |filename| && filename == filename[..|filename| - |ext| - 1] + "." + ext
  {
    match LastIndexOf(filename, '.')
    case None => ""
    case Some(p) => filename[p + 1..]
  }

  datatype TextError = EmptyVector

  /**
   * `shift_vector`: the first element and the vector without it. The source updates
   * its argument in place; here the shortened vector is returned beside the element.
   */
  function ShiftVector(vec: seq<string>): (r: Result<(string, seq<string>), TextError>)
    ensures r.Err? <==> |vec| == 0
    ensures r.Ok? ==> [r.value.0] + r.value.1 == vec
  {
    if |vec| == 0 then Err(EmptyVector) else Ok((vec[0], vec[1..]))
  }

  /**
   * `split_string`: pushes the piece before each occurrence of the delimiter, then the
   * remainder. An empty delimiter would make the source loop forever, so it is excluded.
   */
  method SplitString(input: string, delimiter: string) returns (result: seq<string>)
    requires |delimiter| > 0
    ensures result == Split(input, delimiter)
  {
    result := [];
    var start := 0;
    var end := Find(input, delimiter, 0);
    while end.Some?
      invariant start <= |input|
      invariant end == Find(input, delimiter, start)
      invariant result + SplitFrom(input, delimiter, start) == Split(input, delimiter)
      decreases |input| - start
    {
      result := result + [input[start..end.value]];
      start := end.value + |delimiter|;
      end := Find(input, delimiter, start);
    }
    result := result + [input[start..]];
  }

  /**
   * `trim_string`: erases the first occurrence of `substring`. Putting the erased text
   * back at the position of that occurrence restores the input.
   */
  function TrimString(s: string, substring: string): (r: string)
    ensures Find(s, substring, 0).None? ==> r == s
    ensures Find(s, substring, 0).Some? ==>
              var p := Find(s, substring, 0).value;
              |r| == |s| - |substring| && p <= |r| && r[..p] + substring + r[p..] == s
  {
    match Find(s, substring, 0)
    case None => s
    case Some(p) => s[..p] + s[p + |substring|..]
  }

  /** The single-character escapes `unescape_string` recognises after a backslash. */
  function SimpleEscape(c: char): Option<char>
  {
    match c
    case 'a' => Some(7 as char)
    case 'b' => Some(8 as char)
    case 'f' => Some(12 as char)
    case 'n' => Some(10 as char)
    case 'r' => Some(13 as char)
    case 't' => Some(9 as char)
    case 'v' => Some(11 as char)
    case '\\' => Some('\\')
    case '\'' => Some('\'')
    case '"' => Some('"')
    case '?' => Some('?')
    case '0' => Some(0 as char)
    case _ => None
  }

  /** A backslash followed by a digit 1-9 or by `x`/`X` starts an octal or hex escape. */
  predicate IsNumericEscape(c: char)
  {
    SimpleEscape(c).None? && (IsDigit(c) || c == 'x' || c == 'X')
  }

  function Prepend(prefix: string, rest: Option<string>): Option<string>
  {
    match rest
    case None => None
    case Some(t) => Some(prefix + t)
  }

  /**
   * What `unescape_string` produces. `None` stands for output the model leaves
   * unspecified: the text holds an octal or hex escape, whose bytes the source computes
   * by reading back from the half-built output stream.
   */
  function Unescaped(s: string): (r: Option<string>)
    ensures r.Some? ==> |r.value| <= |s|
    decreases |s|
  {
    if |s| == 0 then Some("")
    else if s[0] == '\\' && |s| >= 2 then
      match SimpleEscape(s[1])
      case Some(e) => Prepend([e], Unescaped(s[2..]))
      case None =>
        if IsNumericEscape(s[1]) then None else Prepend(s[..2], Unescaped(s[2..]))
    else Prepend([s[0]], Unescaped(s[1..]))
  }

  lemma PrependEmpty(o: Option<string>)
    ensures Prepend("", o) == o
  {
    if o.Some? {
      assert "" + o.value == o.value;
    }
  }

  lemma PrependPrepend(a: string, b: string, o: Option<string>)
    ensures Prepend(a, Prepend(b, o)) == Prepend(a + b, o)
  {
    if o.Some? {
      assert a + (b + o.value) == (a + b) + o.value;
    }
  }

  /** `unescape_string`: the loop over the characters, one escape pair at a time. */
  method UnescapeString(s: string) returns (r: Option<string>)
    ensures r == Unescaped(s)
  {
    var out := "";
    var i := 0;
    assert s[0..] == s;
    PrependEmpty(Unescaped(s));
    while i < |s|
      invariant 0 <= i <= |s|
      invariant Unescaped(s) == Prepend(out, Unescaped(s[i..]))
    {
      var u := s[i..];
      assert u[0] == s[i] && u[1..] == s[i + 1..];
      if s[i] == '\\' && i + 1 < |s| {
        assert u[1] == s[i + 1] && u[2..] == s[i + 2..];
        assert u[..2] == [s[i], s[i + 1]];
        var e := SimpleEscape(s[i + 1]);
        if e.Some? {
          PrependPrepend(out, [e.value], Unescaped(s[i + 2..]));
          out := out + [e.value];
        } else if IsNumericEscape(s[i + 1]) {
          assert Unescaped(u) == None;
          return None;
        } else {
          PrependPrepend(out, [s[i], s[i + 1]], Unescaped(s[i + 2..]));
          out := out + [s[i], s[i + 1]];
        }
        i := i + 2;
      } else {
        PrependPrepend(out, [s[i]], Unescaped(s[i + 1..]));
        out := out + [s[i]];
        i := i + 1;
      }
    }
    assert s[i..] == "" && out + "" == out;
    r := Some(out);
  }

  /** Text without a backslash comes out of unescaping unchanged. */
  lemma {:induction false} UnescapedWithoutBackslash(s: string)
    requires '\\' !in s
    ensures Unescaped(s) == Some(s)
    decreases |s|
  {
    if |s| > 0 {
      assert s[0] != '\\' by {
        assert s[0] in s;
      }
      assert '\\' !in s[1..] by {
        assert forall k :: 0 <= k < |s| - 1 ==> s[1..][k] == s[k + 1];
      }
      UnescapedWithoutBackslash(s[1..]);
      assert [s[0]] + s[1..] == s;
    }
  }

  /** The escaping a program text would need so that unescaping yields `c`. */
  function EscapeChar(c: char): string
  {
    if c == '\\' then "\\\\"
    else if c == 7 as char then "\\a"
    else if c == 8 as char then "\\b"
    else if c == 12 as char then "\\f"
    else if c == 10 as char then "\\n"
    else if c == 13 as char then "\\r"
    else if c == 9 as char then "\\t"
    else if c == 11 as char then "\\v"
    else if c == 0 as char then "\\0"
    else [c]
  }

  function EscapeString(t: string): string
  {
    if |t| == 0 then "" else EscapeChar(t[0]) + EscapeString(t[1..])
  }

  /**
   * Unescaping inverts escaping, on every string. This is about the escape table only: the
   * lexer ends a literal at the next quote, so a string holding `"` still has no literal.
   */
  lemma {:induction false} UnescapedEscapeString(t: string)
    ensures Unescaped(EscapeString(t)) == Some(t)
    decreases |t|
  {
    if |t| > 0 {
      var e := EscapeChar(t[0]);
      var s := e + EscapeString(t[1..]);
      UnescapedEscapeString(t[1..]);
      if |e| == 2 {
        assert s[2..] == EscapeString(t[1..]);
      } else {
        assert s[1..] == EscapeString(t[1..]);
      }
      assert t == [t[0]] + t[1..];
    }
  }

  const INT_MIN: int := -0x8000_0000
  const INT_MAX: int := 0x7fff_ffff

  /** The white space `operator>>` skips before a number (`isspace` in the C locale). */
  predicate IsCSpace(c: char)
  {
    c == ' ' || c == 9 as char || c == 10 as char || c == 11 as char || c == 12 as char || c == 13 as char
  }

  function DropCSpace(s: string): string
  {
    if |s| > 0 && IsCSpace(s[0]) then DropCSpace(s[1..]) else s
  }

  /**
   * `string_to_int`: `istringstream >> int` followed by the check that nothing is left.
   * After optional leading white space and one optional sign, the rest must be decimal
   * digits whose value fits a 32-bit `int`.
   */
  function StringToInt(str: string): (r: Option<int>)
    ensures r.Some? ==> INT_MIN <= r.value <= INT_MAX
  {
    var t := DropCSpace(str);
    var signed := |t| > 0 && (t[0] == '-' || t[0] == '+');
    var digits := if signed then t[1..] else t;
    if |digits| == 0 || !AllDigits(digits) then None
    else
      var v := if signed && t[0] == '-' then -(DigitsValue(digits) as int) else DigitsValue(digits);
      if INT_MIN <= v <= INT_MAX then Some(v) else None
  }

  /** The decimal spelling of every 32-bit value is read back as that value. */
  lemma StringToIntOfIntToString(x: int)
    requires INT_MIN <= x <= INT_MAX
    ensures StringToInt(IntToString(x)) == Some(x)
  {
    var s := IntToString(x);
    assert !IsCSpace(s[0]);
    assert DropCSpace(s) == s;
    if x < 0 {
      var n: nat := -x;
      var digits := NatToString(n);
      assert s == "-" + digits;
      assert s[1..] == digits;
      DigitsValueOfNatToString(n);
      assert -(DigitsValue(digits) as int) == x;
    } else {
      assert s == NatToString(x);
      assert IsDigit(s[0]);
      DigitsValueOfNatToString(x);
    }
  }
}
