/**
 * Source locations. Both toolchains render a location as `path:row:col`
 * (`location_view` in the C++ compilers, `fmt.Sprintf("%s:%d:%d", …)` in the Go lexer);
 * the model keeps the three parts and renders them on demand.
 */
module Location {
  import opened Decimal
  import opened Strings

  datatype Loc = Loc(file: string, row: int, col: int)

  /** `location_view(filepath, row, col)`. */
  function LocationView(filepath: string, row: int, col: int): (s: string)
    ensures |s| > |filepath| && s[..|filepath|] == filepath && s[|filepath|] == ':'
  {
    filepath + ":" + IntToString(row) + ":" + IntToString(col)
  }

  function View(l: Loc): string
  {
    LocationView(l.file, l.row, l.col)
  }

  /** If `x + [c] + y == x' + [c] + y'` and neither tail holds `c`, both halves agree. */
  lemma SplitAtLastSeparator(x: string, y: string, x': string, y': string, c: char)
    requires x + [c] + y == x' + [c] + y'
    requires c !in y && c !in y'
    ensures x == x' && y == y'
  {
    var s := x + [c] + y;
    LastIndexOfSeparator(x, y, c);
    LastIndexOfSeparator(x', y', c);
    assert x == s[..|x|];
    assert x' == s[..|x'|];
    assert y == s[|x| + 1..];
    assert y' == s[|x'| + 1..];
  }

  lemma NoColonInDecimal(x: int)
    ensures ':' !in IntToString(x)
  {
  }

  /**
   * The rendering loses nothing: the path may itself hold colons, but the row and the
   * column can be read back from the last two separators, so different locations
   * always render differently.
   */
  lemma LocationViewInjective(f: string, r: int, c: int, f': string, r': int, c': int)
    requires LocationView(f, r, c) == LocationView(f', r', c')
    ensures f == f' && r == r' && c == c'
  {
    NoColonInDecimal(r);
    NoColonInDecimal(c);
    NoColonInDecimal(r');
    NoColonInDecimal(c');
    assert (f + ":" + IntToString(r)) + [':'] + IntToString(c) == LocationView(f, r, c);
    assert (f' + ":" + IntToString(r')) + [':'] + IntToString(c') == LocationView(f', r', c');
    SplitAtLastSeparator(f + ":" + IntToString(r), IntToString(c), f' + ":" + IntToString(r'), IntToString(c'), ':');
    assert f + [':'] + IntToString(r) == f + ":" + IntToString(r);
    assert f' + [':'] + IntToString(r') == f' + ":" + IntToString(r');
    SplitAtLastSeparator(f, IntToString(r), f', IntToString(r'), ':');
    IntToStringInjective(r, r');
    IntToStringInjective(c, c');
  }
}
