/**
 * The scanning helpers of Go's `strings` package the toolchain relies on, over characters
 * taken one by one (a Go string is scanned rune by rune).
 */
module GoStrings {
  /** The first index at or after `start` whose character satisfies `pred`, or `|s|` if none does. */
  function FirstFrom(s: string, start: nat, pred: char -> bool): (c: nat)
    requires start <= |s|
    ensures start <= c <= |s|
    ensures c < |s| ==> pred(s[c])
    decreases |s| - start
  {
    if start == |s| then |s|
    else if pred(s[start]) then start
    else FirstFrom(s, start + 1, pred)
  }

  /** No character between `start` and the index found satisfies `pred`: it is the first. */
  lemma {:induction false} FirstFromIsFirst(s: string, start: nat, pred: char -> bool)
    requires start <= |s|
    ensures forall k :: start <= k < FirstFrom(s, start, pred) ==> !pred(s[k])
    decreases |s| - start
  {
    if start < |s| && !pred(s[start]) {
      FirstFromIsFirst(s, start + 1, pred);
    }
  }

  /** The maximal runs of `s[i..]` free of separator characters, left to right. */
  function FieldsFrom(s: string, sep: char -> bool, i: nat): seq<string>
    requires i <= |s|
    decreases |s| - i
  {
    if i == |s| then []
    else if sep(s[i]) then FieldsFrom(s, sep, i + 1)
    else
      var j := FirstFrom(s, i, sep);
      [s[i..j]] + FieldsFrom(s, sep, j)
  }

  /** `strings.FieldsFunc(s, sep)`: the pieces between runs of separators, empty ones dropped. */
  function Fields(s: string, sep: char -> bool): seq<string>
  {
    FieldsFrom(s, sep, 0)
  }

  /** Separators before the next field are skipped. */
  lemma {:induction false} FieldsFromSkip(s: string, sep: char -> bool, i: nat, j: nat)
    requires i <= j <= |s|
    requires forall k :: i <= k < j ==> sep(s[k])
    ensures FieldsFrom(s, sep, i) == FieldsFrom(s, sep, j)
    decreases j - i
  {
    if i < j {
      FieldsFromSkip(s, sep, i + 1, j);
    }
  }

  lemma {:induction false} FieldsFromShape(s: string, sep: char -> bool, i: nat)
    requires i <= |s|
    ensures forall f :: f in FieldsFrom(s, sep, i) ==> |f| > 0 && forall k :: 0 <= k < |f| ==> !sep(f[k])
    decreases |s| - i
  {
    if i < |s| {
      if sep(s[i]) {
        FieldsFromShape(s, sep, i + 1);
      } else {
        var j := FirstFrom(s, i, sep);
        FirstFromIsFirst(s, i, sep);
        FieldsFromShape(s, sep, j);
        var f := s[i..j];
        assert forall k :: 0 <= k < |f| ==> f[k] == s[i + k];
      }
    }
  }

  /** Every field is non-empty and holds no separator. */
  lemma FieldsShape(s: string, sep: char -> bool)
    ensures forall f :: f in Fields(s, sep) ==> |f| > 0 && forall k :: 0 <= k < |f| ==> !sep(f[k])
  {
    FieldsFromShape(s, sep, 0);
  }
}
