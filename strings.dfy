/**
 * Substring search and splitting on a delimiter, with the meaning shared by the C++
 * `std::string::find` / `split_string` pair and Go's `strings.Split`.
 */
module Strings {
  import opened Wrappers

  /** `sub` occurs in `s` starting at index `k`. */
  predicate OccursAt(s: string, sub: string, k: int)
  {
    0 <= k && k + |sub| <= |s| && s[k..k + |sub|] == sub
  }

  predicate Contains(s: string, sub: string)
  {
    exists k :: 0 <= k <= |s| && OccursAt(s, sub, k)
  }

  /** `s.find(sub, from)`: the first occurrence at or after `from`, if any. */
  function Find(s: string, sub: string, from: nat): (r: Option<nat>)
    requires from <= |s|
    ensures r.Some? ==> from <= r.value && OccursAt(s, sub, r.value)
    ensures r.Some? ==> forall k :: from <= k < r.value ==> !OccursAt(s, sub, k)
    ensures r.None? ==> forall k :: from <= k ==> !OccursAt(s, sub, k)
    decreases |s| - from
  {
    if OccursAt(s, sub, from) then Some(from)
    else if from == |s| then None
    else Find(s, sub, from + 1)
  }

  /** The pieces of `s[start..]` between occurrences of `d`, scanning left to right. */
  function SplitFrom(s: string, d: string, start: nat): (parts: seq<string>)
    requires |d| > 0 && start <= |s|
    ensures |parts| >= 1
    decreases |s| - start
  {
    match Find(s, d, start)
    case None => [s[start..]]
    case Some(e) => [s[start..e]] + SplitFrom(s, d, e + |d|)
  }

  function Split(s: string, d: string): (parts: seq<string>)
    requires |d| > 0
    ensures |parts| >= 1
  {
    SplitFrom(s, d, 0)
  }

  /** The inverse of splitting: the pieces glued back together with the delimiter. */
  function Join(parts: seq<string>, d: string): string
  {
    if |parts| == 0 then "" else if |parts| == 1 then parts[0] else parts[0] + d + Join(parts[1..], d)
  }

  lemma {:induction false} JoinSplitFrom(s: string, d: string, start: nat)
    requires |d| > 0 && start <= |s|
    ensures Join(SplitFrom(s, d, start), d) == s[start..]
    decreases |s| - start
  {
    match Find(s, d, start)
    case None =>
    case Some(e) =>
      var rest := SplitFrom(s, d, e + |d|);
      JoinSplitFrom(s, d, e + |d|);
      JoinCons(s[start..e], rest, d);
      GlueAround(s, start, e, d);
  }

  /** A piece, the delimiter found after it, and the text after that make up the text from the piece on. */
  lemma GlueAround(s: string, start: nat, e: nat, d: string)
    requires start <= e && OccursAt(s, d, e)
    ensures s[start..e] + d + s[e + |d|..] == s[start..]
  {
    assert s[start..] == s[start..e] + s[e..e + |d|] + s[e + |d|..];
  }

  lemma JoinCons(p: string, rest: seq<string>, d: string)
    requires |rest| >= 1
    ensures Join([p] + rest, d) == p + d + Join(rest, d)
  {
    assert ([p] + rest)[1..] == rest;
  }

  /** Splitting and joining again gives back the original text. */
  lemma JoinSplit(s: string, d: string)
    requires |d| > 0
    ensures Join(Split(s, d), d) == s
  {
    JoinSplitFrom(s, d, 0);
  }

  lemma {:induction false} SplitFromPiecesLackDelimiter(s: string, d: string, start: nat)
    requires |d| > 0 && start <= |s|
    ensures forall p :: p in SplitFrom(s, d, start) ==> !Contains(p, d)
    decreases |s| - start
  {
    match Find(s, d, start)
    case None =>
      forall m | OccursAt(s[start..], d, m)
        ensures false
      {
        assert s[start..][m..m + |d|] == s[start + m..start + m + |d|];
        assert OccursAt(s, d, start + m);
      }
    case Some(e) =>
      SplitFromPiecesLackDelimiter(s, d, e + |d|);
      forall m | OccursAt(s[start..e], d, m)
        ensures false
      {
        assert s[start..e][m..m + |d|] == s[start + m..start + m + |d|];
        assert OccursAt(s, d, start + m);
      }
  }

  /** No piece of a split contains the delimiter. */
  lemma SplitPiecesLackDelimiter(s: string, d: string)
    requires |d| > 0
    ensures forall p :: p in Split(s, d) ==> !Contains(p, d)
  {
    SplitFromPiecesLackDelimiter(s, d, 0);
  }

  /** The first piece is the text before the first occurrence of the delimiter. */
  lemma SplitFirstPiece(s: string, d: string)
    requires |d| > 0
    ensures Find(s, d, 0).None? ==> Split(s, d)[0] == s
    ensures Find(s, d, 0).Some? ==> Split(s, d)[0] == s[..Find(s, d, 0).value]
  {
  }

  /** `find_last_of(c)`: the last index holding `c`, if any. */
  function LastIndexOf(s: string, c: char): (r: Option<nat>)
    ensures r.Some? ==> r.value < |s| && s[r.value] == c
    ensures r.Some? ==> forall k :: r.value < k < |s| ==> s[k] != c
    ensures r.None? ==> forall k :: 0 <= k < |s| ==> s[k] != c
  {
    if |s| == 0 then None
    else if s[|s| - 1] == c then Some(|s| - 1)
    else LastIndexOf(s[..|s| - 1], c)
  }

  lemma {:induction false} LastIndexOfSeparator(x: string, y: string, c: char)
    requires c !in y
    ensures LastIndexOf(x + [c] + y, c) == Some(|x|)
    decreases |y|
  {
    var s := x + [c] + y;
    if y == [] {
      assert s[|s| - 1] == c;
    } else {
      var y' := y[..|y| - 1];
      assert y[|y| - 1] in y;
      assert s[|s| - 1] == y[|y| - 1] != c;
      assert s[..|s| - 1] == x + [c] + y';
      assert forall k :: 0 <= k < |y'| ==> y'[k] == y[k];
      LastIndexOfSeparator(x, y', c);
    }
  }
}
