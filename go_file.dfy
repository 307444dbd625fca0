/**
 * The path helpers of the Go rewrite (pkg/file/file.go): `GetExtension` and `GetName`, built
 * on `filepath.Base`, `filepath.Ext` and `strings.TrimSuffix` of Go's standard library on a
 * system whose path separator is `/`.
 */
module GoFile {
  import opened Wrappers
  import opened Strings

  /** The path without its trailing `/`s, the first thing `filepath.Base` does. */
  function TrimTrailingSlashes(p: string): (r: string)
    ensures |r| <= |p| && r == p[..|r|]
    ensures |r| > 0 ==> r[|r| - 1] != '/'
    ensures forall k :: |r| <= k < |p| ==> p[k] == '/'
  {
    if |p| > 0 && p[|p| - 1] == '/' then TrimTrailingSlashes(p[..|p| - 1]) else p
  }

  /** The index at which the last element of `p` starts: just after its last `/`, or 0. */
  function ElementStart(p: string): (i: nat)
    ensures i <= |p|
    ensures forall k :: i <= k < |p| ==> p[k] != '/'
  {
    match LastIndexOf(p, '/')
    case None => 0
    case Some(k) => k + 1
  }

  /** `filepath.Base`: the last element; "." for the empty path, "/" for a path of slashes only. */
  function Base(path: string): (b: string)
    ensures |b| > 0
  {
    if path == "" then "."
    else
      var t := TrimTrailingSlashes(path);
      var e := t[ElementStart(t)..];
      if e == "" then "/" else e
  }

  /** The loop of `filepath.Ext` over the characters before index `i`, from the right. */
  function ExtBefore(path: string, i: nat): string
    requires i <= |path|
    decreases i
  {
    if i == 0 || path[i - 1] == '/' then ""
    else if path[i - 1] == '.' then path[i - 1..]
    else ExtBefore(path, i - 1)
  }

  /** `filepath.Ext`: the suffix from the last `.` of the last element, or "" when it has none. */
  function Ext(path: string): string
  {
    ExtBefore(path, |path|)
  }

  /** `strings.TrimSuffix`. */
  function TrimSuffix(s: string, suffix: string): string
  {
    if |suffix| <= |s| && s[|s| - |suffix|..] == suffix then s[..|s| - |suffix|] else s
  }

  /** `GetExtension`: the extension of the last element of the path. */
  function GetExtension(path: string): string
  {
    Ext(Base(path))
  }

  /** `GetName`: the path with that extension trimmed from its end. */
  function GetName(path: string): string
  {
    TrimSuffix(path, Ext(Base(path)))
  }

  /**
   * What `ExtBefore` finds: nothing when no `.` comes between index `i` and the last `/`
   * before it, otherwise the suffix of `path` that starts at the last such `.`.
   */
  lemma {:induction false} ExtBeforeShape(path: string, i: nat)
    requires i <= |path|
    ensures var r := ExtBefore(path, i);
            (r == "" <==> forall k :: ElementFrom(path, i) <= k < i ==> path[k] != '.')
            && (r != "" ==> |path| - i + 1 <= |r| <= |path| && r == path[|path| - |r|..]
                            && r[0] == '.' && ElementFrom(path, i) <= |path| - |r| < i
                            && forall k :: |path| - |r| < k < i ==> path[k] != '.' && path[k] != '/')
    decreases i
  {
    if i > 0 && path[i - 1] != '/' && path[i - 1] != '.' {
      ExtBeforeShape(path, i - 1);
    }
  }

  /** The start of the run of non-`/` characters that ends just before index `i`. */
  function ElementFrom(path: string, i: nat): (j: nat)
    requires i <= |path|
    ensures j <= i
    ensures forall k :: j <= k < i ==> path[k] != '/'
    ensures j > 0 ==> path[j - 1] == '/'
    decreases i
  {
    if i == 0 || path[i - 1] == '/' then i else ElementFrom(path, i - 1)
  }

  /** A string holding no `/` is its own last element. */
  lemma {:induction false} ElementFromWhole(path: string, i: nat)
    requires i <= |path|
    requires forall k :: 0 <= k < i ==> path[k] != '/'
    ensures ElementFrom(path, i) == 0
    decreases i
  {
    if i > 0 {
      ElementFromWhole(path, i - 1);
    }
  }

  /** The last element of a path holds no `/`, unless it is the root `/` itself. */
  lemma BaseShape(path: string)
    ensures Base(path) == "/" || forall k :: 0 <= k < |Base(path)| ==> Base(path)[k] != '/'
    ensures path != "" && path[|path| - 1] != '/' ==>
              |Base(path)| <= |path| && Base(path) == path[|path| - |Base(path)|..]
  {
    if path != "" {
      var t := TrimTrailingSlashes(path);
      var e := t[ElementStart(t)..];
      assert forall k :: 0 <= k < |e| ==> e[k] == t[ElementStart(t) + k];
      if path[|path| - 1] != '/' {
        assert t == path;
      }
    }
  }

  /** The extension of an element: empty without a `.`, else from its last `.`, with no `/` in it. */
  lemma ExtOfElement(b: string)
    requires b == "/" || forall k :: 0 <= k < |b| ==> b[k] != '/'
    ensures var ext := Ext(b);
            && (ext != "" ==> ext[0] == '.' && forall k :: 1 <= k < |ext| ==> ext[k] != '.' && ext[k] != '/')
            && (ext == "" <==> '.' !in b)
            && |ext| <= |b| && ext == b[|b| - |ext|..]
  {
    var ext := Ext(b);
    if b == "/" {
      assert ext == "";
    } else {
      ExtBeforeShape(b, |b|);
      ElementFromWhole(b, |b|);
      if ext != "" {
        assert forall k :: 1 <= k < |ext| ==> ext[k] == b[|b| - |ext| + k];
      } else {
        assert forall k :: 0 <= k < |b| ==> b[k] != '.';
      }
    }
  }

  /**
   * A non-empty extension starts with `.` and holds no other `.` and no `/`; it is empty
   * exactly when the last element has no `.`; and it is a suffix of that element.
   */
  lemma GetExtensionShape(path: string)
    ensures var ext, b := GetExtension(path), Base(path);
            && (ext != "" ==> ext[0] == '.' && forall k :: 1 <= k < |ext| ==> ext[k] != '.' && ext[k] != '/')
            && (ext == "" <==> '.' !in b)
            && |ext| <= |b| && ext == b[|b| - |ext|..]
  {
    BaseShape(path);
    ExtOfElement(Base(path));
  }

  /** `GetName` removes the extension when the path ends with it, and otherwise changes nothing. */
  lemma GetNameTrims(path: string)
    ensures var ext := GetExtension(path);
            && (|ext| <= |path| && path[|path| - |ext|..] == ext ==> GetName(path) == path[..|path| - |ext|])
            && (!(|ext| <= |path| && path[|path| - |ext|..] == ext) ==> GetName(path) == path)
  {
  }

  /** For a non-empty path not ending in `/`, the name and the extension put back together give the path. */
  lemma NameThenExtension(path: string)
    requires path != "" && path[|path| - 1] != '/'
    ensures GetName(path) + GetExtension(path) == path
  {
    BaseShape(path);
    GetExtensionShape(path);
    TrimNestedSuffix(path, Base(path), GetExtension(path));
  }

  /** Trimming a suffix of a suffix, then putting it back, gives the string. */
  lemma TrimNestedSuffix(s: string, b: string, ext: string)
    requires |b| <= |s| && b == s[|s| - |b|..]
    requires |ext| <= |b| && ext == b[|b| - |ext|..]
    ensures TrimSuffix(s, ext) + ext == s
  {
    var cut := |s| - |ext|;
    assert s[|s| - |b|..][|b| - |ext|..] == s[cut..];
    assert s[..cut] + s[cut..] == s;
  }
}
