/**
 * `slice.Chop` of the Go rewrite (pkg/slice/slice.go): the first element of a slice and the
 * slice of the others. The prototype main.go carries the same function, for strings, as `chop`.
 */
module GoSlice {
  import opened Wrappers

  /** The panic `can't chop`. */
  datatype ChopError = CantChop

  /** An empty slice panics; otherwise the head and the tail, which together make up the slice. */
  function Chop<T>(arr: seq<T>): (r: Result<(T, seq<T>), ChopError>)
    ensures r.Err? <==> |arr| == 0
    ensures r.Ok? ==> r.value.0 == arr[0] && |r.value.1| == |arr| - 1 && [r.value.0] + r.value.1 == arr
  {
    if |arr| == 0 then Err(CantChop) else Ok((arr[0], arr[1..]))
  }
}
