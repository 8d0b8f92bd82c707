/** Slices as Python cuts them. */
module PythonSlices {

  /** A bound of a slice: a negative one counts from the end. */
  function Bound(i: int, n: nat): (b: nat)
    ensures b <= n
  {
    if i < 0 then (if n + i < 0 then 0 else n + i) else if i > n then n else i
  }

  /** `s[start:stop]`. */
  function SliceOf<T>(s: seq<T>, start: int, stop: int): seq<T> {
    var a, b := Bound(start, |s|), Bound(stop, |s|);
    if a <= b then s[a..b] else []
  }
}
