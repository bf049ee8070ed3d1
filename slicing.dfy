/** Python's slicing of lists and arrays for non-negative bounds. */
module Slicing {

  function Min(a: int, b: int): int { if a <= b then a else b }

  /** `s[lo:hi]` in Python: both bounds are clamped to `|s|`, and the slice
      is empty when `hi <= lo`. */
  function Slice<T>(s: seq<T>, lo: nat, hi: nat): (r: seq<T>)
    ensures |r| == if lo < hi && lo < |s| then Min(hi, |s|) - lo else 0
    ensures forall k :: 0 <= k < |r| ==> r[k] == s[lo + k]
  {
    if lo < hi && lo < |s| then s[lo..Min(hi, |s|)] else []
  }
}
