/** Small numeric helpers shared by every integrator model: an optional value,
    the absolute value, and the truncating real-to-integer casts of Python's
    `int(x)` and C#'s `(int)x`. */
module Numerics {

  datatype Option<T> = None | Some(value: T)

  function Abs(x: real): (r: real)
    ensures r >= 0.0
    ensures r == x || r == -x
  {
    if x < 0.0 then -x else x
  }

  /** Truncation toward zero, as Python's `int(x)` and C#'s `(int)x` do for a finite value. */
  function Trunc(x: real): (r: int)
    ensures 0.0 <= x ==> 0 <= r && r as real <= x < r as real + 1.0
    ensures x < 0.0 ==> r <= 0 && r as real - 1.0 < x <= r as real
  {
    if x >= 0.0 then x.Floor else -((-x).Floor)
  }

  /** Python indexing of a list: negative indices count from the end. */
  predicate Indexable<T>(s: seq<T>, idx: int) {
    -|s| <= idx < |s|
  }

  /** Every index Python accepts reads the entry at that index modulo the length. */
  function PyAt<T>(s: seq<T>, idx: int): (r: T)
    requires Indexable(s, idx)
    ensures r == s[idx % |s|]
  {
    if idx >= 0 then s[idx] else s[|s| + idx]
  }

  /** numpy's `clip(x, lo, hi)`: `min(max(x, lo), hi)`. */
  function Clip(x: real, lo: real, hi: real): (r: real)
    requires lo <= hi
    ensures lo <= r <= hi
    ensures lo <= x <= hi ==> r == x
    ensures x < lo ==> r == lo
    ensures hi < x ==> r == hi
  {
    if x < lo then lo else if hi < x then hi else x
  }
}
