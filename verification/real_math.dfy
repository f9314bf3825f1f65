/** `Math.min`, `Math.max` and the clamp built from them, on reals. */
module RealMath {

  function MinR(a: real, b: real): real {
    if a <= b then a else b
  }

  function MaxR(a: real, b: real): real {
    if a >= b then a else b
  }

  /** `v` pulled into [lo, hi]: `Math.min(Math.max(v, lo), hi)`, which for `lo <= hi` is the
      same as `Math.max(lo, Math.min(hi, v))`. */
  function Clamp(v: real, lo: real, hi: real): (c: real)
    requires lo <= hi
    ensures lo <= c <= hi
    ensures lo <= v <= hi ==> c == v
    ensures v < lo ==> c == lo
    ensures hi < v ==> c == hi
  {
    MinR(MaxR(v, lo), hi)
  }
}
