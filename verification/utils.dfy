/** Small numeric helpers of the editor (src/logic/autotrixel/utils.js). */
module Utils {

  /** `Math.min(Math.max(value, min), max)`. Every caller passes integers (brush sizes, zoom). */
  function Clamp(v: int, lo: int, hi: int): (r: int)
    ensures lo <= hi ==> lo <= r <= hi
    ensures lo <= v <= hi ==> r == v
    ensures v < lo && lo <= hi ==> r == lo
    ensures v > hi ==> r == hi
    ensures lo > hi ==> r == hi
  {
    var atLeast := if v > lo then v else lo;
    if atLeast < hi then atLeast else hi
  }

  /** Clamping twice is clamping once. */
  lemma ClampIdempotent(v: int, lo: int, hi: int)
    ensures Clamp(Clamp(v, lo, hi), lo, hi) == Clamp(v, lo, hi)
  {
    var r := Clamp(v, lo, hi);
    if lo <= hi {
      assert lo <= r <= hi;
    } else {
      assert r == hi;
    }
  }

  /** `inGamut(r, g, b)`: every channel lies in the closed unit interval. */
  predicate InGamut(r: real, g: real, b: real)
  {
    r >= 0.0 && r <= 1.0 && g >= 0.0 && g <= 1.0 && b >= 0.0 && b <= 1.0
  }
}
