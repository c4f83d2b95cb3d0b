/** Conversions from floating-point values to integers, shared by the audio modules. */
module Numbers {
  /** Python's `int()` on a float, and numpy's float-to-integer cast: truncation toward zero. */
  function Trunc(x: real): (r: int)
    ensures 0.0 <= x ==> 0 <= r && r as real <= x < r as real + 1.0
    ensures x < 0.0 ==> r <= 0 && r as real - 1.0 < x <= r as real
  {
    if x >= 0.0 then x.Floor else -((-x).Floor)
  }
}
