/**
 * Target-resolution arithmetic (internal/scaler/scale.go).
 *
 * The floating-point part (the aspect ratio W/H, the product with the scale
 * factor and math.Round, the division by the ratio) is not interpreted: it is
 * given as integer-valued functions, the values the Go conversions to int
 * produce. What follows them, making both sides even with Go's truncating
 * `%` and the 320-pixel minimum width, is modelled exactly.
 */
module Scaler {

  datatype Resolution = Resolution(w: int, h: int)

  /** The float computations of Auto, with whatever values they return. */
  datatype FloatOps = FloatOps(
    /** int(math.Round(float64(n) * factor)) */
    roundScaled: (int, real) -> int,
    /** int(math.Round(float64(h) * ratio)), ratio = float64(src.W) / float64(src.H) */
    roundByRatio: (int, Resolution) -> int,
    /** int(float64(w) / ratio) */
    truncByRatio: (int, Resolution) -> int)

  const MinWidth: int := 320

  /** The scale factor: 2/3 for "down", 1.5 for any other mode string, "up" included. */
  function Factor(mode: string): (f: real)
    ensures mode == "down" ==> f == 2.0 / 3.0
    ensures mode != "down" ==> f == 1.5
  {
    if mode == "down" then 2.0 / 3.0 else 1.5
  }

  /** Go's `n % 2`: the remainder takes the sign of the dividend (Dafny's `%` does not). */
  function GoRem2(n: int): (r: int)
    ensures (n - r) % 2 == 0
    ensures 0 <= n ==> 0 <= r <= 1
    ensures n < 0 ==> -1 <= r <= 0
  {
    if n >= 0 then n % 2 else -((-n) % 2)
  }

  /** `n -= n % 2`: rounds an odd number one step toward zero. */
  function DropOdd(n: int): (r: int)
    ensures r % 2 == 0
    ensures n % 2 == 0 ==> r == n
    ensures n % 2 != 0 && n > 0 ==> r == n - 1
    ensures n % 2 != 0 && n < 0 ==> r == n + 1
  {
    n - GoRem2(n)
  }

  /**
   * scaler.Auto: the height is scaled by the factor, the width follows the
   * aspect ratio, both are made even, and a width under 320 is raised to 320
   * with the height recomputed from the ratio (truncated, then made even).
   */
  function Auto(src: Resolution, mode: string, ops: FloatOps): (r: Resolution)
    ensures r.w % 2 == 0 && r.h % 2 == 0
    ensures r.w >= MinWidth
    ensures var h := ops.roundScaled(src.h, Factor(mode));
            var w := ops.roundByRatio(h, src);
            if DropOdd(w) < MinWidth
            then r == Resolution(MinWidth, DropOdd(ops.truncByRatio(MinWidth, src)))
            else r == Resolution(DropOdd(w), DropOdd(h))
  {
    var h := ops.roundScaled(src.h, Factor(mode));
    var w := ops.roundByRatio(h, src);
    var w := DropOdd(w);
    var h := DropOdd(h);
    if w < MinWidth then
      var w := MinWidth;
      Resolution(w, DropOdd(ops.truncByRatio(w, src)))
    else
      Resolution(w, h)
  }
}
