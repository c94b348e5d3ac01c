/**
 * Pixel geometry shared by the renderer, the display and the event loop.
 *
 * The source computes with `f32`/`f64`; the model computes with exact reals and
 * writes out the three float-to-integer operations it relies on: truncation
 * (an `as` cast), rounding half away from zero (`.round()`) and the truncated
 * remainder of float `%`.
 */
module Geometry {

  /** Strictly positive reals: cell dimensions and device pixel ratios. */
  type PosReal = r: real | r > 0.0 witness 1.0

  /** Truncation toward zero, as a float-to-integer `as` cast does. */
  function Trunc(r: real): (n: int)
    ensures r >= 0.0 ==> n == r.Floor
    ensures n as real <= r < n as real + 1.0 || n as real - 1.0 < r <= n as real
  {
    if r >= 0.0 then r.Floor else -((-r).Floor)
  }

  /** `.round()`: the nearest integer, halves rounded away from zero. */
  function Round(r: real): (n: int)
    ensures r - 0.5 <= n as real <= r + 0.5
  {
    if r >= 0.0 then (r + 0.5).Floor else -((-r + 0.5).Floor)
  }

  /** Rounding is monotone. */
  lemma RoundMonotone(a: real, b: real)
    requires a <= b
    ensures Round(a) <= Round(b)
  {
    if a >= 0.0 {
      FloorMonotone(a + 0.5, b + 0.5);
    } else if b < 0.0 {
      FloorMonotone(-b + 0.5, -a + 0.5);
    }
  }

  lemma FloorMonotone(a: real, b: real)
    requires a <= b
    ensures a.Floor <= b.Floor
  {
  }

  /**
   * Float `%`: the remainder of truncated division, carrying the sign of
   * `x`. It is `x - Trunc(x / y) * y`, written as the fraction that
   * truncation drops from `x / y`, times `y`.
   */
  function FMod(x: real, y: PosReal): (r: real)
    ensures x >= 0.0 ==> 0.0 <= r < y
    ensures x < 0.0 ==> 0.0 < r + y && r <= 0.0
  {
    QuotientSign(x, y);
    Scaled(x / y - Trunc(x / y) as real, y)
  }

  /** The quotient by a positive divisor has the dividend's sign. */
  lemma QuotientSign(x: real, y: PosReal)
    ensures x >= 0.0 ==> x / y >= 0.0
    ensures x < 0.0 ==> x / y < 0.0
  {
  }

  /** A fraction `f` of `y`: it lies between zero and `y`, on the side of `f`'s sign. */
  function Scaled(f: real, y: PosReal): (r: real)
    requires -1.0 < f < 1.0
    ensures f >= 0.0 ==> 0.0 <= r < y
    ensures f <= 0.0 ==> 0.0 < r + y && r <= 0.0
  {
    ProductBounds(f, y);
    Times(f, y)
  }

  /**
   * Real multiplication under a name of its own, so that the bounds below
   * are stated about one term rather than re-derived from the product.
   */
  function Times(a: real, b: real): real {
    a * b
  }

  lemma ProductBounds(f: real, y: PosReal)
    requires -1.0 < f < 1.0
    ensures f >= 0.0 ==> 0.0 <= Times(f, y) < y
    ensures f <= 0.0 ==> 0.0 < Times(f, y) + y && Times(f, y) <= 0.0
  {
    assert (f + 1.0) * y == f * y + y;
    ScaledBelow(0.0, f + 1.0, y);
    ScaledBelow(f, 1.0, y);
    if f <= 0.0 {
      ScaledAtMost(f, 0.0, y);
    } else {
      ScaledAtMost(0.0, f, y);
    }
  }

  lemma ScaledBelow(a: real, b: real, y: PosReal)
    requires a < b
    ensures a * y < b * y
  {
  }

  lemma ScaledAtMost(a: real, b: real, y: PosReal)
    requires a <= b
    ensures a * y <= b * y
  {
  }

  /** A float-to-`usize` cast: truncation, with every negative value sent to 0. */
  function Usize(r: real): (n: nat)
    ensures r >= 0.0 ==> n == r.Floor
    ensures r < 1.0 ==> n == 0
  {
    if r <= 0.0 then 0 else r.Floor
  }

  function Max(a: real, b: real): real { if a >= b then a else b }

  /**
   * The display geometry (`SizeInfo`): window size in physical pixels, cell
   * size, padding and device pixel ratio.
   */
  datatype SizeInfo = SizeInfo(
    width: real,
    height: real,
    cellWidth: PosReal,
    cellHeight: PosReal,
    paddingX: real,
    paddingY: real,
    dpr: PosReal)

  /** Number of whole columns between the horizontal paddings. */
  function Cols(s: SizeInfo): nat {
    Usize((s.width - 2.0 * s.paddingX) / s.cellWidth)
  }

  /** Number of whole lines between the vertical paddings. */
  function Lines(s: SizeInfo): nat {
    Usize((s.height - 2.0 * s.paddingY) / s.cellHeight)
  }

  /**
   * Taking `k` cell heights off the height removes exactly `k` lines, or all
   * of them when there are fewer than `k`.
   */
  lemma LinesAfterShrink(s: SizeInfo, k: nat)
    ensures Lines(s.(height := s.height - s.cellHeight * k as real))
         == if Lines(s) >= k then Lines(s) - k else 0
  {
    var q := (s.height - 2.0 * s.paddingY) / s.cellHeight;
    var t := s.(height := s.height - s.cellHeight * k as real);
    var q' := (t.height - 2.0 * t.paddingY) / t.cellHeight;
    assert q' == q - k as real by {
      assert t.height - 2.0 * t.paddingY == (s.height - 2.0 * s.paddingY) - s.cellHeight * k as real;
    }
    if q >= k as real {
      assert (q - k as real).Floor == q.Floor - k;
    } else if q >= 0.0 {
      assert q.Floor < k;
    }
  }
}
