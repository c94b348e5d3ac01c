/**
 * Font sizes as the font crate represents them (`font::Size`): a signed
 * 16-bit count of half points, built from points by a truncating cast and
 * added with saturation. The font crate itself is not part of this model;
 * only this representation is.
 */
module Fonts {
  import opened Geometry

  /** A font size in half points, within the range of an `i16`. */
  newtype FontSize = x: int | -0x8000 <= x < 0x8000

  /** Half points per point (`Size::factor`). */
  const FACTOR: real := 2.0

  /** Clamp an integer into the `i16` range. */
  function Saturate(x: int): (s: FontSize)
    ensures -0x8000 <= x < 0x8000 ==> s as int == x
    ensures x >= 0x8000 ==> s == 0x7fff
    ensures x < -0x8000 ==> s == -0x8000
  {
    if x < -0x8000 then -0x8000 else if x >= 0x8000 then 0x7fff else x as FontSize
  }

  /** `Size::new`: points times two, truncated and saturated into an `i16`. */
  function FromPoints(points: real): FontSize {
    Saturate(Trunc(points * FACTOR))
  }

  /** `Size + Size`: saturating addition. */
  function Plus(a: FontSize, b: FontSize): FontSize {
    Saturate(a as int + b as int)
  }

  function MaxSize(a: FontSize, b: FontSize): FontSize { if a >= b then a else b }
}
