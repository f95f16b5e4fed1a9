/**
 * Height clamp: a band magnitude is scaled by 5/N, capped at 1, and
 * multiplied by the window height to give the bar height.
 */
module Height {
  import Config
  import opened Magnitude

  /** `std::min(a, b)`: b when b < a, otherwise a. */
  function MinOf(a: real, b: real): real
  {
    if b < a then b else a
  }

  /**
   * Bar height of a band magnitude. A NaN magnitude stays NaN: `b < a` is
   * false for a NaN `a`, so `std::min` returns it, and NaN times the window
   * height is NaN.
   */
  function BarHeight(m: Double, n: nat, windowHeight: nat): (h: Double)
    requires n > 0
    ensures h.NaN? <==> m.NaN?
    ensures m.Finite? && 0.0 <= m.value ==> 0.0 <= h.value <= windowHeight as real
    ensures m.Finite? && m.value >= n as real / Config.Sensitivity ==> h.value == windowHeight as real
    ensures m.Finite? && m.value < n as real / Config.Sensitivity && windowHeight > 0 ==>
      h.value < windowHeight as real
  {
    match m
    case NaN => NaN
    case Finite(v) =>
      var fraction := v * Config.Sensitivity / n as real;
      ScaleBelowOne(v, n as real);
      MulBelow(MinOf(fraction, 1.0), windowHeight as real);
      Finite(MinOf(fraction, 1.0) * windowHeight as real)
  }

  lemma ScaleBelowOne(v: real, n: real)
    requires n > 0.0
    ensures v * Config.Sensitivity / n < 1.0 <==> v < n / Config.Sensitivity
    ensures 0.0 <= v ==> 0.0 <= v * Config.Sensitivity / n
  {
    assert v * Config.Sensitivity / n == (v / (n / Config.Sensitivity));
  }

  /** A louder band is never drawn lower. */
  lemma {:induction false} HeightMonotone(v1: real, v2: real, n: nat, windowHeight: nat)
    requires n > 0 && v1 <= v2
    ensures BarHeight(Finite(v1), n, windowHeight).value <= BarHeight(Finite(v2), n, windowHeight).value
  {
    var f1, f2 := v1 * Config.Sensitivity / n as real, v2 * Config.Sensitivity / n as real;
    ScaleMonotone(v1, v2, n as real);
    assert MinOf(f1, 1.0) <= MinOf(f2, 1.0);
    MulNonNegMonotone(MinOf(f1, 1.0), MinOf(f2, 1.0), windowHeight as real);
  }

  lemma MulBelow(a: real, c: real)
    ensures a < 1.0 && 0.0 < c ==> a * c < c
  {
  }

  lemma ScaleMonotone(v1: real, v2: real, n: real)
    requires n > 0.0 && v1 <= v2
    ensures v1 * Config.Sensitivity / n <= v2 * Config.Sensitivity / n
  {
    assert v2 * Config.Sensitivity / n - v1 * Config.Sensitivity / n == (v2 - v1) * Config.Sensitivity / n;
  }

  lemma MulNonNegMonotone(a: real, b: real, c: real)
    requires a <= b && 0.0 <= c
    ensures a * c <= b * c
  {
  }

  /** A silent band draws a bar of height 0. */
  lemma HeightOfSilence(n: nat, windowHeight: nat)
    requires n > 0
    ensures BarHeight(Finite(0.0), n, windowHeight) == Finite(0.0)
  {
  }
}
