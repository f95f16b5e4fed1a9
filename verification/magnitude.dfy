/**
 * Band magnitude: the arithmetic mean of the bin moduli of one band.
 * The moduli |out[j]| = sqrt(re^2 + im^2) are taken as a given sequence,
 * one per transform bin.
 */
module Magnitude {
  import Config
  import Bands

  /**
   * A double-precision result: a finite value or not-a-number. Dividing
   * the (zero) sum of an empty band by its width of zero gives NaN under
   * IEEE 754 rather than a fault.
   */
  datatype Double = Finite(value: real) | NaN

  /** Left-to-right sum, matching the accumulation order of the band loop. */
  function Sum(xs: seq<real>): real
  {
    if |xs| == 0 then 0.0 else Sum(xs[..|xs| - 1]) + xs[|xs| - 1]
  }

  function Min(xs: seq<real>): (m: real)
    requires |xs| > 0
    ensures m in xs
    ensures forall j :: 0 <= j < |xs| ==> m <= xs[j]
  {
    if |xs| == 1 then xs[0]
    else
      var rest := Min(xs[1..]);
      assert forall j :: 1 <= j < |xs| ==> xs[j] == xs[1..][j - 1];
      if xs[0] <= rest then xs[0] else rest
  }

  function Max(xs: seq<real>): (m: real)
    requires |xs| > 0
    ensures m in xs
    ensures forall j :: 0 <= j < |xs| ==> xs[j] <= m
  {
    if |xs| == 1 then xs[0]
    else
      var rest := Max(xs[1..]);
      assert forall j :: 1 <= j < |xs| ==> xs[j] == xs[1..][j - 1];
      if rest <= xs[0] then xs[0] else rest
  }

  /** The moduli of band i. */
  function Band(moduli: seq<real>, n: nat, bars: nat, i: nat): (band: seq<real>)
    requires bars > 0 && i < bars && n / 4 <= |moduli|
    ensures |band| == Bands.Width(n, bars)
  {
    var start, end := Bands.BandStart(n, bars, i), Bands.BandEnd(n, bars, i);
    moduli[start..end]
  }

  /** Specification of the band loop: the mean of the band, NaN for an empty band. */
  function BandMean(moduli: seq<real>, n: nat, bars: nat, i: nat): Double
    requires bars > 0 && i < bars && n / 4 <= |moduli|
  {
    var w := Bands.Width(n, bars);
    if w == 0 then NaN else Finite(Sum(Band(moduli, n, bars, i)) / w as real)
  }

  /**
   * The band loop of the frame: accumulate the moduli of bins
   * [start, end) and divide by the number of bins.
   */
  method BandMagnitude(moduli: seq<real>, n: nat, bars: nat, i: nat) returns (m: Double)
    requires bars > 0 && i < bars && |moduli| == Config.SpectrumBins(n)
    ensures m == BandMean(moduli, n, bars, i)
    ensures m.NaN? <==> Bands.Width(n, bars) == 0
  {
    var magnitude := 0.0;
    var start := Bands.BandStart(n, bars, i);
    var end := Bands.BandEnd(n, bars, i);
    var j := start;
    while j < end
      invariant start <= j <= end
      invariant magnitude == Sum(moduli[start..j])
    {
      assert moduli[start..j + 1][..j - start] == moduli[start..j];
      magnitude := magnitude + moduli[j];
      j := j + 1;
    }
    assert moduli[start..end] == Band(moduli, n, bars, i);
    if end - start == 0 {
      m := NaN;
    } else {
      m := Finite(magnitude / (end - start) as real);
    }
  }

  /** Bounds on every element bound the sum. */
  lemma {:induction false} SumBounds(xs: seq<real>, lo: real, hi: real)
    requires forall j :: 0 <= j < |xs| ==> lo <= xs[j] <= hi
    ensures lo * |xs| as real <= Sum(xs) <= hi * |xs| as real
  {
    if |xs| > 0 {
      SumBounds(xs[..|xs| - 1], lo, hi);
    }
  }

  /** Bounds on every element bound the mean. */
  lemma MeanBounds(xs: seq<real>, lo: real, hi: real)
    requires |xs| > 0
    requires forall j :: 0 <= j < |xs| ==> lo <= xs[j] <= hi
    ensures lo <= Sum(xs) / |xs| as real <= hi
  {
    SumBounds(xs, lo, hi);
    QuotientBounds(Sum(xs), |xs| as real, lo, hi);
  }

  /** A mean lies between the smallest and the largest of its values. */
  lemma MeanBetweenExtremes(xs: seq<real>)
    requires |xs| > 0
    ensures Min(xs) <= Sum(xs) / |xs| as real <= Max(xs)
  {
    MeanBounds(xs, Min(xs), Max(xs));
  }

  lemma QuotientBounds(s: real, c: real, lo: real, hi: real)
    requires c > 0.0 && lo * c <= s <= hi * c
    ensures lo <= s / c <= hi
  {
    assert s == (s / c) * c;
  }

  /**
   * The band magnitude is defined exactly when bands are at least one bin
   * wide, and then lies between the smallest and largest modulus of the band.
   */
  lemma BandMeanBetweenExtremes(moduli: seq<real>, n: nat, bars: nat, i: nat)
    requires bars > 0 && i < bars && n / 4 <= |moduli|
    ensures BandMean(moduli, n, bars, i).Finite? <==> Bands.Width(n, bars) > 0
    ensures Bands.Width(n, bars) > 0 ==>
      Min(Band(moduli, n, bars, i)) <= BandMean(moduli, n, bars, i).value <= Max(Band(moduli, n, bars, i))
  {
    if Bands.Width(n, bars) > 0 {
      MeanBetweenExtremes(Band(moduli, n, bars, i));
    }
  }

  /** Non-negative moduli give a non-negative band magnitude. */
  lemma BandMeanNonNegative(moduli: seq<real>, n: nat, bars: nat, i: nat)
    requires bars > 0 && i < bars && n / 4 <= |moduli|
    requires forall j :: 0 <= j < |moduli| ==> 0.0 <= moduli[j]
    requires Bands.Width(n, bars) > 0
    ensures 0.0 <= BandMean(moduli, n, bars, i).value
  {
    BandMeanBetweenExtremes(moduli, n, bars, i);
  }

  /** An all-zero spectrum gives magnitude 0 in every non-empty band. */
  lemma BandMeanOfSilence(moduli: seq<real>, n: nat, bars: nat, i: nat)
    requires bars > 0 && i < bars && n / 4 <= |moduli|
    requires forall j :: 0 <= j < |moduli| ==> moduli[j] == 0.0
    requires Bands.Width(n, bars) > 0
    ensures BandMean(moduli, n, bars, i) == Finite(0.0)
  {
    SumBounds(Band(moduli, n, bars, i), 0.0, 0.0);
  }
}
