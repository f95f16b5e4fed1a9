/**
 * The bar graph: one height per band, set to 0 when the bars are created
 * and recomputed from the spectrum every frame.
 */
module Frame {
  import Config
  import Bands
  import opened Magnitude
  import opened Height

  /** Specification of the bar loop: the height of every bar for one spectrum. */
  function BarHeights(moduli: seq<real>, n: nat, bars: nat, windowHeight: nat): seq<Double>
    requires n > 0 && bars > 0 && |moduli| == Config.SpectrumBins(n)
  {
    seq(bars, i requires 0 <= i < bars => BarHeight(BandMean(moduli, n, bars, i), n, windowHeight))
  }

  /** The bars as first created: every bar has height 0. */
  method NewBars(count: nat) returns (heights: array<Double>)
    ensures fresh(heights) && heights.Length == count
    ensures forall i :: 0 <= i < count ==> heights[i] == Finite(0.0)
  {
    heights := new Double[count];
    for i := 0 to count
      invariant forall k :: 0 <= k < i ==> heights[k] == Finite(0.0)
    {
      heights[i] := Finite(0.0);
    }
  }

  /** One frame's bar update: bar i gets the clamped mean modulus of band i. */
  method UpdateBars(moduli: seq<real>, n: nat, heights: array<Double>, windowHeight: nat)
    requires n > 0 && heights.Length > 0 && |moduli| == Config.SpectrumBins(n)
    modifies heights
    ensures heights[..] == BarHeights(moduli, n, heights.Length, windowHeight)
  {
    var bars := heights.Length;
    for i := 0 to bars
      invariant forall k :: 0 <= k < i ==>
        heights[k] == BarHeight(BandMean(moduli, n, bars, k), n, windowHeight)
    {
      var magnitude := BandMagnitude(moduli, n, bars, i);
      heights[i] := BarHeight(magnitude, n, windowHeight);
    }
  }

  /**
   * With non-negative moduli and bands at least one bin wide, every bar
   * height is a number in [0, windowHeight].
   */
  lemma {:induction false} HeightsWithinWindow(moduli: seq<real>, n: nat, bars: nat, windowHeight: nat)
    requires n > 0 && bars > 0 && |moduli| == Config.SpectrumBins(n)
    requires forall j :: 0 <= j < |moduli| ==> 0.0 <= moduli[j]
    requires Bands.Width(n, bars) > 0
    ensures forall i :: 0 <= i < bars ==>
      BarHeights(moduli, n, bars, windowHeight)[i].Finite? &&
      0.0 <= BarHeights(moduli, n, bars, windowHeight)[i].value <= windowHeight as real
  {
    forall i | 0 <= i < bars
      ensures BarHeights(moduli, n, bars, windowHeight)[i].Finite?
      ensures 0.0 <= BarHeights(moduli, n, bars, windowHeight)[i].value <= windowHeight as real
    {
      BandMeanNonNegative(moduli, n, bars, i);
    }
  }

  /** A silent spectrum draws every bar at height 0. */
  lemma {:induction false} SilentFrame(moduli: seq<real>, n: nat, bars: nat, windowHeight: nat)
    requires n > 0 && bars > 0 && |moduli| == Config.SpectrumBins(n)
    requires forall j :: 0 <= j < |moduli| ==> moduli[j] == 0.0
    requires Bands.Width(n, bars) > 0
    ensures forall i :: 0 <= i < bars ==> BarHeights(moduli, n, bars, windowHeight)[i] == Finite(0.0)
  {
    forall i | 0 <= i < bars
      ensures BarHeights(moduli, n, bars, windowHeight)[i] == Finite(0.0)
    {
      BandMeanOfSilence(moduli, n, bars, i);
    }
  }

  /** Bar heights are NaN exactly when there are more bars than usable bins. */
  lemma {:induction false} HeightsUndefinedIff(moduli: seq<real>, n: nat, bars: nat, windowHeight: nat)
    requires n > 0 && bars > 0 && |moduli| == Config.SpectrumBins(n)
    ensures forall i :: 0 <= i < bars ==>
      (BarHeights(moduli, n, bars, windowHeight)[i].NaN? <==> bars > n / 4)
  {
    Bands.WidthPositiveIff(n, bars);
  }

  /** In the source's configuration every bar height is a number in [0, 600]. */
  lemma SourceFrameHeights(moduli: seq<real>)
    requires |moduli| == Config.SpectrumBins(Config.FftSize)
    requires forall j :: 0 <= j < |moduli| ==> 0.0 <= moduli[j]
    ensures forall i :: 0 <= i < Config.NumBars ==>
      BarHeights(moduli, Config.FftSize, Config.NumBars, Config.WindowHeight)[i].Finite? &&
      0.0 <= BarHeights(moduli, Config.FftSize, Config.NumBars, Config.WindowHeight)[i].value <= 600.0
  {
    Bands.SourceBands();
    HeightsWithinWindow(moduli, Config.FftSize, Config.NumBars, Config.WindowHeight);
  }
}
