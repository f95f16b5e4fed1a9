/**
 * Band partition: the lower quarter of the spectrum, bins [0, n/4), is cut
 * into `bars` contiguous groups of equal integer width n/4/bars; group i is
 * [i * width, (i + 1) * width). All quantities are non-negative, so C++'s
 * truncating integer division agrees with Dafny's.
 */
module Bands {
  import Config

  /** Bins per band: the quarter-spectrum size divided by the bar count, truncated. */
  function Width(n: nat, bars: nat): nat
    requires bars > 0
  {
    n / 4 / bars
  }

  /** First bin of band i. */
  function BandStart(n: nat, bars: nat, i: nat): nat
    requires bars > 0
  {
    i * Width(n, bars)
  }

  /**
   * One past the last bin of band i: it is where band i + 1 starts, and
   * no band that is drawn reaches past the lower quarter of the spectrum.
   */
  function BandEnd(n: nat, bars: nat, i: nat): (e: nat)
    requires bars > 0
    ensures e == BandStart(n, bars, i) + Width(n, bars)
    ensures e == BandStart(n, bars, i + 1)
    ensures i < bars ==> e <= n / 4
  {
    var w := Width(n, bars);
    assert (i + 1) * w == i * w + w;
    if i < bars then BandsFit(n, bars, i); (i + 1) * w else (i + 1) * w
  }

  /** Bin j is read while computing band i. */
  predicate InBand(n: nat, bars: nat, i: nat, j: nat)
    requires bars > 0
  {
    BandStart(n, bars, i) <= j < BandEnd(n, bars, i)
  }

  lemma MulMonotone(a: nat, b: nat, w: nat)
    requires a <= b
    ensures a * w <= b * w
  {
  }

  lemma {:induction false} BandsFit(n: nat, bars: nat, i: nat)
    requires bars > 0 && i < bars
    ensures (i + 1) * Width(n, bars) <= bars * Width(n, bars) <= n / 4
  {
    MulMonotone(i + 1, bars, Width(n, bars));
    assert n / 4 == bars * Width(n, bars) + (n / 4) % bars;
  }

  /** The partition starts at bin 0 and each band ends where the next begins. */
  lemma BandsContiguous(n: nat, bars: nat)
    requires bars > 0
    ensures BandStart(n, bars, 0) == 0
    ensures forall i :: 0 <= i < bars - 1 ==> BandEnd(n, bars, i) == BandStart(n, bars, i + 1)
  {
  }

  /**
   * Every bin read for a drawn band is below n/4, which is within the
   * n/2 + 1 bins the transform writes.
   */
  lemma {:induction false} BandReadsInSpectrum(n: nat, bars: nat, i: nat, j: nat)
    requires bars > 0 && i < bars && InBand(n, bars, i, j)
    ensures j < n / 4 < Config.SpectrumBins(n)
  {
  }

  /** The per-band division by the band width has a non-zero divisor exactly when bars <= n/4. */
  lemma {:induction false} WidthPositiveIff(n: nat, bars: nat)
    requires bars > 0
    ensures Width(n, bars) > 0 <==> bars <= n / 4
  {
    if bars <= n / 4 {
      assert n / 4 == bars * Width(n, bars) + (n / 4) % bars;
    } else {
      assert Width(n, bars) == 0;
    }
  }

  lemma {:induction false} DivUnique(j: nat, w: nat, i: nat)
    requires w > 0 && i * w <= j < (i + 1) * w
    ensures j / w == i
  {
    var q := j / w;
    assert j == q * w + j % w;
    if q < i {
      MulMonotone(q + 1, i, w);
      assert false;
    } else if q > i {
      MulMonotone(i + 1, q, w);
      assert false;
    }
  }

  /** A bin below bars * width lies in band j / width and in no other band. */
  lemma {:induction false} BinInExactlyOneBand(n: nat, bars: nat, j: nat)
    requires bars > 0 && j < bars * Width(n, bars)
    ensures Width(n, bars) > 0
    ensures j / Width(n, bars) < bars && InBand(n, bars, j / Width(n, bars), j)
    ensures forall i :: 0 <= i < bars && InBand(n, bars, i, j) ==> i == j / Width(n, bars)
  {
    var w := Width(n, bars);
    var q := j / w;
    assert j == q * w + j % w;
    if q >= bars {
      MulMonotone(bars, q, w);
      assert false;
    }
    assert q * w <= j < (q + 1) * w;
    forall i | 0 <= i < bars && InBand(n, bars, i, j)
      ensures i == q
    {
      DivUnique(j, w, i);
    }
  }

  /** The bands together cover exactly the bins [0, bars * width). */
  lemma {:induction false} BandsCover(n: nat, bars: nat, j: nat)
    requires bars > 0
    ensures (exists i :: 0 <= i < bars && InBand(n, bars, i, j)) <==> j < bars * Width(n, bars)
  {
    if j < bars * Width(n, bars) {
      BinInExactlyOneBand(n, bars, j);
    }
    if exists i :: 0 <= i < bars && InBand(n, bars, i, j) {
      var i :| 0 <= i < bars && InBand(n, bars, i, j);
      BandsFit(n, bars, i);
    }
  }

  /** When bars divides n/4 the bands cover the whole lower quarter. */
  lemma CoverWholeQuarter(n: nat, bars: nat)
    requires bars > 0 && (n / 4) % bars == 0
    ensures bars * Width(n, bars) == n / 4
  {
  }

  /** The source's configuration: 64 bands of 4 bins covering bins [0, 256). */
  lemma SourceBands()
    ensures Width(Config.FftSize, Config.NumBars) == 4
    ensures Config.NumBars * Width(Config.FftSize, Config.NumBars) == Config.FftSize / 4
    ensures Config.FftSize / 4 < Config.SpectrumBins(Config.FftSize)
  {
  }
}
