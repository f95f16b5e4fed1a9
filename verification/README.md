# FFT bar visualizer: the per-frame spectrum-to-bars computation

The program plays a mono recording. Each display frame it reads the N = 1024
samples at the current playback position and runs a real-input FFT over them.
It then draws 64 green bars, one for each band of the spectrum's lower quarter.
This project models the frame body's computational part, in `main.cpp`:

- **Zero padding** (`zero_pad.dfy`, module `ZeroPad`). After a short read of
  `framesRead < N` samples, the rest of the input buffer is set to 0.0, so
  the transform always sees N samples. This is modelled as an in-place loop
  over an `array<real>`. It is proved against `Padded`, the window of the
  samples read followed by zeros.
- **Band partition** (`bands.dfy`, module `Bands`). Bins `[0, N/4)` are cut
  into `B` groups. Each group is `w = N/4/B` bins wide, and group `i` is
  `[i*w, (i+1)*w)`. The lemmas prove that the bands are contiguous, that
  every bin read lies inside the spectrum, and that the bands cover
  `[0, B*w)` with each such bin in exactly one band. They also prove that
  the divisor `w` is non-zero exactly when `B <= N/4`.
- **Band magnitude** (`magnitude.dfy`, module `Magnitude`). The band loop
  sums the moduli of the band's bins, then divides the sum by the band's
  width. It is proved against the specification `BandMean`, which is the
  mean of the band, or NaN for an empty band. The lemmas bound that mean by
  the band's smallest and largest modulus.
- **Height clamp** (`height.dfy`, module `Height`). This is
  `min(m*5/N, 1) * WINDOW_HEIGHT`, where `std::min` keeps its first argument
  unless the second is smaller.
- **Bar loop** (`frame.dfy`, module `Frame`). The bars start at height 0,
  and each frame recomputes every bar from its band.
- The constants are in `config.dfy`, module `Config`.

The source's `double` and `float` arithmetic is modelled over `real`. An
empty band would make the source compute `0.0 / 0`, which IEEE 754 makes NaN
rather than an error. So band magnitudes and heights are values of
`datatype Double = Finite(value: real) | NaN`. Where general descriptions of
the visualizer differ from `main.cpp`, the model follows the code:

- An empty band yields NaN, not zero.
- The usable range is exactly `N/4` bins.
- Magnitudes are rescaled linearly by the factor 5, with no logarithm.
- There is no temporal smoothing.
- The bar colour is a fixed green, not a hue sweep.

## Model

| member | source | states |
|---|---|---|
| `Config.SpectrumBins` | main.cpp:38 | The transform writes N/2+1 bins, which is more than N/2. |
| `ZeroPad.Padded` | main.cpp:84-89 | The padded window has the buffer's length. It holds the k samples read, then 0.0 up to the end. |
| `ZeroPad.ZeroPadTail` | main.cpp:85-89 | The buffer afterwards is exactly `Padded(old buffer, framesRead)`. A full read (`framesRead == N`) leaves it unmodified. |
| `ZeroPad.PaddedFullRead` | main.cpp:85 | Padding after a full read is the identity. |
| `ZeroPad.PaddedIsExplicitWindow` | main.cpp:84-89 | Padding k read samples gives the same window as building it by hand from those samples and N-k zeros, whatever stale data the buffer held. |
| `ZeroPad.PaddedIgnoresStaleData` | main.cpp:84-89 | Two buffers that agree on the k samples read give the same padded window. |
| `ZeroPad.PaddedTwice` | main.cpp:86-88 | Padding at k and then at k' <= k equals padding once at k'. |
| `Bands.BandEnd` | main.cpp:97-98 | Band i ends where band i+1 starts, and it is exactly `N/4/B` bins wide. A drawn band (i < B) ends at or below N/4. |
| `Bands.BandsContiguous` | main.cpp:97-98 | The first band starts at bin 0. `end(i) == start(i+1)` for every i < B-1. |
| `Bands.BandReadsInSpectrum` | main.cpp:97-100 | Every bin j read for a drawn band satisfies `j < N/4 < N/2+1`, so reads of `out` stay within the bins allocated. |
| `Bands.WidthPositiveIff` | main.cpp:97-102 | The divisor `end - start` is non-zero exactly when `B <= N/4`. |
| `Bands.BinInExactlyOneBand` | main.cpp:95-99 | Each bin j < B*w lies in band j/w, and that band is below B. It lies in no other band. |
| `Bands.BandsCover` | main.cpp:95-99 | Bin j is read by some band exactly when `j < B*w`, so the union of the bands is `[0, B*w)`. |
| `Bands.CoverWholeQuarter` | main.cpp:97-98 | When B divides N/4, the bands cover all of `[0, N/4)`. |
| `Bands.SourceBands` | main.cpp:97-98 | With N = 1024 and B = 64, every band is 4 bins wide, the bands cover `[0, 256)`, and 256 < 513. |
| `Magnitude.Band` | main.cpp:97-99 | The moduli read for band i number exactly `N/4/B`. |
| `Magnitude.BandMagnitude` | main.cpp:96-102 | The loop's result is the band's mean modulus, `BandMean`. It is NaN exactly when the band width is 0. |
| `Magnitude.SumBounds` | main.cpp:99-101 | If every modulus lies in [lo, hi], the accumulated sum lies in [lo*w, hi*w]. |
| `Magnitude.MeanBounds` | main.cpp:102 | If every value lies in [lo, hi], the mean lies in [lo, hi] too. |
| `Magnitude.MeanBetweenExtremes` | main.cpp:102 | A mean lies between the smallest and the largest value. |
| `Magnitude.BandMeanBetweenExtremes` | main.cpp:96-102 | A band's magnitude is a number exactly when the width is positive. It then lies between the band's smallest and largest modulus. |
| `Magnitude.BandMeanNonNegative` | main.cpp:100-102 | Non-negative moduli give a non-negative band magnitude. |
| `Magnitude.BandMeanOfSilence` | main.cpp:96-102 | When bands are at least one bin wide, an all-zero spectrum gives magnitude 0 in every band. |
| `Height.BarHeight` | main.cpp:104 | The height is NaN exactly when the magnitude is. A non-negative magnitude gives a height in [0, WINDOW_HEIGHT]. It equals WINDOW_HEIGHT once m >= N/5, and is below WINDOW_HEIGHT when m < N/5. |
| `Height.HeightMonotone` | main.cpp:104 | A larger magnitude never gives a lower bar. |
| `Height.HeightOfSilence` | main.cpp:104 | Magnitude 0 gives height 0. |
| `Frame.NewBars` | main.cpp:59-65 | The bars are created, one per band, each with height 0. |
| `Frame.UpdateBars` | main.cpp:95-106 | Afterwards bar i holds `BarHeight(BandMean(i))` for every band i. |
| `Frame.HeightsWithinWindow` | main.cpp:95-105 | With non-negative moduli and width > 0, every bar height is a number in [0, WINDOW_HEIGHT]. |
| `Frame.SilentFrame` | main.cpp:95-105 | When bands are at least one bin wide, an all-zero spectrum draws every bar at height 0. |
| `Frame.HeightsUndefinedIff` | main.cpp:97-104 | A bar's height is NaN exactly when there are more bars than usable bins (B > N/4). |
| `Frame.SourceFrameHeights` | main.cpp:95-106 | With N = 1024, 64 bars and a 600-pixel window, every bar height is a number in [0, 600]. |

## Left out

- The FFT (`fftw_plan_dft_r2c_1d`, `fftw_execute`, lines 37-39, 92, 122-124) is a foreign floating-point library. The model takes the bin moduli `sqrt(re^2 + im^2)` as an input sequence of N/2+1 reals. The square root is therefore not modelled.
- Audio file I/O with libsndfile (open, seek, read, close) is left out. Only the count of frames read is modelled, as `0 <= framesRead <= N`, because a read never returns more frames than were asked for.
- Window handling, event polling, sound playback, drawing and `sf::sleep` (SFML) are left out, because they are UI and timing. So is the outer loop's condition, which depends on the playback status and the window state.
- The conversion of the playback offset to a sample position (lines 77-78) is left out, because it depends on the playback engine's clock.
- Command-line and file-format checks with their error exits are left out, because they are process plumbing.
- Bar geometry is left out: each bar's x position, its width `barWidth - 1` and its negative y extent. The model keeps only the height magnitude.
- `ZeroPad.ZeroPadTail`, `Magnitude.BandMagnitude`, `Height.BarHeight`: the model uses `real`. It does not model double and float rounding, the order-dependent rounding of the sum, or the `float` cast on line 104.
- Integer overflow in `i * (N/4/NUM_BARS)` is not modelled. It cannot occur with the source's constants.
