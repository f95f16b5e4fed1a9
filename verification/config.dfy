/** The visualizer's compile-time configuration (main.cpp lines 9-12 and 58). */
module Config {
  /** Sample rate of the input recording, in frames per second. */
  const SampleRate: nat := 44100
  /** Transform size: the number of samples analysed per frame. */
  const FftSize: nat := 1024
  /** Window size in pixels. */
  const WindowWidth: nat := 800
  const WindowHeight: nat := 600
  /** Number of bars drawn, one per frequency band. */
  const NumBars: nat := 64
  /** The literal factor 5.0 in the height formula. */
  const Sensitivity: real := 5.0

  /** Number of complex bins a real-input transform of size n produces. */
  function SpectrumBins(n: nat): (bins: nat)
    ensures bins > n / 2
  {
    n / 2 + 1
  }
}
