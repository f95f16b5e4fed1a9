/**
 * Short-read zero padding: after reading `framesRead` samples into the
 * transform input buffer, the rest of the buffer is overwritten with 0.0,
 * so the transform always sees exactly one buffer's worth of samples.
 */
module ZeroPad {

  /** `len` zero samples. */
  function Zeros(len: nat): (r: seq<real>)
    ensures |r| == len
    ensures forall j :: 0 <= j < len ==> r[j] == 0.0
  {
    seq(len, _ => 0.0)
  }

  /** The window the transform sees: the first k samples of s, then silence. */
  function Padded(s: seq<real>, k: nat): (r: seq<real>)
    requires k <= |s|
    ensures |r| == |s|
    ensures forall j :: 0 <= j < k ==> r[j] == s[j]
    ensures forall j :: k <= j < |s| ==> r[j] == 0.0
  {
    s[..k] + Zeros(|s| - k)
  }

  /**
   * The padding loop: `buffer` holds `framesRead` freshly read samples
   * followed by stale data; every slot from `framesRead` on is cleared.
   * A full read leaves the buffer untouched.
   */
  method ZeroPadTail(buffer: array<real>, framesRead: nat)
    requires framesRead <= buffer.Length
    modifies buffer
    ensures buffer[..] == Padded(old(buffer[..]), framesRead)
    ensures framesRead == buffer.Length ==> buffer[..] == old(buffer[..])
  {
    if framesRead < buffer.Length {
      var i := framesRead;
      while i < buffer.Length
        invariant framesRead <= i <= buffer.Length
        invariant forall j :: 0 <= j < framesRead ==> buffer[j] == old(buffer[j])
        invariant forall j :: framesRead <= j < i ==> buffer[j] == 0.0
        invariant forall j :: i <= j < buffer.Length ==> buffer[j] == old(buffer[j])
      {
        buffer[i] := 0.0;
        i := i + 1;
      }
    }
  }

  /** A read of the whole buffer needs no padding. */
  lemma PaddedFullRead(s: seq<real>)
    ensures Padded(s, |s|) == s
  {
  }

  /**
   * Padding a short read of k samples gives exactly the window built by hand
   * from those k samples followed by |rest| zeros, whatever the stale rest was.
   */
  lemma PaddedIsExplicitWindow(samples: seq<real>, stale: seq<real>)
    ensures Padded(samples + stale, |samples|) == samples + Zeros(|stale|)
  {
    assert (samples + stale)[..|samples|] == samples;
  }

  /** The padded window depends only on the samples actually read. */
  lemma PaddedIgnoresStaleData(s: seq<real>, t: seq<real>, k: nat)
    requires |s| == |t| && k <= |s|
    requires s[..k] == t[..k]
    ensures Padded(s, k) == Padded(t, k)
  {
  }

  /** Padding again at the same or an earlier point agrees with padding once at that point. */
  lemma PaddedTwice(s: seq<real>, k: nat, k': nat)
    requires k' <= k <= |s|
    ensures Padded(Padded(s, k), k') == Padded(s, k')
  {
  }
}
