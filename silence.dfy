/**
 * The silence gate: a chunk whose mean absolute amplitude is below the
 * threshold is dropped. The test is stated multiplied out by the chunk length,
 * which has the same meaning for a non-empty chunk and, like the comparison
 * with the NaN mean of an empty array, never holds for an empty one.
 */
module Silence {
  import opened Audio

  /** `SILENCE_THRESHOLD`. */
  const SILENCE_THRESHOLD: real := 0.005

  function Abs(x: real): real {
    if x < 0.0 then -x else x
  }

  /** The sum of the absolute amplitudes. */
  function SumAbs(c: Chunk): (r: real)
    ensures r >= 0.0
    ensures r == 0.0 <==> forall i :: 0 <= i < |c| ==> c[i] == 0.0
  {
    if c == [] then 0.0
    else
      var rest := SumAbs(c[1..]);
      assert forall i :: 1 <= i < |c| ==> c[i] == c[1..][i - 1];
      Abs(c[0]) + rest
  }

  /** `np.abs(chunk).mean() < threshold`, multiplied out. */
  predicate IsSilent(c: Chunk, threshold: real) {
    SumAbs(c) < threshold * (|c| as real)
  }

  /** Dividing a strict comparison by a positive factor. */
  lemma MeanCompare(s: real, t: real, n: real)
    requires n > 0.0
    ensures s < t * n <==> s / n < t
  {
  }

  /** For a non-empty chunk the multiplied-out test is the mean test. */
  lemma SilentIffMeanBelow(c: Chunk, threshold: real)
    requires |c| > 0
    ensures IsSilent(c, threshold) <==> SumAbs(c) / (|c| as real) < threshold
  {
    SumBelowIffMeanBelow(c, threshold);
  }

  /** The same comparison with the gate unfolded, kept apart so that the
      division is reasoned about without the gate's definition in view. */
  lemma SumBelowIffMeanBelow(c: Chunk, threshold: real)
    requires |c| > 0
    ensures SumAbs(c) < threshold * (|c| as real) <==> SumAbs(c) / (|c| as real) < threshold
  {
    MeanCompare(SumAbs(c), threshold, |c| as real);
  }

  /** An empty chunk is never silent. */
  lemma EmptyNeverSilent(threshold: real)
    ensures !IsSilent([], threshold)
  {
  }

  /** An all-zero chunk is silent exactly when it is non-empty and the
      threshold is positive. */
  lemma ZeroChunkSilent(c: Chunk, threshold: real)
    requires forall i :: 0 <= i < |c| ==> c[i] == 0.0
    ensures IsSilent(c, threshold) <==> |c| > 0 && threshold > 0.0
  {
    var n := |c| as real;
    if |c| > 0 && threshold <= 0.0 {
      assert threshold * n <= 0.0;
    }
  }

  /** The amplitude sum is additive over concatenation. */
  lemma {:induction false} SumAbsAppend(a: Chunk, b: Chunk)
    ensures SumAbs(a + b) == SumAbs(a) + SumAbs(b)
  {
    if a != [] {
      assert (a + b)[1..] == a[1..] + b;
      SumAbsAppend(a[1..], b);
    } else {
      assert a + b == b;
    }
  }

  lemma BoundsAdd(sa: real, sb: real, t: real, na: real, nb: real, n: real)
    requires sa < t * na && sb < t * nb && n == na + nb
    ensures sa + sb < t * n
  {
  }

  /** The gate runs on the whole chunk; gating each piece would not
      disagree when every piece is silent: the whole is then silent too. */
  lemma SilentPiecesSilentWhole(a: Chunk, b: Chunk, threshold: real)
    requires IsSilent(a, threshold) && IsSilent(b, threshold)
    ensures IsSilent(a + b, threshold)
  {
    SumAbsAppend(a, b);
    BoundsAdd(SumAbs(a), SumAbs(b), threshold, |a| as real, |b| as real, |a + b| as real);
  }
}
