/** The similarity decision of `is_similar`: the dot product of two
    fingerprints against a threshold. Fingerprints are opaque vectors; an
    extraction that raised is `None`. Arithmetic is exact over the reals. */
module Similarity {
  import opened Wrappers

  const DefaultThreshold: real := 0.90

  /** The dot product of two vectors of the same length, summed from the
      front; a vector's product with itself is a sum of squares, never
      negative. */
  function Dot(a: seq<real>, b: seq<real>): (r: real)
    requires |a| == |b|
    ensures a == b ==> r >= 0.0
  {
    if a == [] then 0.0 else Dot(a[..|a| - 1], b[..|b| - 1]) + a[|a| - 1] * b[|b| - 1]
  }

  /** `np.dot(fp1, fp2)`: fails when either fingerprint failed or when the
      two vectors have different lengths (a chunk of another duration has a
      fingerprint of another length). */
  function Score(fp1: Option<seq<real>>, fp2: Option<seq<real>>): (r: Option<real>)
    ensures r.Some? <==> fp1.Some? && fp2.Some? && |fp1.value| == |fp2.value|
  {
    if fp1.Some? && fp2.Some? && |fp1.value| == |fp2.value| then Some(Dot(fp1.value, fp2.value)) else None
  }

  /** `similarity > threshold`, with any failure meaning "not similar". */
  predicate IsSimilar(score: Option<real>, threshold: real)
  {
    score.Some? && score.value > threshold
  }

  /** Any failure, including a length mismatch, means "not similar". */
  lemma FailureIsNotSimilar(fp1: Option<seq<real>>, fp2: Option<seq<real>>, threshold: real)
    requires fp1.None? || fp2.None? || |fp1.value| != |fp2.value|
    ensures !IsSimilar(Score(fp1, fp2), threshold)
  {
  }

  /** The comparison is strict: a score equal to the threshold is not
      similar. */
  lemma ThresholdIsStrict(threshold: real)
    ensures !IsSimilar(Some(threshold), threshold)
  {
  }

  /** Similar at a threshold implies similar at every lower threshold. */
  lemma ThresholdMonotone(score: Option<real>, t1: real, t2: real)
    requires t2 < t1 && IsSimilar(score, t1)
    ensures IsSimilar(score, t2)
  {
  }

  lemma {:induction false} DotSymmetric(a: seq<real>, b: seq<real>)
    requires |a| == |b|
    ensures Dot(a, b) == Dot(b, a)
  {
    if a != [] {
      DotSymmetric(a[..|a| - 1], b[..|b| - 1]);
    }
  }

  /** The decision does not depend on the argument order. */
  lemma SimilarSymmetric(fp1: Option<seq<real>>, fp2: Option<seq<real>>, threshold: real)
    ensures IsSimilar(Score(fp1, fp2), threshold) == IsSimilar(Score(fp2, fp1), threshold)
  {
    if fp1.Some? && fp2.Some? && |fp1.value| == |fp2.value| {
      DotSymmetric(fp1.value, fp2.value);
    }
  }

  /** A fingerprint compared with itself is similar at the default threshold
      when it is unit-normalised (its dot product with itself is 1). */
  lemma SelfSimilar(fp: seq<real>)
    requires Dot(fp, fp) == 1.0
    ensures IsSimilar(Score(Some(fp), Some(fp)), DefaultThreshold)
  {
  }
}
