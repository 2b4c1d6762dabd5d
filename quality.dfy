/** The per-chunk quality gate (`is_silent_or_quiet`, `is_too_short` and the
    filter that combines them). Each measurement is an `Option<real>`:
    `None` means the measurement raised. */
module QualityGate {
  import opened Wrappers

  const DefaultSilenceRms: real := 0.001
  const DefaultMinDuration: real := 2.0

  /** `is_silent_or_quiet`: silent when the mean RMS is strictly below the
      floor; a failed measurement counts as audible. */
  predicate IsSilentOrQuiet(rms: Option<real>, silenceRms: real)
  {
    match rms
    case None => false
    case Some(r) => r < silenceRms
  }

  /** `is_too_short`: too short when the duration in seconds is strictly below
      the minimum; a failed measurement counts as too short. */
  predicate IsTooShort(duration: Option<real>, minDuration: real)
  {
    match duration
    case None => true
    case Some(d) => d < minDuration
  }

  /** The filter condition `not silent and not too short`. */
  predicate Passes(rms: Option<real>, duration: Option<real>, silenceRms: real, minDuration: real)
  {
    !IsSilentOrQuiet(rms, silenceRms) && !IsTooShort(duration, minDuration)
  }

  /** Asymmetric error defaults: a failed silence check never rejects, a
      failed duration check always rejects. */
  lemma ErrorDefaults(duration: Option<real>, silenceRms: real, minDuration: real)
    ensures !IsSilentOrQuiet(None, silenceRms)
    ensures IsTooShort(None, minDuration)
    ensures !Passes(Some(0.0), None, silenceRms, minDuration) && !Passes(None, None, silenceRms, minDuration)
    ensures Passes(None, duration, silenceRms, minDuration) <==> !IsTooShort(duration, minDuration)
  {
  }

  /** Strict comparisons: RMS exactly at the floor is not silent, a duration
      exactly at the minimum is not too short. */
  lemma BoundariesPass(silenceRms: real, minDuration: real)
    ensures !IsSilentOrQuiet(Some(silenceRms), silenceRms)
    ensures !IsTooShort(Some(minDuration), minDuration)
    ensures Passes(Some(silenceRms), Some(minDuration), silenceRms, minDuration)
  {
  }

  /** Raising either limit can only reject more chunks. */
  lemma PassesMonotone(rms: Option<real>, duration: Option<real>, s1: real, s2: real, m1: real, m2: real)
    requires s1 <= s2 && m1 <= m2
    requires Passes(rms, duration, s2, m2)
    ensures Passes(rms, duration, s1, m1)
  {
  }
}
