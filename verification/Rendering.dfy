/** Instants as the responses write them: whole seconds of universal time. */
module Rendering {
  import opened Angles

  const UNIX_EPOCH_JD := 2440587.5
  const ONE_SECOND := 1.0 / 86400.0

  /** Whole seconds from 1970, halves going up; the ISO texts of two instants order as these do. */
  function Seconds1970(jd: real): int {
    Round((jd - UNIX_EPOCH_JD) * 86400.0)
  }

  /** What is written is the nearest second. */
  lemma WrittenIsNear(jd: real)
    ensures Abs(Seconds1970(jd) as real - (jd - 2440587.5) * 86400.0) <= 0.5
  {
  }

  lemma RoundingIsMonotone(a: real, b: real)
    requires a <= b
    ensures Seconds1970(a) <= Seconds1970(b)
  {
  }

  lemma OneSecondEarlier(jd: real)
    ensures Seconds1970(jd - ONE_SECOND) == Seconds1970(jd) - 1
  {
  }

  /** Instants at least one second apart are written differently, in the same order. */
  lemma ASecondApartRendersApart(a: real, b: real)
    requires a + ONE_SECOND <= b
    ensures Seconds1970(a) < Seconds1970(b)
  {
    OneSecondEarlier(b);
    RoundingIsMonotone(a, b - ONE_SECOND);
  }
}
