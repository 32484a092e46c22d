/** The ephemeris as the scanners see it, and the named hypotheses about the motion behind it. */
module Sky {
  import opened Angles
  import opened CyclePolicy

  datatype BodyState = BodyState(lon: real, speed: real)

  datatype EphemerisSource = EphemerisSource(stateAt: (TransitingBody, real) -> BodyState)

  function Lon(source: EphemerisSource, body: TransitingBody, jd: real): real {
    source.stateAt(body, jd).lon
  }

  function Speed(source: EphemerisSource, body: TransitingBody, jd: real): real {
    source.stateAt(body, jd).speed
  }

  /** The true motion: a longitude that is never reduced, and its rate. */
  datatype Motion = Motion(lift: real -> real, speed: real -> real)

  ghost predicate ObservesAt(source: EphemerisSource, body: TransitingBody, m: Motion, jd: real) {
    Lon(source, body, jd) == Norm360(m.lift(jd)) && Speed(source, body, jd) == m.speed(jd)
  }

  /** The source answers with this motion, reduced to one revolution, and the
      motion is counted from the revolution it is in at the epoch. */
  ghost predicate Observes(source: EphemerisSource, body: TransitingBody, m: Motion) {
    && 0.0 <= m.lift(EPOCH) < 360.0
    && forall jd {:trigger ObservesAt(source, body, m, jd)} :: ObservesAt(source, body, m, jd)
  }

  ghost predicate HalfTurnApart(m: Motion, reach: real, s: real, t: real) {
    -reach <= s - t <= reach && 180.0 <= Abs(m.lift(s) - m.lift(t))
  }

  /** The body covers less than half a revolution in `reach` days. */
  ghost predicate SlowerThanHalfTurn(m: Motion, reach: real) {
    forall s, t {:trigger HalfTurnApart(m, reach, s, t)} :: !HalfTurnApart(m, reach, s, t)
  }

  ghost predicate Attains(f: real -> real, a: real, b: real, y: real) {
    exists t :: a <= t <= b && f(t) == y
  }

  /** A continuous quantity takes every value between two of its values. */
  ghost predicate Continuous(f: real -> real) {
    forall a, b, y {:trigger Attains(f, a, b, y)} ::
      a <= b && (f(a) <= y <= f(b) || f(b) <= y <= f(a)) ==> Attains(f, a, b, y)
  }

  ghost predicate StrictlyMonotone(f: real -> real, lo: real, hi: real) {
    || (forall s, t :: lo <= s < t <= hi ==> f(s) < f(t))
    || (forall s, t :: lo <= s < t <= hi ==> f(s) > f(t))
  }

  /** Some instant strictly inside has the average speed of the interval. */
  ghost predicate MeanSpeedTaken(m: Motion, a: real, b: real) {
    exists t :: a < t < b && m.lift(b) - m.lift(a) == m.speed(t) * (b - a)
  }

  /** `speed` is the derivative of `lift`, as the mean value theorem uses it, and both are continuous. */
  ghost predicate Smooth(m: Motion) {
    && Continuous(m.lift)
    && Continuous(m.speed)
    && forall a, b {:trigger MeanSpeedTaken(m, a, b)} :: a < b ==> MeanSpeedTaken(m, a, b)
  }

  /** The speed changes by at most `slope` per day. */
  ghost predicate Lipschitz(f: real -> real, slope: real) {
    forall s, t :: s <= t ==> -(slope * (t - s)) <= f(s) - f(t) <= slope * (t - s)
  }

  /** An instant at which the body stands still. */
  ghost predicate Reversal(m: Motion, z: real) {
    m.speed(z) == 0.0
  }

  ghost predicate ReversalBetween(m: Motion, a: real, b: real) {
    exists z :: a < z < b && Reversal(m, z)
  }

  /** Standstills lie more than `separation` apart and each one reverses the motion. */
  ghost predicate SpacedReversals(m: Motion, separation: real) {
    && (forall y, z :: Reversal(m, y) && Reversal(m, z) && y < z ==> separation < z - y)
    && (forall a, b {:trigger ReversalBetween(m, a, b)} ::
          && a < b <= a + separation
          && !Reversal(m, a) && !Reversal(m, b)
          ==> (ReversalBetween(m, a, b) <==> Sign(m.speed(a)) != Sign(m.speed(b))))
  }

  /** The motion is as this row of the policy describes it. */
  ghost predicate MovesAs(m: Motion, policy: BodyScanPolicy) {
    Smooth(m) && Lipschitz(m.speed, policy.speedSlope) && SpacedReversals(m, policy.stationSeparation)
  }

  /** The excursion of a body against its net motion never exceeds `arc`;
      the net motion is direct or retrograde. */
  ghost predicate ExcursionAtMost(m: Motion, arc: real) {
    || (forall s, t :: s <= t ==> m.lift(s) - arc <= m.lift(t))
    || (forall s, t :: s <= t ==> m.lift(t) <= m.lift(s) + arc)
  }
}
