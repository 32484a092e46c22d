/** The versioned constants of the cycle scanner, and what its theorems need of them. */
module CyclePolicy {

  datatype TransitingBody =
    | Sun | Moon | Mercury | Venus | Mars | Jupiter | Saturn | Uranus | Neptune | Pluto | TrueNode

  datatype AspectType = Conjunction | Sextile | Square | Trine | Opposition

  datatype BodyScanPolicy = BodyScanPolicy(
    scanStep: real,
    liftStep: real,
    lookaround: real,
    retrogradeArc: real,
    speedSlope: real,
    stationSeparation: real)

  const EPHEMERIS_MIN_JD := 2378498.0
  const EPHEMERIS_MAX_JD := 2597645.0
  const EPOCH := 2451545.0

  const ROOT_TIME_TOLERANCE := 2.0 / 86400.0
  const ANGULAR_ZERO_TOLERANCE := 0.000000001
  const ROOT_DEDUPE_TOLERANCE := 4.0 / 86400.0
  const BOUNDARY_PROBE := 30.0 / 86400.0
  const STATION_TIME_TOLERANCE := 1.0 / 86400.0
  const MAX_STATION_PROBE_DEPTH := 14

  function PolicyOf(body: TransitingBody): BodyScanPolicy {
    match body
    case Moon => BodyScanPolicy(0.25, 4.0, 6.0, 0.0, 0.7, 10.0)
    case Sun => BodyScanPolicy(0.25, 60.0, 60.0, 0.0, 0.001, 10.0)
    case Mercury => BodyScanPolicy(0.25, 30.0, 220.0, 17.0, 0.26, 3.0)
    case Venus => BodyScanPolicy(0.25, 45.0, 300.0, 17.0, 0.06, 3.0)
    case Mars => BodyScanPolicy(0.25, 90.0, 500.0, 21.0, 0.02, 10.0)
    case Jupiter => BodyScanPolicy(1.0, 200.0, 900.0, 11.0, 0.04, 10.0)
    case Saturn => BodyScanPolicy(1.0, 400.0, 1400.0, 8.0, 0.025, 10.0)
    case Uranus => BodyScanPolicy(1.0, 800.0, 2400.0, 5.0, 0.13, 10.0)
    case Neptune => BodyScanPolicy(1.0, 1200.0, 3200.0, 3.0, 0.06, 10.0)
    case Pluto => BodyScanPolicy(1.0, 1200.0, 6200.0, 3.0, 0.021, 10.0)
    case TrueNode => BodyScanPolicy(0.25, 400.0, 250.0, 2.0, 2.5, 0.005)
  }

  function TransitOrbDeg(body: TransitingBody, aspect: AspectType): real {
    match body
    case Moon | Sun => OrbRow(aspect, 6.0, 3.0, 5.0)
    case Mercury | Venus | Mars => OrbRow(aspect, 5.0, 2.5, 4.0)
    case Jupiter | Saturn => OrbRow(aspect, 4.0, 2.0, 3.0)
    case Uranus | Neptune | Pluto | TrueNode => OrbRow(aspect, 3.0, 1.5, 2.0)
  }

  /** In every row conjunction equals opposition and square equals trine. */
  function OrbRow(aspect: AspectType, axis: real, sextile: real, square: real): real {
    match aspect
    case Conjunction | Opposition => axis
    case Sextile => sextile
    case Square | Trine => square
  }

  function AspectAngle(aspect: AspectType): real {
    match aspect
    case Conjunction => 0.0
    case Sextile => 60.0
    case Square => 90.0
    case Trine => 120.0
    case Opposition => 180.0
  }

  /** `separation` doubled `depth` times. */
  function Doubled(separation: real, depth: nat): real {
    if depth == 0 then separation else 2.0 * Doubled(separation, depth - 1)
  }

  /** What the scanner's theorems ask of a policy row. */
  ghost predicate Usable(p: BodyScanPolicy) {
    && 0.0 < p.scanStep <= 1.0
    && p.scanStep <= p.liftStep
    && 0.0 <= p.lookaround
    && 0.0 <= p.retrogradeArc
    && 0.0 <= p.speedSlope
    // A halved interval is still wider than the station tolerance,
    && 2.0 * STATION_TIME_TOLERANCE < p.stationSeparation
    // the probe depth reaches the separation from one grid step,
    && p.scanStep <= Doubled(p.stationSeparation, MAX_STATION_PROBE_DEPTH)
    // and a body turning inside one station tolerance moves less than the zero tolerance.
    && p.speedSlope * (STATION_TIME_TOLERANCE * STATION_TIME_TOLERANCE) <= ANGULAR_ZERO_TOLERANCE
  }

  /** Every row of the table meets the requirements, so the theorems apply to every body. */
  lemma EveryRowIsUsable(body: TransitingBody)
    ensures Usable(PolicyOf(body))
  {
    var p := PolicyOf(body);
    DoublingGrows(p.stationSeparation, 0, MAX_STATION_PROBE_DEPTH);
    assert Doubled(p.stationSeparation, 3) == 8.0 * p.stationSeparation;
    assert Doubled(p.stationSeparation, 6) == 64.0 * p.stationSeparation;
    DoublingGrows(p.stationSeparation, 6, MAX_STATION_PROBE_DEPTH);
  }

  /** The grid is no finer than a quarter of a day, no row allows more than 2.5 degrees per day of slope,
      an excursion is forbidden or at least two degrees, and only the true node turns more often than its grid. */
  lemma RowsAreModerate(body: TransitingBody)
    ensures var p := PolicyOf(body);
      && (p.scanStep == 0.25 || p.scanStep == 1.0) && p.speedSlope <= 2.5
      && (p.retrogradeArc == 0.0 || 2.0 <= p.retrogradeArc)
      && (body != TrueNode ==> p.scanStep <= p.stationSeparation)
  {
  }

  lemma {:induction false} DoublingGrows(separation: real, less: nat, depth: nat)
    requires 0.0 <= separation && less <= depth
    ensures 0.0 <= Doubled(separation, less) <= Doubled(separation, depth)
    decreases depth
  {
    if less < depth {
      DoublingGrows(separation, less, depth - 1);
    } else if depth > 0 {
      DoublingGrows(separation, less - 1, depth - 1);
    }
  }

  lemma EveryOrbIsPositive(body: TransitingBody, aspect: AspectType)
    ensures 1.5 <= TransitOrbDeg(body, aspect) <= 6.0
  {
  }
}
