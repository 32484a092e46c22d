/** The recursive station search: which samples it splices in between two others, and why
    it finds every reversal exactly once. */
module Stations {
  import opened Optional
  import opened Angles
  import opened CyclePolicy
  import opened Sky
  import opened LiftChain

  datatype PassDirection = Direct | Retrograde

  datatype Sample = Sample(
    jd: real,
    lon: real,
    speed: real,
    lift: real,
    station: bool,
    direction: Option<PassDirection>)

  type PositiveDays = step: real | 0.0 < step witness 1.0

  const HALF_STATION_TOLERANCE := 0.5 / 86400.0

  /** Whole seconds in a span: halving a span of more than one second lowers this count. */
  function Seconds(days: real): nat {
    if days <= 0.0 then 0 else (86400.0 * days).Floor
  }

  /** One body as one scan sees it: what the ephemeris and the lift chain answer for every instant,
      how much speed the body can
      shed in half of a span, and where the epoch-anchored grid lies,
      and how deep the station search may go. */
  datatype Track = Track(
    lon: real -> real,
    speed: real -> real,
    lift: real -> real,
    shed: real -> real,
    grid: int -> real,
    gridBelow: real -> int,
    gridAbove: real -> int,
    policy: BodyScanPolicy,
    probeDepth: nat)
  {

    function Take(jd: real, station: bool): Sample {
      Sample(jd, lon(jd), speed(jd), lift(jd), station, None)
    }

    /** Where the bisection of a speed-sign change ends. */
    function Refined(lo: real, hi: real, sign: int): real
      decreases Seconds(hi - lo)
    {
      if hi - lo <= STATION_TIME_TOLERANCE then (lo + hi) / 2.0
      else
        var mid := (lo + hi) / 2.0;
        if speed(mid) == 0.0 then mid
        else if Sign(speed(mid)) == sign then Refined(mid, hi, sign)
        else Refined(lo, mid, sign)
    }

    function StationBetween(a: Sample, b: Sample): Sample {
      Take(Refined(a.jd, b.jd, Sign(a.speed)), true)
      .(direction := Some(if b.speed > 0.0 then Direct else Retrograde))
    }

    predicate SameSign(a: Sample, b: Sample) {
      Sign(a.speed) == Sign(b.speed)
    }

    predicate CouldHoldZero(a: Sample, b: Sample) {
      Min(Abs(a.speed), Abs(b.speed)) <= shed(b.jd - a.jd)
    }

    /** No station is looked for: too narrow, or too fast to reach zero in the time available. */
    predicate Closed(a: Sample, b: Sample) {
      b.jd - a.jd <= STATION_TIME_TOLERANCE || (SameSign(a, b) && !CouldHoldZero(a, b))
    }

    function Middle(a: Sample, b: Sample): Sample {
      Take((a.jd + b.jd) / 2.0, false)
    }

    /** The stations spliced in between two samples. */
    function Spliced(a: Sample, b: Sample, depth: nat): seq<Sample>
      decreases depth
    {
      if Closed(a, b) then []
      else if depth == 0 || b.jd - a.jd <= policy.stationSeparation then
        if SameSign(a, b) then [] else [StationBetween(a, b)]
      else
        Spliced(a, Middle(a, b), depth - 1) + Spliced(Middle(a, b), b, depth - 1)
    }

    /** No subdivision midpoint that the search visits has speed exactly zero. */
    ghost predicate NoZeroProbe(a: Sample, b: Sample, depth: nat)
      decreases depth
    {
      Closed(a, b) || depth == 0 || b.jd - a.jd <= policy.stationSeparation
      || (&& Middle(a, b).speed != 0.0
          && NoZeroProbe(a, Middle(a, b), depth - 1)
          && NoZeroProbe(Middle(a, b), b, depth - 1))
    }
  }

  ghost predicate AnswersAt(k: Track, source: EphemerisSource, body: TransitingBody, liftStep: real, jd: real)
    requires 0.0 < liftStep
  {
    && k.lon(jd) == Lon(source, body, jd)
    && k.speed(jd) == Speed(source, body, jd)
    && k.lift(jd) == LiftedAt(source, body, liftStep, jd, Lon(source, body, jd))
  }

  ghost predicate ShedsAt(k: Track, width: real) {
    k.shed(width) == k.policy.speedSlope * width / 2.0
  }

  ghost predicate GridAt(k: Track, index: int) {
    k.grid(index) == Instant(k.policy.scanStep, index)
  }

  ghost predicate SpanAt(k: Track, jd: real) {
    k.gridBelow(jd) == FirstIndex(k.policy, jd) && k.gridAbove(jd) == LastIndex(k.policy, jd)
  }

  /** `k` says what the source and the lift chain would answer. */
  ghost predicate Answers(k: Track, source: EphemerisSource, body: TransitingBody, liftStep: real) {
    && 0.0 < liftStep
    && k.probeDepth == MAX_STATION_PROBE_DEPTH
    && (forall jd {:trigger AnswersAt(k, source, body, liftStep, jd)} :: AnswersAt(k, source, body, liftStep, jd))
    && (forall width {:trigger ShedsAt(k, width)} :: ShedsAt(k, width))
    && (forall index {:trigger GridAt(k, index)} :: GridAt(k, index))
    && (forall jd {:trigger SpanAt(k, jd)} :: SpanAt(k, jd))
  }

  /** The last grid index not after `jd`. */
  function FirstIndex(policy: BodyScanPolicy, jd: real): int {
    if policy.scanStep == 0.0 then 0 else ((jd - EPOCH) / policy.scanStep).Floor
  }

  /** The first grid index not before `jd`. */
  function LastIndex(policy: BodyScanPolicy, jd: real): int {
    if policy.scanStep == 0.0 then 0 else Ceil((jd - EPOCH) / policy.scanStep)
  }

  function TrackOf(source: EphemerisSource, body: TransitingBody, liftStep: PositiveDays, policy: BodyScanPolicy): (k: Track)
    ensures Answers(k, source, body, liftStep) && k.policy == policy
  {
    Track(
      jd => Lon(source, body, jd),
      jd => Speed(source, body, jd),
      jd => LiftedAt(source, body, liftStep, jd, Lon(source, body, jd)),
      width => policy.speedSlope * width / 2.0,
      index => Instant(policy.scanStep, index),
      jd => FirstIndex(policy, jd),
      jd => LastIndex(policy, jd),
      policy,
      MAX_STATION_PROBE_DEPTH)
  }

  // ----- Order -----

  ghost predicate Ascending(samples: seq<Sample>) {
    forall i, j :: 0 <= i < j < |samples| ==> samples[i].jd < samples[j].jd
  }

  ghost predicate Within(samples: seq<Sample>, lo: real, hi: real) {
    forall i :: 0 <= i < |samples| ==> lo < samples[i].jd < hi
  }

  lemma {:induction false} RefinedStaysInside(k: Track, lo: real, hi: real, sign: int)
    requires lo < hi
    ensures lo < k.Refined(lo, hi, sign) < hi
    decreases Seconds(hi - lo)
  {
    if hi - lo > STATION_TIME_TOLERANCE {
      var mid := (lo + hi) / 2.0;
      RefinedStaysInside(k, mid, hi, sign);
      RefinedStaysInside(k, lo, mid, sign);
    }
  }

  lemma {:induction false} SplicedIsOrdered(k: Track, a: Sample, b: Sample, depth: nat)
    requires a.jd < b.jd
    ensures Ascending(k.Spliced(a, b, depth)) && Within(k.Spliced(a, b, depth), a.jd, b.jd)
    decreases depth
  {
    if k.Closed(a, b) {
    } else if depth == 0 || b.jd - a.jd <= k.policy.stationSeparation {
      RefinedStaysInside(k, a.jd, b.jd, Sign(a.speed));
    } else {
      SplicedIsOrdered(k, a, k.Middle(a, b), depth - 1);
      SplicedIsOrdered(k, k.Middle(a, b), b, depth - 1);
    }
  }

  // ----- Completeness -----

  /** Two instants around a reversal are not both too fast for it. */
  ghost predicate SlowAroundReversals(k: Track, m: Motion, s: real, t: real) {
    ReversalBetween(m, s, t) ==> Min(Abs(m.speed(s)), Abs(m.speed(t))) <= k.shed(t - s)
  }

  /** The motion behind a track, as far as the station search depends on it. */
  ghost predicate Searchable(k: Track, m: Motion) {
    && Usable(k.policy)
    && (forall t :: k.speed(t) == m.speed(t))
    && (forall width :: 0.0 <= width ==> 0.0 <= k.shed(width))
    && (forall s, t {:trigger SlowAroundReversals(k, m, s, t)} :: s < t ==> SlowAroundReversals(k, m, s, t))
    && SpacedReversals(m, k.policy.stationSeparation)
  }

  ghost predicate Near(sample: Sample, z: real) {
    -HALF_STATION_TOLERANCE <= sample.jd - z <= HALF_STATION_TOLERANCE
  }

  /** The instants strictly between two others. */
  function Between(lo: real, hi: real): real -> bool {
    t => lo < t < hi
  }

  ghost predicate NearReversal(sample: Sample, m: Motion, inside: real -> bool) {
    exists z :: inside(z) && Reversal(m, z) && Near(sample, z)
  }

  ghost predicate Found(stations: seq<Sample>, z: real) {
    exists i :: 0 <= i < |stations| && Near(stations[i], z)
  }

  ghost predicate FoundTwice(stations: seq<Sample>, z: real) {
    exists i, j :: 0 <= i < j < |stations| && Near(stations[i], z) && Near(stations[j], z)
  }

  /** Every reversal of a region has exactly one station within half the station tolerance, and
      there is no station elsewhere. */
  ghost predicate OnePerReversal(stations: seq<Sample>, m: Motion, inside: real -> bool) {
    && AllNearReversals(stations, m, inside)
    && (forall z :: inside(z) && Reversal(m, z) ==> Found(stations, z) && !FoundTwice(stations, z))
  }

  ghost predicate AllNearReversals(stations: seq<Sample>, m: Motion, inside: real -> bool) {
    forall i :: 0 <= i < |stations| ==> NearReversal(stations[i], m, inside)
  }

  /** Around a lone reversal the sign of the speed tells the side. */
  lemma SignTellsTheSide(k: Track, m: Motion, lo: real, hi: real, z: real, t: real)
    requires Searchable(k, m) && lo < z < hi <= lo + k.policy.stationSeparation
    requires Reversal(m, z) && !Reversal(m, lo) && lo < t < hi
    ensures m.speed(t) == 0.0 ==> t == z
    ensures m.speed(t) != 0.0 ==> (Sign(m.speed(t)) == Sign(m.speed(lo)) <==> t < z)
  {
    if !Reversal(m, t) {
      assert ReversalBetween(m, lo, t) <==> Sign(m.speed(lo)) != Sign(m.speed(t));
      assert z < t ==> ReversalBetween(m, lo, t);
    }
  }

  /** Bisection of the speed sign closes in on the reversal. */
  lemma {:induction false} RefinedFindsTheReversal(k: Track, m: Motion, start: real, end: real, lo: real, hi: real, z: real)
    requires Searchable(k, m) && start <= lo < z < hi <= end <= start + k.policy.stationSeparation
    requires Reversal(m, z) && !Reversal(m, start)
    ensures -HALF_STATION_TOLERANCE <= k.Refined(lo, hi, Sign(m.speed(start))) - z <= HALF_STATION_TOLERANCE
    decreases Seconds(hi - lo)
  {
    if hi - lo > STATION_TIME_TOLERANCE {
      var mid := (lo + hi) / 2.0;
      SignTellsTheSide(k, m, start, end, z, mid);
      if m.speed(mid) == 0.0 {
      } else if mid < z {
        RefinedFindsTheReversal(k, m, start, end, mid, hi, z);
      } else {
        RefinedFindsTheReversal(k, m, start, end, lo, mid, z);
      }
    }
  }

  /** An interval that cannot hold two reversals: one sign change, one station. */
  lemma NarrowIntervalIsSearched(k: Track, m: Motion, a: Sample, b: Sample)
    requires Searchable(k, m) && a.speed == m.speed(a.jd) != 0.0 && b.speed == m.speed(b.jd) != 0.0
    requires a.jd < b.jd <= a.jd + k.policy.stationSeparation
    ensures OnePerReversal(if k.SameSign(a, b) then [] else [k.StationBetween(a, b)], m, Between(a.jd, b.jd))
  {
    assert ReversalBetween(m, a.jd, b.jd) <==> Sign(m.speed(a.jd)) != Sign(m.speed(b.jd));
    if !k.SameSign(a, b) {
      var station := k.StationBetween(a, b);
      var z :| a.jd < z < b.jd && Reversal(m, z);
      RefinedFindsTheReversal(k, m, a.jd, b.jd, a.jd, b.jd, z);
      assert Near([station][0], z);
      forall y | a.jd < y < b.jd && Reversal(m, y)
        ensures Found([station], y) && !FoundTwice([station], y)
      {
        assert y == z;
      }
    }
  }

  /** No instant lies in both regions. */
  ghost predicate Apart(a: real -> bool, b: real -> bool) {
    forall z :: !(a(z) && b(z))
  }

  lemma NearOnlyOnItsOwnSide(
    m: Motion, separation: real, left: seq<Sample>, right: seq<Sample>, a: real -> bool, b: real -> bool, i: int, z: real)
    requires SpacedReversals(m, separation) && STATION_TIME_TOLERANCE < separation && Apart(a, b)
    requires AllNearReversals(left, m, a) && AllNearReversals(right, m, b)
    requires 0 <= i < |left + right| && Near((left + right)[i], z)
    requires (a(z) || b(z)) && Reversal(m, z)
    ensures i < |left| <==> a(z)
  {
    if i < |left| {
      var y :| a(y) && Reversal(m, y) && Near(left[i], y);
      assert y == z;
    } else {
      var y :| b(y) && Reversal(m, y) && Near(right[i - |left|], y);
      assert y == z;
    }
  }

  lemma FoundOnTheLeft(left: seq<Sample>, right: seq<Sample>, z: real)
    ensures Found(left, z) ==> Found(left + right, z)
    ensures FoundTwice(left, z) ==> FoundTwice(left + right, z)
  {
    var all := left + right;
    if Found(left, z) {
      var i :| 0 <= i < |left| && Near(left[i], z);
      assert Near(all[i], z);
    }
    if FoundTwice(left, z) {
      var i, j :| 0 <= i < j < |left| && Near(left[i], z) && Near(left[j], z);
      assert Near(all[i], z) && Near(all[j], z);
    }
  }

  lemma FoundOnTheRight(left: seq<Sample>, right: seq<Sample>, z: real)
    ensures Found(right, z) ==> Found(left + right, z)
    ensures FoundTwice(right, z) ==> FoundTwice(left + right, z)
  {
    var all := left + right;
    if Found(right, z) {
      var i :| 0 <= i < |right| && Near(right[i], z);
      assert Near(all[|left| + i], z);
    }
    if FoundTwice(right, z) {
      var i, j :| 0 <= i < j < |right| && Near(right[i], z) && Near(right[j], z);
      assert Near(all[|left| + i], z) && Near(all[|left| + j], z);
    }
  }

  /** A reversal found twice on the joined list is found twice on its own side. */
  lemma FoundTwiceOnOneSide(
    m: Motion, separation: real, left: seq<Sample>, right: seq<Sample>, a: real -> bool, b: real -> bool, z: real)
    requires SpacedReversals(m, separation) && STATION_TIME_TOLERANCE < separation && Apart(a, b)
    requires AllNearReversals(left, m, a) && AllNearReversals(right, m, b)
    requires (a(z) || b(z)) && Reversal(m, z) && FoundTwice(left + right, z)
    ensures if a(z) then FoundTwice(left, z) else FoundTwice(right, z)
  {
    var i, j :| 0 <= i < j < |left + right| && Near((left + right)[i], z) && Near((left + right)[j], z);
    NearOnlyOnItsOwnSide(m, separation, left, right, a, b, i, z);
    NearOnlyOnItsOwnSide(m, separation, left, right, a, b, j, z);
    if a(z) {
      assert Near(left[i], z) && Near(left[j], z);
    } else {
      assert Near(right[i - |left|], z) && Near(right[j - |left|], z);
    }
  }

  /** Every reversal of the region `all` lies in `a` or in `b`, and conversely. */
  ghost predicate Cover(m: Motion, all: real -> bool, a: real -> bool, b: real -> bool) {
    forall z :: Reversal(m, z) ==> (all(z) <==> a(z) || b(z))
  }

  lemma JoinedStation(
    m: Motion, left: seq<Sample>, right: seq<Sample>, all: real -> bool, a: real -> bool, b: real -> bool, i: int)
    requires Cover(m, all, a, b) && AllNearReversals(left, m, a) && AllNearReversals(right, m, b)
    requires 0 <= i < |left + right|
    ensures NearReversal((left + right)[i], m, all)
  {
    if i < |left| {
      assert NearReversal(left[i], m, a);
    } else {
      assert NearReversal(right[i - |left|], m, b);
    }
  }

  lemma JoinedReversal(
    m: Motion, separation: real, left: seq<Sample>, right: seq<Sample>, a: real -> bool, b: real -> bool, z: real)
    requires SpacedReversals(m, separation) && STATION_TIME_TOLERANCE < separation && Apart(a, b)
    requires OnePerReversal(left, m, a) && OnePerReversal(right, m, b)
    requires (a(z) || b(z)) && Reversal(m, z)
    ensures Found(left + right, z) && !FoundTwice(left + right, z)
  {
    FoundOnTheLeft(left, right, z);
    FoundOnTheRight(left, right, z);
    if FoundTwice(left + right, z) {
      FoundTwiceOnOneSide(m, separation, left, right, a, b, z);
    }
  }

  /** Searches of two separate regions join into a search of both. */
  lemma SearchesJoin(
    m: Motion, separation: real, left: seq<Sample>, right: seq<Sample>, all: real -> bool, a: real -> bool, b: real -> bool)
    requires SpacedReversals(m, separation) && STATION_TIME_TOLERANCE < separation
    requires Apart(a, b) && Cover(m, all, a, b)
    requires OnePerReversal(left, m, a) && OnePerReversal(right, m, b)
    ensures OnePerReversal(left + right, m, all)
  {
    forall i | 0 <= i < |left + right|
      ensures NearReversal((left + right)[i], m, all)
    {
      JoinedStation(m, left, right, all, a, b, i);
    }
    forall z | all(z) && Reversal(m, z)
      ensures Found(left + right, z) && !FoundTwice(left + right, z)
    {
      JoinedReversal(m, separation, left, right, a, b, z);
    }
  }

  lemma {:induction false} SearchIsComplete(k: Track, m: Motion, a: Sample, b: Sample, depth: nat)
    requires Searchable(k, m) && a.speed == m.speed(a.jd) != 0.0 && b.speed == m.speed(b.jd) != 0.0
    requires STATION_TIME_TOLERANCE < b.jd - a.jd <= Doubled(k.policy.stationSeparation, depth)
    requires k.NoZeroProbe(a, b, depth)
    ensures OnePerReversal(k.Spliced(a, b, depth), m, Between(a.jd, b.jd))
    decreases depth
  {
    if k.Closed(a, b) {
      assert SlowAroundReversals(k, m, a.jd, b.jd);
    } else if depth == 0 || b.jd - a.jd <= k.policy.stationSeparation {
      NarrowIntervalIsSearched(k, m, a, b);
    } else {
      var mid := k.Middle(a, b);
      SearchIsComplete(k, m, a, mid, depth - 1);
      SearchIsComplete(k, m, mid, b, depth - 1);
      SearchesJoin(m, k.policy.stationSeparation, k.Spliced(a, mid, depth - 1), k.Spliced(mid, b, depth - 1),
                   Between(a.jd, b.jd), Between(a.jd, mid.jd), Between(mid.jd, b.jd));
    }
  }

  lemma SharesAddUp(slope: real, x: real, y: real, p: real, q: real)
    requires p <= slope * x && q <= slope * y
    ensures Min(p, q) <= slope * (x + y) / 2.0
  {
    assert slope * (x + y) == slope * x + slope * y;
  }

  lemma SlowNearAReversal(m: Motion, slope: real, s: real, z: real, t: real)
    requires Lipschitz(m.speed, slope) && Reversal(m, z) && s < z < t
    ensures Min(Abs(m.speed(s)), Abs(m.speed(t))) <= slope * (t - s) / 2.0
  {
    assert m.speed(z) == 0.0;
    assert Abs(m.speed(s)) <= slope * (z - s);
    assert Abs(m.speed(t)) <= slope * (t - z);
    SharesAddUp(slope, z - s, t - z, Abs(m.speed(s)), Abs(m.speed(t)));
    assert (z - s) + (t - z) == t - s;
  }

  lemma NonnegativeShare(slope: real, width: real)
    requires 0.0 <= slope && 0.0 <= width
    ensures 0.0 <= slope * width / 2.0
  {
  }

  lemma SlopeSlowsTheTrack(k: Track, m: Motion, s: real, t: real)
    requires Lipschitz(m.speed, k.policy.speedSlope) && ShedsAt(k, t - s)
    ensures SlowAroundReversals(k, m, s, t)
  {
    if ReversalBetween(m, s, t) {
      var z :| s < z < t && Reversal(m, z);
      SlowNearAReversal(m, k.policy.speedSlope, s, z, t);
    }
  }

  /** A speed that changes by at most the policy's slope gives a track with the search's premises. */
  lemma SlopeBoundsTheTrack(k: Track, m: Motion)
    requires Usable(k.policy)
    requires forall t :: k.speed(t) == m.speed(t)
    requires forall width {:trigger ShedsAt(k, width)} :: ShedsAt(k, width)
    requires Lipschitz(m.speed, k.policy.speedSlope) && SpacedReversals(m, k.policy.stationSeparation)
    ensures Searchable(k, m)
  {
    forall s, t | s < t
      ensures SlowAroundReversals(k, m, s, t)
    {
      assert ShedsAt(k, t - s);
      SlopeSlowsTheTrack(k, m, s, t);
    }
    forall width | 0.0 <= width
      ensures 0.0 <= k.shed(width)
    {
      assert ShedsAt(k, width);
      NonnegativeShare(k.policy.speedSlope, width);
    }
  }

  // ----- A probe that lands on a standstill -----

  /** Every probe falls short of a standstill at `hi`, so the bisection runs up to it. */
  lemma {:induction false} RefinedRunsUpTo(k: Track, m: Motion, start: real, lo: real, hi: real)
    requires Searchable(k, m) && start <= lo < hi <= start + k.policy.stationSeparation
    requires !Reversal(m, start) && Reversal(m, hi)
    ensures hi - k.Refined(lo, hi, Sign(m.speed(start))) <= HALF_STATION_TOLERANCE
    decreases Seconds(hi - lo)
  {
    if hi - lo > STATION_TIME_TOLERANCE {
      var mid := (lo + hi) / 2.0;
      assert !Reversal(m, mid);
      assert !ReversalBetween(m, start, mid);
      RefinedRunsUpTo(k, m, start, mid, hi);
    }
  }

  /** A bisection that starts on a standstill runs back down to it. */
  lemma {:induction false} RefinedRunsDownTo(k: Track, m: Motion, lo: real, hi: real)
    requires Searchable(k, m) && lo < hi <= lo + k.policy.stationSeparation && Reversal(m, lo)
    ensures k.Refined(lo, hi, 0) - lo <= HALF_STATION_TOLERANCE
    decreases Seconds(hi - lo)
  {
    if hi - lo > STATION_TIME_TOLERANCE {
      var mid := (lo + hi) / 2.0;
      assert !Reversal(m, mid);
      RefinedRunsDownTo(k, m, lo, mid);
    }
  }

  ghost predicate StartsNear(stations: seq<Sample>, z: real) {
    stations != [] && Near(stations[0], z)
  }

  ghost predicate EndsNear(stations: seq<Sample>, z: real) {
    stations != [] && Near(stations[|stations| - 1], z)
  }

  lemma StandstillIsNotClosed(k: Track, a: Sample, b: Sample)
    requires STATION_TIME_TOLERANCE < b.jd - a.jd && 0.0 <= k.shed(b.jd - a.jd)
    requires a.speed == 0.0 || b.speed == 0.0
    ensures !k.Closed(a, b)
  {
  }

  lemma {:induction false} StationBelowAStandstill(k: Track, m: Motion, a: Sample, b: Sample, depth: nat)
    requires Searchable(k, m) && a.speed == m.speed(a.jd) && b.speed == m.speed(b.jd) == 0.0
    requires STATION_TIME_TOLERANCE < b.jd - a.jd <= Doubled(k.policy.stationSeparation, depth)
    ensures EndsNear(k.Spliced(a, b, depth), b.jd)
    decreases depth
  {
    StandstillIsNotClosed(k, a, b);
    if depth == 0 || b.jd - a.jd <= k.policy.stationSeparation {
      assert Reversal(m, b.jd);
      assert !Reversal(m, a.jd);
      RefinedRunsUpTo(k, m, a.jd, a.jd, b.jd);
      RefinedStaysInside(k, a.jd, b.jd, Sign(a.speed));
      assert k.Spliced(a, b, depth) == [k.StationBetween(a, b)];
    } else {
      StationBelowAStandstill(k, m, k.Middle(a, b), b, depth - 1);
      assert k.Spliced(a, b, depth) == k.Spliced(a, k.Middle(a, b), depth - 1) + k.Spliced(k.Middle(a, b), b, depth - 1);
    }
  }

  lemma {:induction false} StationAboveAStandstill(k: Track, m: Motion, a: Sample, b: Sample, depth: nat)
    requires Searchable(k, m) && a.speed == m.speed(a.jd) == 0.0 && b.speed == m.speed(b.jd)
    requires STATION_TIME_TOLERANCE < b.jd - a.jd <= Doubled(k.policy.stationSeparation, depth)
    ensures StartsNear(k.Spliced(a, b, depth), a.jd)
    decreases depth
  {
    StandstillIsNotClosed(k, a, b);
    if depth == 0 || b.jd - a.jd <= k.policy.stationSeparation {
      assert Reversal(m, a.jd);
      assert !Reversal(m, b.jd);
      RefinedRunsDownTo(k, m, a.jd, b.jd);
      RefinedStaysInside(k, a.jd, b.jd, 0);
      assert k.Spliced(a, b, depth) == [k.StationBetween(a, b)];
    } else {
      StationAboveAStandstill(k, m, a, k.Middle(a, b), depth - 1);
      assert k.Spliced(a, b, depth) == k.Spliced(a, k.Middle(a, b), depth - 1) + k.Spliced(k.Middle(a, b), b, depth - 1);
    }
  }

  lemma FoundAcrossTheSeam(left: seq<Sample>, right: seq<Sample>, z: real)
    requires EndsNear(left, z) && StartsNear(right, z)
    ensures FoundTwice(left + right, z)
  {
    var all := left + right;
    assert Near(all[|left| - 1], z) && Near(all[|left|], z);
  }

  lemma {:induction false} StandstillIsFoundTwice(k: Track, m: Motion, a: Sample, mid: Sample, b: Sample, depth: nat)
    requires Searchable(k, m) && a.speed == m.speed(a.jd) && mid.speed == m.speed(mid.jd) == 0.0 && b.speed == m.speed(b.jd)
    requires STATION_TIME_TOLERANCE < mid.jd - a.jd <= Doubled(k.policy.stationSeparation, depth)
    requires STATION_TIME_TOLERANCE < b.jd - mid.jd <= Doubled(k.policy.stationSeparation, depth)
    ensures FoundTwice(k.Spliced(a, mid, depth) + k.Spliced(mid, b, depth), mid.jd)
  {
    StationBelowAStandstill(k, m, a, mid, depth);
    StationAboveAStandstill(k, m, mid, b, depth);
    FoundAcrossTheSeam(k.Spliced(a, mid, depth), k.Spliced(mid, b, depth), mid.jd);
  }

  /** Whatever the ends and the midpoints do, no reversal between the ends is missed. */
  lemma {:induction false} SearchMissesNothing(k: Track, m: Motion, a: Sample, b: Sample, depth: nat, z: real)
    requires Searchable(k, m) && a.speed == m.speed(a.jd) && b.speed == m.speed(b.jd)
    requires STATION_TIME_TOLERANCE < b.jd - a.jd <= Doubled(k.policy.stationSeparation, depth)
    requires a.jd < z < b.jd && Reversal(m, z)
    ensures Found(k.Spliced(a, b, depth), z)
    decreases depth
  {
    assert SlowAroundReversals(k, m, a.jd, b.jd) && ReversalBetween(m, a.jd, b.jd);
    if depth == 0 || b.jd - a.jd <= k.policy.stationSeparation {
      assert !Reversal(m, a.jd) && !Reversal(m, b.jd);
      NarrowIntervalIsSearched(k, m, a, b);
      assert Between(a.jd, b.jd)(z);
    } else {
      var mid := k.Middle(a, b);
      var left, right := k.Spliced(a, mid, depth - 1), k.Spliced(mid, b, depth - 1);
      FoundOnTheLeft(left, right, z);
      FoundOnTheRight(left, right, z);
      if z < mid.jd {
        SearchMissesNothing(k, m, a, mid, depth - 1, z);
      } else if mid.jd < z {
        SearchMissesNothing(k, m, mid, b, depth - 1, z);
      } else {
        StationBelowAStandstill(k, m, a, mid, depth - 1);
        assert Near(left[|left| - 1], z);
      }
    }
  }

  /** A visited midpoint of speed exactly zero is spliced in from both sides. */
  lemma {:induction false} ZeroProbeIsFoundTwice(k: Track, m: Motion, a: Sample, b: Sample, depth: nat) returns (z: real)
    requires Searchable(k, m) && a.speed == m.speed(a.jd) != 0.0 && b.speed == m.speed(b.jd) != 0.0
    requires STATION_TIME_TOLERANCE < b.jd - a.jd <= Doubled(k.policy.stationSeparation, depth)
    requires !k.NoZeroProbe(a, b, depth)
    ensures a.jd < z < b.jd && Reversal(m, z) && FoundTwice(k.Spliced(a, b, depth), z)
    decreases depth
  {
    var mid := k.Middle(a, b);
    var left := k.Spliced(a, mid, depth - 1);
    var right := k.Spliced(mid, b, depth - 1);
    var all := k.Spliced(a, b, depth);
    assert all == left + right;
    if mid.speed == 0.0 {
      z := mid.jd;
      StandstillIsFoundTwice(k, m, a, mid, b, depth - 1);
    } else if !k.NoZeroProbe(a, mid, depth - 1) {
      z := ZeroProbeIsFoundTwice(k, m, a, mid, depth - 1);
      FoundOnTheLeft(left, right, z);
    } else {
      z := ZeroProbeIsFoundTwice(k, m, mid, b, depth - 1);
      FoundOnTheRight(left, right, z);
    }
  }

  /** The search finds every reversal exactly once, and nothing else, exactly when none of the
      midpoints it visits has speed zero. */
  lemma {:induction false} SearchIsExactIffNoZeroProbe(k: Track, m: Motion, a: Sample, b: Sample, depth: nat)
    requires Searchable(k, m) && a.speed == m.speed(a.jd) != 0.0 && b.speed == m.speed(b.jd) != 0.0
    requires STATION_TIME_TOLERANCE < b.jd - a.jd <= Doubled(k.policy.stationSeparation, depth)
    ensures OnePerReversal(k.Spliced(a, b, depth), m, Between(a.jd, b.jd)) <==> k.NoZeroProbe(a, b, depth)
  {
    if k.NoZeroProbe(a, b, depth) {
      SearchIsComplete(k, m, a, b, depth);
    } else {
      var z := ZeroProbeIsFoundTwice(k, m, a, b, depth);
      assert Between(a.jd, b.jd)(z);
    }
  }
}
