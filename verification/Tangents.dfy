/** Which way a body leaves a standstill, and what the samples say about it. */
module Tangents {
  import opened Optional
  import opened Angles
  import opened CyclePolicy
  import opened Sky
  import opened Stations
  import opened Sampling
  import opened SampleLists

  // ----- The way out -----

  /** Just after `z` the body is behind where it stood. */
  ghost predicate LeavesBackwards(m: Motion, z: real) {
    exists end :: z < end && BehindUntil(m, z, end)
  }

  ghost predicate BehindUntil(m: Motion, z: real, end: real) {
    forall x :: z < x <= end ==> m.lift(x) < m.lift(z)
  }

  /** The way a body leaves a standstill. */
  ghost function Way(m: Motion, z: real): PassDirection {
    if LeavesBackwards(m, z) then Retrograde else Direct
  }

  lemma SameSignUntil(m: Motion, z: real, x: real, end: real)
    requires Continuous(m.speed) && z < x <= end && forall y :: z < y <= end ==> !Reversal(m, y)
    ensures Sign(m.speed(x)) == Sign(m.speed(end)) != 0
  {
    if Sign(m.speed(x)) != Sign(m.speed(end)) {
      assert !Reversal(m, x) && !Reversal(m, end);
      assert Attains(m.speed, x, end, 0.0);
      var y :| x <= y <= end && m.speed(y) == 0.0;
      assert Reversal(m, y);
    }
  }

  lemma MeanKeepsItsSign(m: Motion, z: real, x: real, sign: int)
    requires z < x && MeanSpeedTaken(m, z, x) && forall y :: z < y < x ==> Sign(m.speed(y)) == sign
    ensures Sign(m.lift(x) - m.lift(z)) == sign
  {
    var y :| z < y < x && m.lift(x) - m.lift(z) == m.speed(y) * (x - z);
    SignOfProduct(m.speed(y), x - z);
  }

  lemma SignOfProduct(v: real, d: real)
    requires 0.0 < d
    ensures Sign(v * d) == Sign(v)
  {
  }

  /** A body that does not turn before `end` leaves the way it then moves. */
  lemma LeavesAsItMoves(m: Motion, z: real, end: real)
    requires Smooth(m) && z < end && forall y :: z < y <= end ==> !Reversal(m, y)
    ensures m.speed(end) != 0.0
    ensures Way(m, z) == if m.speed(end) < 0.0 then Retrograde else Direct
  {
    var sign := Sign(m.speed(end));
    assert !Reversal(m, end);
    forall x | z < x <= end
      ensures Sign(m.lift(x) - m.lift(z)) == sign
    {
      forall y | z < y < x
        ensures Sign(m.speed(y)) == sign
      {
        SameSignUntil(m, z, y, end);
      }
      assert MeanSpeedTaken(m, z, x);
      MeanKeepsItsSign(m, z, x, sign);
    }
    WayIsTheSide(m, z, end, sign);
  }

  lemma WayIsTheSide(m: Motion, z: real, end: real, sign: int)
    requires z < end && sign != 0 && forall x :: z < x <= end ==> Sign(m.lift(x) - m.lift(z)) == sign
    ensures LeavesBackwards(m, z) <==> sign < 0
  {
    if sign < 0 {
      assert BehindUntil(m, z, end);
    } else if LeavesBackwards(m, z) {
      var until :| z < until && BehindUntil(m, z, until);
      var x := Min(end, until);
      var side := Sign(m.lift(x) - m.lift(z));
    }
  }

  // ----- Stations -----

  /** `z` is a midpoint that the search between two samples visits. */
  ghost predicate Visits(k: Track, a: Sample, b: Sample, depth: nat, z: real)
    decreases depth
  {
    && !k.Closed(a, b) && depth != 0 && k.policy.stationSeparation < b.jd - a.jd
    && (|| z == k.Middle(a, b).jd
        || Visits(k, a, k.Middle(a, b), depth - 1, z)
        || Visits(k, k.Middle(a, b), b, depth - 1, z))
  }

  /** The station stands for a standstill between `lo` and `hi` and says which way the body leaves it; at a
      probed standstill it may say backwards whichever way that is. */
  ghost predicate TellsTheWay(m: Motion, lo: real, hi: real, probed: real -> bool, station: Sample, z: real) {
    && lo <= z <= hi && Reversal(m, z) && Near(station, z)
    && (station.direction == Some(Way(m, z)) || (probed(z) && station.direction == Some(Retrograde)))
  }

  ghost predicate TellsAWay(m: Motion, lo: real, hi: real, probed: real -> bool, station: Sample) {
    exists z :: TellsTheWay(m, lo, hi, probed, station, z)
  }

  lemma LoneReversal(m: Motion, separation: real, z: real, end: real)
    requires SpacedReversals(m, separation) && Reversal(m, z) && z < end <= z + separation
    ensures forall y :: z < y <= end ==> !Reversal(m, y)
  {
  }

  lemma {:induction false} StationTellsTheWay(k: Track, m: Motion, a: Sample, b: Sample, probed: real -> bool)
    requires Searchable(k, m) && Smooth(m) && a.speed == m.speed(a.jd) && b.speed == m.speed(b.jd)
    requires a.jd < b.jd <= a.jd + k.policy.stationSeparation && !k.SameSign(a, b)
    requires b.speed == 0.0 ==> probed(b.jd)
    ensures TellsAWay(m, a.jd, b.jd, probed, k.StationBetween(a, b))
  {
    var station := k.StationBetween(a, b);
    RefinedStaysInside(k, a.jd, b.jd, Sign(a.speed));
    if b.speed == 0.0 {
      RefinedRunsUpTo(k, m, a.jd, a.jd, b.jd);
      assert TellsTheWay(m, a.jd, b.jd, probed, station, b.jd);
    } else if a.speed == 0.0 {
      assert Reversal(m, a.jd);
      RefinedRunsDownTo(k, m, a.jd, b.jd);
      LoneReversal(m, k.policy.stationSeparation, a.jd, b.jd);
      LeavesAsItMoves(m, a.jd, b.jd);
      assert TellsTheWay(m, a.jd, b.jd, probed, station, a.jd);
    } else {
      assert ReversalBetween(m, a.jd, b.jd);
      var z :| a.jd < z < b.jd && Reversal(m, z);
      RefinedFindsTheReversal(k, m, a.jd, b.jd, a.jd, b.jd, z);
      LoneReversal(m, k.policy.stationSeparation, z, b.jd);
      LeavesAsItMoves(m, z, b.jd);
      assert TellsTheWay(m, a.jd, b.jd, probed, station, z);
    }
  }

  lemma WiderTells(m: Motion, lo: real, hi: real, wideLo: real, wideHi: real, probed: real -> bool, station: Sample)
    requires wideLo <= lo && hi <= wideHi && TellsAWay(m, lo, hi, probed, station)
    ensures TellsAWay(m, wideLo, wideHi, probed, station)
  {
    var z :| TellsTheWay(m, lo, hi, probed, station, z);
    assert TellsTheWay(m, wideLo, wideHi, probed, station, z);
  }

  /** Every station that the search splices in tells the way. */
  lemma {:induction false} SplicedTellTheWay(
    k: Track, m: Motion, a: Sample, b: Sample, depth: nat, probed: real -> bool, station: Sample)
    requires Searchable(k, m) && Smooth(m) && a.speed == m.speed(a.jd) && b.speed == m.speed(b.jd)
    requires a.jd < b.jd && b.jd - a.jd <= Doubled(k.policy.stationSeparation, depth)
    requires b.speed == 0.0 ==> probed(b.jd)
    requires forall z :: Visits(k, a, b, depth, z) ==> probed(z)
    requires station in k.Spliced(a, b, depth)
    ensures TellsAWay(m, a.jd, b.jd, probed, station)
    decreases depth
  {
    if depth == 0 || b.jd - a.jd <= k.policy.stationSeparation {
      StationTellsTheWay(k, m, a, b, probed);
    } else {
      var mid := k.Middle(a, b);
      assert Visits(k, a, b, depth, mid.jd);
      if station in k.Spliced(a, mid, depth - 1) {
        forall z | Visits(k, a, mid, depth - 1, z) ensures probed(z) { assert Visits(k, a, b, depth, z); }
        SplicedTellTheWay(k, m, a, mid, depth - 1, probed, station);
        WiderTells(m, a.jd, mid.jd, a.jd, b.jd, probed, station);
      } else {
        forall z | Visits(k, mid, b, depth - 1, z) ensures probed(z) { assert Visits(k, a, b, depth, z); }
        SplicedTellTheWay(k, m, mid, b, depth - 1, probed, station);
        WiderTells(m, mid.jd, b.jd, a.jd, b.jd, probed, station);
      }
    }
  }

  /** One station alone: it says the way the body leaves unless it was closed in on from a standstill that the
      body leaves forwards. */
  lemma StationIsRightIff(k: Track, m: Motion, a: Sample, b: Sample) returns (z: real)
    requires Searchable(k, m) && Smooth(m) && a.speed == m.speed(a.jd) && b.speed == m.speed(b.jd)
    requires a.jd < b.jd <= a.jd + k.policy.stationSeparation && !k.SameSign(a, b)
    ensures Reversal(m, z) && Near(k.StationBetween(a, b), z)
    ensures k.StationBetween(a, b).direction == Some(Way(m, z)) <==> b.speed != 0.0 || LeavesBackwards(m, z)
  {
    StationTellsTheWay(k, m, a, b, t => t == b.jd && b.speed == 0.0);
    z :| TellsTheWay(m, a.jd, b.jd, t => t == b.jd && b.speed == 0.0, k.StationBetween(a, b), z);
    if b.speed == 0.0 {
      assert Reversal(m, b.jd) && Reversal(m, z);
    }
  }

  lemma NotNearBeyond(m: Motion, separation: real, lo: real, hi: real, probed: real -> bool, station: Sample, z: real)
    requires SpacedReversals(m, separation) && STATION_TIME_TOLERANCE < separation
    requires TellsAWay(m, lo, hi, probed, station) && hi < z && Reversal(m, z)
    ensures !Near(station, z)
  {
    var y :| TellsTheWay(m, lo, hi, probed, station, y);
    assert Reversal(m, y) && y < z;
  }

  lemma {:induction false} SplicedAreNotNearBeyond(k: Track, m: Motion, a: Sample, b: Sample, depth: nat, station: Sample, z: real)
    requires Searchable(k, m) && Smooth(m) && a.speed == m.speed(a.jd) && b.speed == m.speed(b.jd)
    requires a.jd < b.jd && b.jd - a.jd <= Doubled(k.policy.stationSeparation, depth)
    requires station in k.Spliced(a, b, depth) && b.jd < z && Reversal(m, z)
    ensures !Near(station, z)
  {
    SplicedTellTheWay(k, m, a, b, depth, t => true, station);
    NotNearBeyond(m, k.policy.stationSeparation, a.jd, b.jd, t => true, station, z);
  }

  lemma NarrowStation(k: Track, a: Sample, b: Sample, depth: nat, station: Sample)
    requires station in k.Spliced(a, b, depth) && (depth == 0 || b.jd - a.jd <= k.policy.stationSeparation)
    ensures station == k.StationBetween(a, b)
  {
  }

  lemma HalvedStation(k: Track, a: Sample, b: Sample, depth: nat, station: Sample)
    requires station in k.Spliced(a, b, depth) && depth != 0 && k.policy.stationSeparation < b.jd - a.jd
    ensures station in k.Spliced(a, k.Middle(a, b), depth - 1) || station in k.Spliced(k.Middle(a, b), b, depth - 1)
  {
  }

  /** Every station that the search finds just below a standstill it has landed on is called retrograde. */
  lemma {:induction false} BelowAStandstillIsRetrograde(k: Track, m: Motion, a: Sample, b: Sample, depth: nat, station: Sample)
    requires Searchable(k, m) && Smooth(m) && a.speed == m.speed(a.jd) && b.speed == m.speed(b.jd) == 0.0
    requires a.jd < b.jd && b.jd - a.jd <= Doubled(k.policy.stationSeparation, depth)
    requires station in k.Spliced(a, b, depth) && Near(station, b.jd)
    ensures station.direction == Some(Retrograde)
    decreases depth
  {
    if depth == 0 || b.jd - a.jd <= k.policy.stationSeparation {
      NarrowStation(k, a, b, depth, station);
    } else {
      var mid := k.Middle(a, b);
      HalvedStation(k, a, b, depth, station);
      if station in k.Spliced(mid, b, depth - 1) {
        BelowAStandstillIsRetrograde(k, m, mid, b, depth - 1, station);
      } else {
        SplicedAreNotNearBeyond(k, m, a, mid, depth - 1, station, b.jd);
      }
    }
  }

  // ----- Grid standstills -----

  /** Between two grid instants the body stands still at every one. */
  ghost predicate StandsBetween(k: Track, m: Motion, i: int, j: int) {
    forall l :: i < l < j ==> m.speed(k.grid(l)) == 0.0
  }

  /** The first grid instant after `i` at which the body moves, up to `last`. */
  ghost predicate MovesNextAt(k: Track, m: Motion, i: int, j: int, last: int) {
    i < j <= last && m.speed(k.grid(j)) != 0.0 && StandsBetween(k, m, i, j)
  }

  lemma {:induction false} FollowingIsTheNextMove(k: Track, m: Motion, i: int, at: int, last: int)
    requires Searchable(k, m) && i < at && StandsBetween(k, m, i, at)
    ensures forall j :: MovesNextAt(k, m, i, j, last) ==>
      Following(k, at, last) == Some(if m.speed(k.grid(j)) < 0.0 then Retrograde else Direct)
    ensures (forall j :: !MovesNextAt(k, m, i, j, last)) ==> Following(k, at, last) == None
    decreases last - at
  {
    if at <= last {
      var t := k.grid(at);
      assert m.speed(t) == k.speed(t);
      if k.speed(t) != 0.0 {
        assert MovesNextAt(k, m, i, at, last);
        forall j | MovesNextAt(k, m, i, j, last) ensures j == at { }
      } else {
        assert StandsBetween(k, m, i, at + 1);
        FollowingIsTheNextMove(k, m, i, at + 1, last);
        forall j | MovesNextAt(k, m, i, j, last) ensures j != at { }
      }
    }
  }

  // ----- What a sampled tangent is called -----

  /** At grid index `i`, where the body stands still, the tangent is called retrograde exactly if the body moves
      backwards at the next grid instant of the span at which it moves; that is the way it leaves, if it does not
      turn before. */
  ghost predicate ToldOnTheGrid(k: Track, m: Motion, i: int, last: int, direction: PassDirection) {
    && m.speed(k.grid(i)) == 0.0
    && (direction == Retrograde <==> exists j :: MovesNextAt(k, m, i, j, last) && m.speed(k.grid(j)) < 0.0)
    && (forall j :: MovesNextAt(k, m, i, j, last) && !ReversalBetween(m, k.grid(i), k.grid(j)) ==> direction == Way(m, k.grid(i)))
  }

  /** Inside the gap after grid index `i`, the tangent stands for a standstill within half a second, and is called
      by the way the body leaves it, except that at a visited midpoint it may be called retrograde all the same. */
  ghost predicate ToldInTheGap(k: Track, m: Motion, i: int, jd: real, direction: PassDirection) {
    exists z :: ToldAt(k, m, i, jd, direction, z)
  }

  ghost predicate ToldAt(k: Track, m: Motion, i: int, jd: real, direction: PassDirection, z: real) {
    && k.grid(i) <= z <= k.grid(i + 1) && m.speed(z) == 0.0 && Abs(jd - z) <= HALF_STATION_TOLERANCE
    && (direction == Way(m, z)
        || (Visits(k, GridSample(k, i), GridSample(k, i + 1), k.probeDepth, z) && direction == Retrograde))
  }

  ghost predicate TangentTold(k: Track, m: Motion, first: int, last: int, jd: real, direction: PassDirection) {
    exists i :: first <= i <= last &&
      ((jd == k.grid(i) && ToldOnTheGrid(k, m, i, last, direction))
       || (i < last && k.grid(i) < jd < k.grid(i + 1) && ToldInTheGap(k, m, i, jd, direction)))
  }

  lemma {:induction false} GridStandstillIsTold(k: Track, m: Motion, i: int, last: int)
    requires Searchable(k, m) && Smooth(m) && GridSteps(k) && m.speed(k.grid(i)) == 0.0
    ensures ToldOnTheGrid(k, m, i, last, match Following(k, i + 1, last) case Some(d) => d case None => Direct)
  {
    var direction := match Following(k, i + 1, last) case Some(d) => d case None => Direct;
    FollowingIsTheNextMove(k, m, i, i + 1, last);
    forall j | MovesNextAt(k, m, i, j, last) && !ReversalBetween(m, k.grid(i), k.grid(j))
      ensures direction == Way(m, k.grid(i))
    {
      GridAscends(k, i, j);
      LeavesTheGrid(k, m, i, j);
    }
    if direction == Retrograde {
      assert exists j :: MovesNextAt(k, m, i, j, last);
    }
  }

  lemma LeavesTheGrid(k: Track, m: Motion, i: int, j: int)
    requires Smooth(m) && k.grid(i) < k.grid(j) && !ReversalBetween(m, k.grid(i), k.grid(j)) && m.speed(k.grid(j)) != 0.0
    ensures Way(m, k.grid(i)) == if m.speed(k.grid(j)) < 0.0 then Retrograde else Direct
  {
    forall y | k.grid(i) < y <= k.grid(j)
      ensures !Reversal(m, y)
    {
      assert y < k.grid(j) && Reversal(m, y) ==> ReversalBetween(m, k.grid(i), k.grid(j));
    }
    LeavesAsItMoves(m, k.grid(i), k.grid(j));
  }

  lemma {:induction false} GapStationIsTold(k: Track, m: Motion, i: int, station: Sample)
    requires Searchable(k, m) && Smooth(m) && GridSteps(k) && DepthReaches(k) && !Skipped(k, i) && station in Gap(k, i)
    ensures station.direction.Some? && k.grid(i) < station.jd < k.grid(i + 1)
    ensures ToldInTheGap(k, m, i, station.jd, station.direction.value)
  {
    var a, b := GridSample(k, i), GridSample(k, i + 1);
    assert k.grid(i + 1) == k.grid(i) + k.policy.scanStep;
    var probed := z => Visits(k, a, b, k.probeDepth, z);
    SplicedTellTheWay(k, m, a, b, k.probeDepth, probed, station);
    var z :| TellsTheWay(m, a.jd, b.jd, probed, station, z);
    SplicedIsOrdered(k, a, b, k.probeDepth);
    assert ToldAt(k, m, i, station.jd, station.direction.value, z);
  }

  /** Every sample marked as a station is a tangent told as above; every other sample is not one. */
  lemma {:induction false} SampledStationIsTold(k: Track, m: Motion, first: int, last: int, n: int)
    requires Searchable(k, m) && Smooth(m) && GridSteps(k) && DepthReaches(k) && 0 <= n < |Samples(k, first, last)|
    ensures var s := Samples(k, first, last)[n];
      if s.station then
        && TangentTold(k, m, first, last, s.jd, match s.direction case Some(d) => d case None => Direct)
        && (s.direction == None ==> m.speed(s.jd) == 0.0)
      else s.direction == None && m.speed(s.jd) != 0.0
  {
    var s := Samples(k, first, last)[n];
    var i := SampleHasASource(k, first, last, n);
    if s == Marked(k, i, last) {
      if m.speed(k.grid(i)) == 0.0 {
        GridStandstillIsTold(k, m, i, last);
      }
    } else {
      GapStationIsTold(k, m, i, s);
      SplicedAreStations(k, GridSample(k, i), GridSample(k, i + 1), k.probeDepth, s);
    }
  }

  lemma {:induction false} SplicedAreStations(k: Track, a: Sample, b: Sample, depth: nat, s: Sample)
    requires s in k.Spliced(a, b, depth)
    ensures s.station
    decreases depth
  {
    if depth != 0 && k.policy.stationSeparation < b.jd - a.jd {
      if s in k.Spliced(a, k.Middle(a, b), depth - 1) {
        SplicedAreStations(k, a, k.Middle(a, b), depth - 1, s);
      } else {
        SplicedAreStations(k, k.Middle(a, b), b, depth - 1, s);
      }
    }
  }
}
