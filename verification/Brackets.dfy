/** How the body moves between two neighbouring samples. */
module Brackets {
  import opened Angles
  import opened CyclePolicy
  import opened Sky
  import opened Stations
  import opened Sampling
  import opened SampleLists

  /** `f` stays within the angular zero tolerance of `y`. */
  ghost predicate StaysAt(f: real -> real, lo: real, hi: real, y: real) {
    forall t :: lo <= t <= hi ==> Abs(f(t) - y) <= ANGULAR_ZERO_TOLERANCE
  }

  ghost predicate TameWith(f: real -> real, a: real, b: real, lo: real, hi: real) {
    && a <= lo <= hi <= b
    && StaysAt(f, a, lo, f(a))
    && StrictlyMonotone(f, lo, hi)
    && StaysAt(f, hi, b, f(b))
  }

  /** Monotone, up to a sliver at either end in which the body has not moved beyond the zero tolerance. */
  ghost predicate Tame(f: real -> real, a: real, b: real) {
    exists lo, hi :: TameWith(f, a, b, lo, hi)
  }

  // ----- No reversal between: monotone -----

  lemma SameDirectionBetween(m: Motion, lo: real, hi: real, u: real, w: real)
    requires Smooth(m) && !ReversalBetween(m, lo, hi) && lo < u < hi && lo < w < hi
    ensures Sign(m.speed(u)) == Sign(m.speed(w)) != 0
  {
    assert !Reversal(m, u) && !Reversal(m, w);
    if Sign(m.speed(u)) != Sign(m.speed(w)) {
      assert Attains(m.speed, Min(u, w), Max(u, w), 0.0);
      var z :| Min(u, w) <= z <= Max(u, w) && m.speed(z) == 0.0;
      assert Reversal(m, z);
    }
  }

  lemma AverageSpeedInstant(m: Motion, s: real, t: real) returns (u: real)
    requires Smooth(m) && s < t
    ensures s < u < t && m.lift(t) - m.lift(s) == m.speed(u) * (t - s)
  {
    assert MeanSpeedTaken(m, s, t);
    u :| s < u < t && m.lift(t) - m.lift(s) == m.speed(u) * (t - s);
  }

  lemma MovesWithTheSpeed(m: Motion, lo: real, hi: real, c: real, s: real, t: real)
    requires Smooth(m) && !ReversalBetween(m, lo, hi) && lo < c < hi && lo <= s < t <= hi
    ensures m.speed(c) > 0.0 ==> m.lift(s) < m.lift(t)
    ensures m.speed(c) < 0.0 ==> m.lift(s) > m.lift(t)
  {
    var u := AverageSpeedInstant(m, s, t);
    SameDirectionBetween(m, lo, hi, c, u);
  }

  lemma NoReversalIsMonotone(m: Motion, lo: real, hi: real)
    requires Smooth(m) && lo <= hi && !ReversalBetween(m, lo, hi)
    ensures StrictlyMonotone(m.lift, lo, hi)
  {
    if lo < hi {
      var c := (lo + hi) / 2.0;
      SameDirectionBetween(m, lo, hi, c, c);
      forall s, t | lo <= s < t <= hi
        ensures if m.speed(c) > 0.0 then m.lift(s) < m.lift(t) else m.lift(s) > m.lift(t)
      {
        MovesWithTheSpeed(m, lo, hi, c, s, t);
      }
    }
  }

  // ----- Close to a reversal: hardly any motion -----

  lemma SmallProduct(v: real, bound: real, d: real, width: real, product: real)
    requires -bound <= v <= bound && 0.0 <= d <= width && product == v * d
    ensures -(bound * width) <= product <= bound * width
  {
    ProductOrder(d, v, bound);
    ProductOrder(d, -bound, v);
    ProductOrder(bound, d, width);
  }

  lemma TinyArc(policy: BodyScanPolicy)
    requires Usable(policy)
    ensures policy.speedSlope * HALF_STATION_TOLERANCE * HALF_STATION_TOLERANCE <= ANGULAR_ZERO_TOLERANCE
  {
  }

  lemma SlowNear(m: Motion, slope: real, z: real, u: real, width: real)
    requires 0.0 <= slope && Lipschitz(m.speed, slope) && Reversal(m, z)
    requires -width <= u - z <= width
    ensures -(slope * width) <= m.speed(u) <= slope * width
  {
    if u <= z {
      assert -(slope * (z - u)) <= m.speed(u) - m.speed(z) <= slope * (z - u);
      ProductOrder(slope, z - u, width);
    } else {
      assert -(slope * (u - z)) <= m.speed(z) - m.speed(u) <= slope * (u - z);
      ProductOrder(slope, u - z, width);
    }
  }

  /** Between two instants within `width` of a reversal the body moves at most `slope * width * width`. */
  lemma MovesLittle(m: Motion, slope: real, z: real, s: real, t: real, width: real)
    requires Smooth(m) && 0.0 <= slope && Lipschitz(m.speed, slope) && Reversal(m, z)
    requires s < t <= s + width && z - width <= s && t <= z + width
    ensures -(slope * width * width) <= m.lift(t) - m.lift(s) <= slope * width * width
  {
    var u := AverageSpeedInstant(m, s, t);
    SlowNear(m, slope, z, u, width);
    SmallProduct(m.speed(u), slope * width, t - s, width, m.lift(t) - m.lift(s));
  }

  /** Between two instants within half a station tolerance of a reversal, the body moves less
      than the zero tolerance. */
  lemma HardlyMoves(m: Motion, policy: BodyScanPolicy, z: real, s: real, t: real)
    requires Smooth(m) && Usable(policy) && Lipschitz(m.speed, policy.speedSlope) && Reversal(m, z)
    requires s <= t <= s + HALF_STATION_TOLERANCE
    requires z - HALF_STATION_TOLERANCE <= s && t <= z + HALF_STATION_TOLERANCE
    ensures Abs(m.lift(t) - m.lift(s)) <= ANGULAR_ZERO_TOLERANCE
  {
    if s < t {
      MovesLittle(m, policy.speedSlope, z, s, t, HALF_STATION_TOLERANCE);
      TinyArc(policy);
    }
  }

  ghost predicate ReversalsHugTheEnds(m: Motion, a: real, b: real) {
    forall z :: a < z < b && Reversal(m, z) ==> z - a <= HALF_STATION_TOLERANCE || b - z <= HALF_STATION_TOLERANCE
  }

  /** A bracket whose reversals lie within half a station tolerance of its ends is tame. */
  lemma HuggedBracketIsTame(m: Motion, policy: BodyScanPolicy, a: real, b: real)
    requires Smooth(m) && Usable(policy) && Lipschitz(m.speed, policy.speedSlope)
    requires SpacedReversals(m, policy.stationSeparation)
    requires a < b && ReversalsHugTheEnds(m, a, b)
    ensures Tame(m.lift, a, b)
  {
    var lo := a;
    if z :| a < z < b && Reversal(m, z) && z - a <= HALF_STATION_TOLERANCE {
      lo := z;
    }
    var hi := b;
    if z :| lo < z < b && Reversal(m, z) && b - z <= HALF_STATION_TOLERANCE {
      hi := z;
    }
    assert !ReversalBetween(m, lo, hi);
    NoReversalIsMonotone(m, lo, hi);
    forall t | a <= t <= lo
      ensures Abs(m.lift(t) - m.lift(a)) <= ANGULAR_ZERO_TOLERANCE
    {
      if a < lo { HardlyMoves(m, policy, lo, a, t); }
    }
    forall t | hi <= t <= b
      ensures Abs(m.lift(t) - m.lift(b)) <= ANGULAR_ZERO_TOLERANCE
    {
      if hi < b { HardlyMoves(m, policy, hi, t, b); }
    }
    assert TameWith(m.lift, a, b, lo, hi);
  }

  // ----- The brackets of a searched span -----

  lemma {:induction false} StationsOnlyMember(samples: seq<Sample>, i: int)
    requires 0 <= i < |StationsOnly(samples)|
    ensures StationsOnly(samples)[i] in samples
  {
    if samples[0].station {
      if i > 0 {
        StationsOnlyMember(samples[1..], i - 1);
      }
    } else {
      StationsOnlyMember(samples[1..], i);
    }
  }

  lemma {:induction false} FoundStationHugsAnEnd(samples: seq<Sample>, i: int, z: real)
    requires Ascending(samples) && 0 <= i < |samples| - 1 && samples[i].jd < z < samples[i + 1].jd
    requires Found(StationsOnly(samples), z)
    ensures z - samples[i].jd <= HALF_STATION_TOLERANCE || samples[i + 1].jd - z <= HALF_STATION_TOLERANCE
  {
    var j :| 0 <= j < |StationsOnly(samples)| && Near(StationsOnly(samples)[j], z);
    StationsOnlyMember(samples, j);
    var n :| 0 <= n < |samples| && samples[n] == StationsOnly(samples)[j];
    assert n < i ==> samples[n].jd < samples[i].jd;
    assert n > i + 1 ==> samples[i + 1].jd < samples[n].jd;
  }

  ghost predicate TameAt(m: Motion, samples: seq<Sample>, i: int)
    requires 0 <= i < |samples| - 1
  {
    Tame(m.lift, samples[i].jd, samples[i + 1].jd)
  }

  lemma {:induction false} InstantsDoNotSplit(samples: seq<Sample>, n: int, l: int)
    requires Ascending(samples) && 0 <= n < |samples| - 1 && 0 <= l < |samples|
    ensures samples[l].jd <= samples[n].jd || samples[n + 1].jd <= samples[l].jd
  {
    assert l < n ==> samples[l].jd < samples[n].jd;
    assert n + 1 < l ==> samples[n + 1].jd < samples[l].jd;
  }

  /** A bracket lies in one gap of the grid. */
  lemma {:induction false} BracketLiesInAGap(k: Track, first: int, last: int, n: int, z: real) returns (i: int)
    requires GridSteps(k) && first <= last && 0 <= n < |Samples(k, first, last)| - 1
    requires Samples(k, first, last)[n].jd < z < Samples(k, first, last)[n + 1].jd
    ensures first <= i < last && k.grid(i) <= Samples(k, first, last)[n].jd && Samples(k, first, last)[n + 1].jd <= k.grid(i + 1)
  {
    var samples := Samples(k, first, last);
    SamplesAreOrdered(k, first, last);
    assert samples[0].jd <= samples[n].jd && samples[n + 1].jd <= samples[|samples| - 1].jd;
    i := GridGapOf(k, first, last, z);
    var l := GridInstantIsASample(k, first, last, i);
    InstantsDoNotSplit(samples, n, l);
    var l' := GridInstantIsASample(k, first, last, i + 1);
    InstantsDoNotSplit(samples, n, l');
  }

  /** Whatever the midpoints do, the search leaves a bracket tame, unless it lies in a skipped gap that
      holds a reversal. */
  lemma {:induction false} SearchedBracketIsTame(k: Track, m: Motion, first: int, last: int, n: int)
    requires Searchable(k, m) && GridSteps(k) && DepthReaches(k) && first <= last
    requires Smooth(m) && Lipschitz(m.speed, k.policy.speedSlope) && 0 <= n < |Samples(k, first, last)| - 1
    requires SeenAround(k, m, first, last, Samples(k, first, last)[n].jd, Samples(k, first, last)[n + 1].jd)
    ensures Tame(m.lift, Samples(k, first, last)[n].jd, Samples(k, first, last)[n + 1].jd)
  {
    var samples := Samples(k, first, last);
    SamplesAreOrdered(k, first, last);
    var a, b := samples[n].jd, samples[n + 1].jd;
    forall z | a < z < b && Reversal(m, z)
      ensures z - a <= HALF_STATION_TOLERANCE || b - z <= HALF_STATION_TOLERANCE
    {
      var i := BracketLiesInAGap(k, first, last, n, z);
      assert GapIsSeen(k, m, i) && ReversalBetween(m, k.grid(i), k.grid(i + 1));
      SearchedReversalIsFound(k, m, first, last, i, z);
      FoundStationHugsAnEnd(samples, n, z);
    }
    HuggedBracketIsTame(m, k.policy, a, b);
  }

  // ----- Crossing a level inside a bracket -----

  /** On `[a, b]` the quantity is on one side of `level` before `c`, on the level at `c`, and on the
      other side after it. */
  ghost predicate CrossesOnceAt(f: real -> real, a: real, b: real, level: real, c: real) {
    && a < c < b && f(c) == level
    && Sign(f(a) - level) == -Sign(f(b) - level) != 0
    && (forall t :: a <= t < c ==> Sign(f(t) - level) == Sign(f(a) - level))
    && (forall t :: c < t <= b ==> Sign(f(t) - level) == Sign(f(b) - level))
  }

  ghost predicate OffLevel(f: real -> real, t: real, level: real) {
    ANGULAR_ZERO_TOLERANCE < Abs(f(t) - level)
  }

  /** In a tame bracket whose ends are off the level, an instant on the level is the only one. */
  lemma CrossingIsUnique(f: real -> real, a: real, b: real, level: real, c: real)
    requires Tame(f, a, b) && OffLevel(f, a, level) && OffLevel(f, b, level)
    requires a <= c <= b && f(c) == level
    ensures CrossesOnceAt(f, a, b, level, c)
  {
    var lo, hi :| TameWith(f, a, b, lo, hi);
    assert lo < c < hi;
    assert Sign(f(lo) - level) == Sign(f(a) - level);
    assert Sign(f(hi) - level) == Sign(f(b) - level);
  }
}
