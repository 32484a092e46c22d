/** The outermost crossings of the orb boundary, and the roots recorded for them. */
module OrbBounds {
  import opened Angles
  import opened CyclePolicy
  import opened Sky
  import opened Stations
  import opened Brackets
  import opened RootScan
  import opened RootTheorems
  import opened EnvelopeTheorems
  import opened Slices

  /** A little more than a probe and a root tolerance. */
  const CLEARANCE := 32.0 / 86400.0

  ghost predicate OnBoundary(m: Motion, t: real, level: real, orbDeg: real) {
    Abs(m.lift(t) - level) == orbDeg
  }

  ghost predicate HalfAnOrbApart(m: Motion, orbDeg: real, s: real, t: real) {
    -CLEARANCE <= s - t <= CLEARANCE && orbDeg / 2.0 <= Abs(m.lift(s) - m.lift(t))
  }

  /** The body needs more than one clearance from the boundary to the middle of the orb. */
  ghost predicate SlowAcrossOrb(m: Motion, orbDeg: real) {
    forall s, t {:trigger HalfAnOrbApart(m, orbDeg, s, t)} :: !HalfAnOrbApart(m, orbDeg, s, t)
  }

  /** The first instant at which the body is in orb. */
  ghost predicate FirstContact(m: Motion, c: real, level: real, orbDeg: real) {
    InOrb(m, c, level, orbDeg) && forall t :: t < c ==> !InOrb(m, t, level, orbDeg)
  }

  /** The last one. */
  ghost predicate LastContact(m: Motion, c: real, level: real, orbDeg: real) {
    InOrb(m, c, level, orbDeg) && forall t :: c < t ==> !InOrb(m, t, level, orbDeg)
  }

  /** The widest distance at which two boundary contacts can be recorded as one root. */
  const MERGED := 6.0 / 86400.0

  /** The body does not touch the orb boundary again close enough to `c` to be recorded as one root with it. */
  ghost predicate LoneContact(m: Motion, c: real, level: real, orbDeg: real) {
    forall t :: OnBoundary(m, t, level, orbDeg) && -MERGED <= t - c <= MERGED ==> t == c
  }

  /** The body is in orb from `s` to `t`. */
  ghost predicate InOrbThroughout(m: Motion, s: real, t: real, level: real, orbDeg: real) {
    forall u :: s <= u <= t ==> InOrb(m, u, level, orbDeg)
  }

  ghost predicate SeenInOrb(m: Motion, lo: real, hi: real, level: real, orbDeg: real) {
    exists v :: lo <= v <= hi && InOrb(m, v, level, orbDeg)
  }

  /** The bracket after sample `j` is the first in which the body is in orb. */
  ghost predicate FirstInOrb(m: Motion, samples: seq<Sample>, level: real, orbDeg: real, j: int) {
    && 0 <= j < |samples| - 1
    && (forall t :: t <= samples[j].jd ==> !InOrb(m, t, level, orbDeg))
    && SeenInOrb(m, samples[j].jd, samples[j + 1].jd, level, orbDeg)
  }

  /** The bracket after sample `j` is the last in which the body is in orb. */
  ghost predicate LastInOrb(m: Motion, samples: seq<Sample>, level: real, orbDeg: real, j: int) {
    && 0 <= j < |samples| - 1
    && (forall t :: samples[j + 1].jd <= t ==> !InOrb(m, t, level, orbDeg))
    && SeenInOrb(m, samples[j].jd, samples[j + 1].jd, level, orbDeg)
  }

  ghost predicate OffBoundary(sample: Sample, level: real, orbDeg: real) {
    !OnLevel(sample.lift, level - orbDeg) && !OnLevel(sample.lift, level + orbDeg)
  }

  /** No sample of the bracket after `j`, or close enough to it to merge, counts as lying on the orb boundary. */
  ghost predicate ClearAround(samples: seq<Sample>, j: int, level: real, orbDeg: real)
    requires 0 <= j < |samples| - 1
  {
    forall i :: 0 <= i < |samples| && samples[j].jd - MERGED <= samples[i].jd <= samples[j + 1].jd + MERGED ==>
      OffBoundary(samples[i], level, orbDeg)
  }

  /** The outermost crossing into orb is seen by samples off the boundary, and the body is in orb thirty
      seconds on, up to the root tolerance. */
  ghost predicate CleanEntry(m: Motion, samples: seq<Sample>, level: real, orbDeg: real) {
    && (forall j :: FirstInOrb(m, samples, level, orbDeg, j) ==> ClearAround(samples, j, level, orbDeg))
    && (forall c :: FirstContact(m, c, level, orbDeg) ==>
          InOrbThroughout(m, c + BOUNDARY_PROBE - HALF_ROOT_TOLERANCE, c + BOUNDARY_PROBE + HALF_ROOT_TOLERANCE, level, orbDeg))
  }

  /** So is the outermost crossing out of it, thirty seconds back; and since of two contacts close enough to
      merge the earlier one is kept, it is the only contact so close. */
  ghost predicate CleanExit(m: Motion, samples: seq<Sample>, level: real, orbDeg: real) {
    && (forall j :: LastInOrb(m, samples, level, orbDeg, j) ==> ClearAround(samples, j, level, orbDeg))
    && (forall c :: LastContact(m, c, level, orbDeg) ==>
          && LoneContact(m, c, level, orbDeg)
          && InOrbThroughout(m, c - BOUNDARY_PROBE - HALF_ROOT_TOLERANCE, c - BOUNDARY_PROBE + HALF_ROOT_TOLERANCE, level, orbDeg))
  }

  // ----- What the sky guarantees about it -----

  lemma UnitTime(speed: real, u: real, way: real)
    requires way == speed * (u + 1.0 - u)
    ensures way == speed
  {
    assert u + 1.0 - u == 1.0;
  }

  /** A body whose speed has a slope keeps below half a turn plus the slope. */
  lemma SpeedIsBounded(m: Motion, slope: real, reach: real, u: real)
    requires Smooth(m) && 0.0 <= slope && Lipschitz(m.speed, slope) && SlowerThanHalfTurn(m, reach) && 1.0 <= reach
    ensures -(180.0 + slope) < m.speed(u) < 180.0 + slope
  {
    var v := AverageSpeedInstant(m, u, u + 1.0);
    assert !HalfTurnApart(m, reach, u + 1.0, u);
    UnitTime(m.speed(v), u, m.lift(u + 1.0) - m.lift(u));
    var shed := slope * (v - u);
    assert -shed <= m.speed(u) - m.speed(v) <= shed;
    ShedInADay(slope, v - u, shed);
    CloseTo(m.speed(u), m.speed(v), shed, slope);
  }

  lemma ShedInADay(slope: real, d: real, shed: real)
    requires 0.0 <= slope && 0.0 <= d <= 1.0 && shed == slope * d
    ensures shed <= slope
  {
    ProductOrder(slope, d, 1.0);
  }

  lemma CloseTo(x: real, y: real, shed: real, slope: real)
    requires -180.0 < y < 180.0 && -shed <= x - y <= shed && shed <= slope
    ensures -(180.0 + slope) < x < 180.0 + slope
  {
  }

  lemma ShortWay(v: real, d: real, width: real, product: real)
    requires -182.5 < v < 182.5 && 0.0 <= d <= width && product == v * d
    ensures -(182.5 * width) <= product <= 182.5 * width
  {
    SmallProduct(v, 182.5, d, width, product);
  }

  /** In a short time a body covers a short way. */
  lemma WayIsShort(m: Motion, slope: real, reach: real, s: real, t: real, width: real)
    requires Smooth(m) && 0.0 <= slope <= 2.5 && Lipschitz(m.speed, slope) && SlowerThanHalfTurn(m, reach) && 1.0 <= reach
    requires -width <= s - t <= width
    ensures Abs(m.lift(s) - m.lift(t)) <= 182.5 * width
  {
    if s != t {
      var a, b := Min(s, t), Max(s, t);
      var u := AverageSpeedInstant(m, a, b);
      SpeedIsBounded(m, slope, reach, u);
      ShortWay(m.speed(u), b - a, width, m.lift(b) - m.lift(a));
    }
  }

  lemma SkyIsSlowAcrossOrb(m: Motion, slope: real, reach: real, orbDeg: real)
    requires Smooth(m) && 0.0 <= slope <= 2.5 && Lipschitz(m.speed, slope) && SlowerThanHalfTurn(m, reach) && 1.0 <= reach
    requires 1.0 <= orbDeg
    ensures SlowAcrossOrb(m, orbDeg)
  {
    forall s, t
      ensures !HalfAnOrbApart(m, orbDeg, s, t)
    {
      if -CLEARANCE <= s - t <= CLEARANCE {
        WayIsShort(m, slope, reach, s, t, CLEARANCE);
      }
    }
  }

  // ----- Around one boundary instant -----

  lemma BoundaryIsInOrb(m: Motion, t: real, level: real, orbDeg: real)
    ensures 0.0 <= orbDeg && (m.lift(t) == level - orbDeg || m.lift(t) == level + orbDeg) ==> InOrb(m, t, level, orbDeg)
  {
  }

  /** Between two instants on different sides of the orb the body is on its boundary. */
  lemma BoundaryBetween(m: Motion, level: real, orbDeg: real, s: real, t: real) returns (b: real)
    requires Continuous(m.lift) && 0.0 <= orbDeg && s <= t
    requires InOrb(m, s, level, orbDeg) != InOrb(m, t, level, orbDeg)
    ensures s <= b <= t && OnBoundary(m, b, level, orbDeg)
  {
    var outside := if InOrb(m, s, level, orbDeg) then t else s;
    var y := if m.lift(outside) < level then level - orbDeg else level + orbDeg;
    assert Attains(m.lift, s, t, y);
    b :| s <= b <= t && m.lift(b) == y;
  }

  // ----- A boundary crossing inside a bracket -----

  lemma OnlyOneBracketHolds(samples: seq<Sample>, i: int, j: int, c: real)
    requires Ascending(samples) && 0 <= i < |samples| - 1 && 0 <= j < |samples| - 1
    requires samples[i].jd <= c <= samples[i + 1].jd && samples[j].jd < c < samples[j + 1].jd
    ensures i == j
  {
    if i < j {
      TimesAscend(samples, i + 1, j);
    } else if j < i {
      TimesAscend(samples, j + 1, i);
    }
  }

  /** A lone crossing of the orb boundary, seen by samples off the boundary, has a recorded root
      within one second of it, in the same bracket. */
  lemma BoundaryCrossingIsRecorded(
    k: Track, m: Motion, samples: seq<Sample>, reach: real, level: real, orbDeg: real, base: real, w: int, j: int, c: real)
    returns (r: Root)
    requires Scene(k, m, samples, reach) && 0 <= j < |samples| - 1 && 0.0 <= orbDeg
    requires Tame(m.lift, samples[j].jd, samples[j + 1].jd) && ClearAround(samples, j, level, orbDeg)
    requires LoneContact(m, c, level, orbDeg) && BoundaryBase(level, orbDeg, base, w)
    requires samples[j].jd < c < samples[j + 1].jd && m.lift(c) == Level(base, w)
    ensures r in Recorded(k, samples, base, w) && samples[j].jd < r.jd < samples[j + 1].jd
    ensures Abs(r.jd - c) <= HALF_ROOT_TOLERANCE
  {
    assert TrueSample(k, m, samples[j]) && TrueSample(k, m, samples[j + 1]);
    assert OffBoundary(samples[j], level, orbDeg) && OffBoundary(samples[j + 1], level, orbDeg);
    CrossingsAreRecorded(k, m, samples, reach, base, w, j, c);
    r := NearbyRecord(Recorded(k, samples, base, w), c);
    RecordedRootsAreGenuine(k, m, samples, reach, base, w, r);
    NoLevelledSample(k, m, samples, level, orbDeg, Level(base, w), j, c, r);
    GenuineIsInThisBracket(m, samples, level, orbDeg, Level(base, w), j, c, r);
  }

  lemma NearbyRecord(roots: seq<Root>, c: real) returns (r: Root)
    requires RecordedNear(roots, c)
    ensures r in roots && Abs(r.jd - c) <= HALF_ROOT_TOLERANCE + ROOT_DEDUPE_TOLERANCE
  {
    var solved: Root :| Abs(solved.jd - c) <= HALF_ROOT_TOLERANCE && Represented(roots, solved);
    r :| r in roots && (r == solved || SamePhysicalEvent(r, solved));
  }

  lemma NoLevelledSample(
    k: Track, m: Motion, samples: seq<Sample>, level: real, orbDeg: real, boundary: real, j: int, c: real, r: Root)
    requires forall i :: 0 <= i < |samples| ==> TrueSample(k, m, samples[i])
    requires 0 <= j < |samples| - 1 && ClearAround(samples, j, level, orbDeg)
    requires samples[j].jd < c < samples[j + 1].jd && Abs(r.jd - c) <= HALF_ROOT_TOLERANCE + ROOT_DEDUPE_TOLERANCE
    requires boundary == level - orbDeg || boundary == level + orbDeg
    ensures !OnALevelledSample(m, samples, boundary, r)
  {
    forall n | 0 <= n < |samples| && r.jd == samples[n].jd
      ensures !OnLevel(m.lift(r.jd), boundary)
    {
      assert TrueSample(k, m, samples[n]) && OffBoundary(samples[n], level, orbDeg);
    }
  }

  lemma CrossedBracketIsThisOne(
    m: Motion, samples: seq<Sample>, level: real, orbDeg: real, boundary: real, i: int, j: int, c: real, r: Root)
    requires Ascending(samples) && LoneContact(m, c, level, orbDeg) && 0.0 <= orbDeg
    requires boundary == level - orbDeg || boundary == level + orbDeg
    requires 0 <= j < |samples| - 1 && samples[j].jd < c < samples[j + 1].jd && m.lift(c) == boundary
    requires InACrossedBracket(m, samples, boundary, r, i) && Abs(r.jd - c) <= HALF_ROOT_TOLERANCE + ROOT_DEDUPE_TOLERANCE
    ensures i == j && Abs(r.jd - c) <= HALF_ROOT_TOLERANCE
  {
    var c' :| samples[i].jd <= c' <= samples[i + 1].jd && m.lift(c') == boundary && Abs(r.jd - c') <= HALF_ROOT_TOLERANCE;
    assert OnBoundary(m, c', level, orbDeg);
    assert c' == c;
    OnlyOneBracketHolds(samples, i, j, c);
  }

  lemma GenuineOffTheSamples(m: Motion, samples: seq<Sample>, boundary: real, r: Root) returns (i: int)
    requires Genuine(m, samples, boundary, r) && !OnALevelledSample(m, samples, boundary, r)
    ensures InACrossedBracket(m, samples, boundary, r, i) && samples[i].jd < r.jd < samples[i + 1].jd
  {
    i :| InACrossedBracket(m, samples, boundary, r, i);
  }

  lemma GenuineIsInThisBracket(
    m: Motion, samples: seq<Sample>, level: real, orbDeg: real, boundary: real, j: int, c: real, r: Root)
    requires Ascending(samples) && LoneContact(m, c, level, orbDeg) && 0.0 <= orbDeg
    requires boundary == level - orbDeg || boundary == level + orbDeg
    requires 0 <= j < |samples| - 1 && samples[j].jd < c < samples[j + 1].jd && m.lift(c) == boundary
    requires Genuine(m, samples, boundary, r) && !OnALevelledSample(m, samples, boundary, r)
    requires Abs(r.jd - c) <= HALF_ROOT_TOLERANCE + ROOT_DEDUPE_TOLERANCE
    ensures samples[j].jd < r.jd < samples[j + 1].jd && Abs(r.jd - c) <= HALF_ROOT_TOLERANCE
  {
    var i := GenuineOffTheSamples(m, samples, boundary, r);
    CrossedBracketIsThisOne(m, samples, level, orbDeg, boundary, i, j, c, r);
  }

  // ----- The first and the last bracket in orb -----

  lemma {:induction false} FirstBracket(m: Motion, samples: seq<Sample>, level: real, orbDeg: real, i: int, u: real)
    returns (j: int)
    requires Ascending(samples) && 0 <= i < |samples| && (forall t :: t <= samples[i].jd ==> !InOrb(m, t, level, orbDeg))
    requires u <= samples[|samples| - 1].jd && InOrb(m, u, level, orbDeg)
    ensures i <= j && FirstInOrb(m, samples, level, orbDeg, j)
    decreases |samples| - i
  {
    assert samples[i].jd < u;
    if SeenInOrb(m, samples[i].jd, samples[i + 1].jd, level, orbDeg) {
      j := i;
    } else {
      forall t | t <= samples[i + 1].jd
        ensures !InOrb(m, t, level, orbDeg)
      {
      }
      j := FirstBracket(m, samples, level, orbDeg, i + 1, u);
    }
  }

  lemma {:induction false} LastBracket(m: Motion, samples: seq<Sample>, level: real, orbDeg: real, i: int, u: real)
    returns (j: int)
    requires Ascending(samples) && 0 <= i < |samples| && (forall t :: samples[i].jd <= t ==> !InOrb(m, t, level, orbDeg))
    requires samples[0].jd <= u && InOrb(m, u, level, orbDeg)
    ensures 0 <= j < i && LastInOrb(m, samples, level, orbDeg, j)
    decreases i
  {
    assert u < samples[i].jd;
    if SeenInOrb(m, samples[i - 1].jd, samples[i].jd, level, orbDeg) {
      j := i - 1;
    } else {
      forall t | samples[i - 1].jd <= t
        ensures !InOrb(m, t, level, orbDeg)
      {
      }
      j := LastBracket(m, samples, level, orbDeg, i - 1, u);
    }
  }

  // ----- The outermost crossings -----

  /** The boundary between an out-of-orb value and the middle of the orb. */
  function BoundaryToward(level: real, orbDeg: real, outside: real): real {
    if outside < level then level - orbDeg else level + orbDeg
  }

  lemma CrossingBefore(f: real -> real, a: real, b: real, boundary: real, v: real) returns (c: real)
    requires Continuous(f) && a <= v <= b && Tame(f, a, b) && OffLevel(f, a, boundary) && OffLevel(f, b, boundary)
    requires f(a) <= boundary <= f(v) || f(v) <= boundary <= f(a)
    ensures c <= v && CrossesOnceAt(f, a, b, boundary, c)
  {
    assert Attains(f, a, v, boundary);
    c :| a <= c <= v && f(c) == boundary;
    CrossingIsUnique(f, a, b, boundary, c);
  }

  lemma CrossingAfter(f: real -> real, a: real, b: real, boundary: real, v: real) returns (c: real)
    requires Continuous(f) && a <= v <= b && Tame(f, a, b) && OffLevel(f, a, boundary) && OffLevel(f, b, boundary)
    requires f(v) <= boundary <= f(b) || f(b) <= boundary <= f(v)
    ensures v <= c && CrossesOnceAt(f, a, b, boundary, c)
  {
    assert Attains(f, v, b, boundary);
    c :| v <= c <= b && f(c) == boundary;
    CrossingIsUnique(f, a, b, boundary, c);
  }

  /** In a tame first bracket, seen from off the boundary, the body first comes into orb at one crossing. */
  lemma EntersAt(m: Motion, level: real, orbDeg: real, a: real, b: real) returns (c: real)
    requires Continuous(m.lift) && 0.0 < orbDeg && a < b && Tame(m.lift, a, b)
    requires (forall t :: t <= a ==> !InOrb(m, t, level, orbDeg)) && SeenInOrb(m, a, b, level, orbDeg)
    requires var boundary := BoundaryToward(level, orbDeg, m.lift(a));
      OffLevel(m.lift, a, boundary) && OffLevel(m.lift, b, boundary)
    ensures FirstContact(m, c, level, orbDeg)
    ensures CrossesOnceAt(m.lift, a, b, BoundaryToward(level, orbDeg, m.lift(a)), c)
  {
    var boundary := BoundaryToward(level, orbDeg, m.lift(a));
    assert !InOrb(m, a, level, orbDeg);
    var v :| a <= v <= b && InOrb(m, v, level, orbDeg);
    c := CrossingBefore(m.lift, a, b, boundary, v);
    forall t | t < c
      ensures !InOrb(m, t, level, orbDeg)
    {
      if a <= t {
        assert Sign(m.lift(t) - boundary) == Sign(m.lift(a) - boundary);
      }
    }
  }

  /** In a tame last bracket, seen from off the boundary, the body leaves the orb at one crossing. */
  lemma LeavesAt(m: Motion, level: real, orbDeg: real, a: real, b: real) returns (c: real)
    requires Continuous(m.lift) && 0.0 < orbDeg && a < b && Tame(m.lift, a, b)
    requires (forall t :: b <= t ==> !InOrb(m, t, level, orbDeg)) && SeenInOrb(m, a, b, level, orbDeg)
    requires var boundary := BoundaryToward(level, orbDeg, m.lift(b));
      OffLevel(m.lift, a, boundary) && OffLevel(m.lift, b, boundary)
    ensures LastContact(m, c, level, orbDeg)
    ensures CrossesOnceAt(m.lift, a, b, BoundaryToward(level, orbDeg, m.lift(b)), c)
  {
    var boundary := BoundaryToward(level, orbDeg, m.lift(b));
    assert !InOrb(m, b, level, orbDeg);
    var v :| a <= v <= b && InOrb(m, v, level, orbDeg);
    c := CrossingAfter(m.lift, a, b, boundary, v);
    forall t | c < t
      ensures !InOrb(m, t, level, orbDeg)
    {
      if t <= b {
        assert Sign(m.lift(t) - boundary) == Sign(m.lift(b) - boundary);
      }
    }
  }

  // ----- The recorded entry and exit -----

  lemma ClearEnds(k: Track, m: Motion, samples: seq<Sample>, reach: real, level: real, orbDeg: real, j: int, boundary: real)
    requires Scene(k, m, samples, reach) && 0 <= j < |samples| - 1 && ClearAround(samples, j, level, orbDeg)
    requires boundary == level - orbDeg || boundary == level + orbDeg
    ensures OffLevel(m.lift, samples[j].jd, boundary) && OffLevel(m.lift, samples[j + 1].jd, boundary)
  {
    assert TrueSample(k, m, samples[j]) && TrueSample(k, m, samples[j + 1]);
    assert OffBoundary(samples[j], level, orbDeg) && OffBoundary(samples[j + 1], level, orbDeg);
  }

  /** The family that solves a boundary level. */
  function BaseOf(targetDeg: real, orbDeg: real, below: bool): real {
    if below then targetDeg - orbDeg else targetDeg + orbDeg
  }

  lemma BaseSolvesTheBoundary(targetDeg: real, level: real, orbDeg: real, w: int, outside: real)
    requires level == Level(targetDeg, w)
    ensures var base := BaseOf(targetDeg, orbDeg, outside < level);
      BoundaryBase(level, orbDeg, base, w) && Level(base, w) == BoundaryToward(level, orbDeg, outside)
  {
  }

  /** Nothing recorded before the first bracket in orb is close enough to stand for what that bracket yields. */
  lemma {:induction false} NoEarlierEvent(
    k: Track, m: Motion, samples: seq<Sample>, reach: real, level: real, orbDeg: real, base: real, w: int, j: int, e: Root, r: Root)
    requires Scene(k, m, samples, reach) && 0.0 <= orbDeg && BoundaryBase(level, orbDeg, base, w)
    requires FirstInOrb(m, samples, level, orbDeg, j) && ClearAround(samples, j, level, orbDeg)
    requires samples[j].jd < e.jd < samples[j + 1].jd && r in Events(k, samples, j, base, w)
    ensures !SamePhysicalEvent(r, e)
  {
    EventsComeFromTheirSamples(k, samples, j, base, w);
    assert Contributed(k, samples, j, base, w, r);
    var i :| 0 <= i < j && r in EventsAt(k, samples, i, base, w);
    EventIsGenuine(k, m, samples, reach, base, w, i, r);
    if r.jd == samples[i].jd && OnLevel(m.lift(r.jd), Level(base, w)) {
      assert TrueSample(k, m, samples[i]);
      TimesAscend(samples, i, j);
    } else {
      var c :| samples[i].jd <= c <= samples[i + 1].jd && m.lift(c) == Level(base, w);
      TimesAscend(samples, i + 1, j);
      BoundaryIsInOrb(m, c, level, orbDeg);
    }
  }

  /** What a tame bracket yields for the one crossing of a boundary in it. */
  lemma {:induction false} CrossedBracketYields(
    k: Track, m: Motion, samples: seq<Sample>, reach: real, base: real, w: int, j: int, c: real) returns (e: Root)
    requires Scene(k, m, samples, reach) && 0 <= j < |samples| - 1 && Tame(m.lift, samples[j].jd, samples[j + 1].jd)
    requires OffLevel(m.lift, samples[j].jd, Level(base, w)) && OffLevel(m.lift, samples[j + 1].jd, Level(base, w))
    requires samples[j].jd < c < samples[j + 1].jd && m.lift(c) == Level(base, w)
    ensures EventsAt(k, samples, j, base, w) == [e] && samples[j].jd < e.jd < samples[j + 1].jd
    ensures Abs(e.jd - c) <= HALF_ROOT_TOLERANCE
  {
    var a, b, level := samples[j], samples[j + 1], Level(base, w);
    CrossingIsUnique(m.lift, a.jd, b.jd, level, c);
    InBracketIff(k, m, samples, reach, j, base, w);
    e := BracketRoot(k, a, b, level);
    assert TrueSample(k, m, a) && OnSample(a, base, w) == [];
    BracketEventIsGenuine(k, m, samples, reach, j, base, w, e);
    OnlyCrossingIsNear(m.lift, a.jd, b.jd, level, c, e.jd);
  }

  /** The crossing at which the body first comes into orb is recorded itself: no earlier root can stand for it. */
  lemma {:induction false} FirstCrossingIsRecorded(
    k: Track, m: Motion, samples: seq<Sample>, reach: real, level: real, orbDeg: real, base: real, w: int, j: int, c: real)
    returns (r: Root)
    requires Scene(k, m, samples, reach) && 0.0 <= orbDeg && BoundaryBase(level, orbDeg, base, w)
    requires FirstInOrb(m, samples, level, orbDeg, j) && ClearAround(samples, j, level, orbDeg)
    requires Tame(m.lift, samples[j].jd, samples[j + 1].jd)
    requires samples[j].jd < c < samples[j + 1].jd && m.lift(c) == Level(base, w)
    ensures r in Recorded(k, samples, base, w) && samples[j].jd < r.jd < samples[j + 1].jd
    ensures Abs(r.jd - c) <= HALF_ROOT_TOLERANCE
  {
    ClearEnds(k, m, samples, reach, level, orbDeg, j, Level(base, w));
    r := CrossedBracketYields(k, m, samples, reach, base, w, j, c);
    RecordedUnlessMerged(k, samples, base, w, j, r);
    forall e | e in Events(k, samples, j, base, w)
      ensures !SamePhysicalEvent(e, r)
    {
      NoEarlierEvent(k, m, samples, reach, level, orbDeg, base, w, j, r, e);
    }
  }

  /** A first crossing into orb that the samples see is recorded within a second. */
  lemma EntryIsRecorded(
    k: Track, m: Motion, samples: seq<Sample>, reach: real, targetDeg: real, level: real, orbDeg: real, w: int, j: int)
    returns (r: Root, c: real)
    requires Scene(k, m, samples, reach) && 0.0 < orbDeg && level == Level(targetDeg, w)
    requires FirstInOrb(m, samples, level, orbDeg, j) && ClearAround(samples, j, level, orbDeg)
    requires Tame(m.lift, samples[j].jd, samples[j + 1].jd)
    ensures r in Recorded(k, samples, BaseOf(targetDeg, orbDeg, m.lift(samples[j].jd) < level), w)
    ensures samples[j].jd < r.jd < samples[j + 1].jd && FirstContact(m, c, level, orbDeg) && Abs(r.jd - c) <= HALF_ROOT_TOLERANCE
  {
    var a, b := samples[j].jd, samples[j + 1].jd;
    assert !InOrb(m, a, level, orbDeg);
    var base := BaseOf(targetDeg, orbDeg, m.lift(a) < level);
    BaseSolvesTheBoundary(targetDeg, level, orbDeg, w, m.lift(a));
    ClearEnds(k, m, samples, reach, level, orbDeg, j, BoundaryToward(level, orbDeg, m.lift(a)));
    c := EntersAt(m, level, orbDeg, a, b);
    r := FirstCrossingIsRecorded(k, m, samples, reach, level, orbDeg, base, w, j, c);
  }

  /** A last crossing out of orb that the samples see is recorded within a second, unless an earlier contact
      is close enough to stand for it. */
  lemma ExitIsRecorded(
    k: Track, m: Motion, samples: seq<Sample>, reach: real, targetDeg: real, level: real, orbDeg: real, w: int, j: int)
    returns (r: Root, c: real)
    requires Scene(k, m, samples, reach) && 0.0 < orbDeg && level == Level(targetDeg, w)
    requires LastInOrb(m, samples, level, orbDeg, j) && ClearAround(samples, j, level, orbDeg)
    requires forall t :: LastContact(m, t, level, orbDeg) ==> LoneContact(m, t, level, orbDeg)
    requires Tame(m.lift, samples[j].jd, samples[j + 1].jd)
    ensures r in Recorded(k, samples, BaseOf(targetDeg, orbDeg, m.lift(samples[j + 1].jd) < level), w)
    ensures samples[j].jd < r.jd < samples[j + 1].jd && LastContact(m, c, level, orbDeg) && Abs(r.jd - c) <= HALF_ROOT_TOLERANCE
  {
    var a, b := samples[j].jd, samples[j + 1].jd;
    assert !InOrb(m, b, level, orbDeg);
    var base := BaseOf(targetDeg, orbDeg, m.lift(b) < level);
    BaseSolvesTheBoundary(targetDeg, level, orbDeg, w, m.lift(b));
    ClearEnds(k, m, samples, reach, level, orbDeg, j, BoundaryToward(level, orbDeg, m.lift(b)));
    c := LeavesAt(m, level, orbDeg, a, b);
    r := BoundaryCrossingIsRecorded(k, m, samples, reach, level, orbDeg, base, w, j, c);
  }
}
