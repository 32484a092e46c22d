/** The recorded roots are the crossings of the sky: sound, complete and separated. */
module RootTheorems {
  import opened Optional
  import opened Angles
  import opened CyclePolicy
  import opened Sky
  import opened Stations
  import opened SampleLists
  import opened Brackets
  import opened RootScan

  const HALF_ROOT_TOLERANCE := 1.0 / 86400.0

  ghost predicate FollowsAt(k: Track, m: Motion, t: real) {
    k.lon(t) == Norm360(m.lift(t)) && k.speed(t) == m.speed(t)
  }

  /** The track's answers are the motion, reduced to one revolution. */
  ghost predicate Follows(k: Track, m: Motion) {
    forall t {:trigger FollowsAt(k, m, t)} :: FollowsAt(k, m, t)
  }

  ghost predicate TrueSample(k: Track, m: Motion, sample: Sample) {
    sample.lon == k.lon(sample.jd) && sample.lift == m.lift(sample.jd) && sample.speed == m.speed(sample.jd)
  }

  /** Ascending true samples, closer together than the body needs for half a turn. */
  ghost predicate TrueSamples(k: Track, m: Motion, samples: seq<Sample>, reach: real) {
    && Follows(k, m)
    && SlowerThanHalfTurn(m, reach)
    && Ascending(samples)
    && Dense(samples, reach)
    && forall i :: 0 <= i < |samples| ==> TrueSample(k, m, samples[i])
  }

  /** Measured from an anchor within reach, the lift is the motion. */
  lemma LiftedFromIsTheMotion(k: Track, m: Motion, reach: real, anchor: Sample, t: real)
    requires Follows(k, m) && SlowerThanHalfTurn(m, reach) && TrueSample(k, m, anchor)
    requires -reach <= t - anchor.jd <= reach
    ensures LiftedFrom(anchor, k.lon(t)) == m.lift(t)
  {
    assert FollowsAt(k, m, t) && FollowsAt(k, m, anchor.jd) && !HalfTurnApart(m, reach, t, anchor.jd);
    WrappedDifferenceIsMotion(m.lift(t), m.lift(anchor.jd));
  }

  // ----- Bisection -----

  ghost predicate CrossingNear(f: real -> real, lo: real, hi: real, level: real, jd: real) {
    exists c :: lo <= c <= hi && f(c) == level && Abs(jd - c) <= HALF_ROOT_TOLERANCE
  }

  ghost predicate UnwrapsAt(lon: real -> real, anchor: Sample, f: real -> real, t: real) {
    LiftedFrom(anchor, lon(t)) == f(t)
  }

  /** Between `lo` and `hi` the lift measured from the anchor is the quantity `f`. */
  ghost predicate Unwraps(lon: real -> real, anchor: Sample, f: real -> real, lo: real, hi: real) {
    forall t {:trigger UnwrapsAt(lon, anchor, f, t)} :: lo <= t <= hi ==> UnwrapsAt(lon, anchor, f, t)
  }

  lemma AnchorUnwraps(k: Track, m: Motion, reach: real, anchor: Sample, hi: real)
    requires Follows(k, m) && SlowerThanHalfTurn(m, reach) && TrueSample(k, m, anchor) && hi <= anchor.jd + reach
    ensures Unwraps(k.lon, anchor, m.lift, anchor.jd, hi)
  {
    forall t | anchor.jd <= t <= hi
      ensures UnwrapsAt(k.lon, anchor, m.lift, t)
    {
      LiftedFromIsTheMotion(k, m, reach, anchor, t);
    }
  }

  lemma NarrowSignChange(f: real -> real, lo: real, hi: real, level: real)
    requires Continuous(f) && lo < hi <= lo + ROOT_TIME_TOLERANCE
    requires Sign(f(lo) - level) != 0 && Sign(f(hi) - level) != Sign(f(lo) - level)
    ensures CrossingNear(f, lo, hi, level, (lo + hi) / 2.0)
  {
    assert Attains(f, lo, hi, level);
    var c :| lo <= c <= hi && f(c) == level;
    assert Abs((lo + hi) / 2.0 - c) <= HALF_ROOT_TOLERANCE;
  }

  lemma NearInAWiderBracket(f: real -> real, lo: real, hi: real, a: real, b: real, level: real, jd: real)
    requires CrossingNear(f, lo, hi, level, jd) && a <= lo && hi <= b
    ensures CrossingNear(f, a, b, level, jd)
  {
  }

  /** Bisection of a sign change ends within one second of a crossing inside the bracket. */
  lemma {:induction false} BisectionFindsACrossing(
    lon: real -> real, f: real -> real, anchor: Sample, lo: real, hi: real, level: real, sign: int)
    requires Continuous(f) && lo < hi && Unwraps(lon, anchor, f, lo, hi)
    requires Sign(f(lo) - level) == sign != 0 && Sign(f(hi) - level) != sign
    ensures lo < Bisected(lon, anchor, lo, hi, level, sign) < hi
    ensures CrossingNear(f, lo, hi, level, Bisected(lon, anchor, lo, hi, level, sign))
    decreases Seconds(hi - lo)
  {
    var mid := (lo + hi) / 2.0;
    if hi - lo <= ROOT_TIME_TOLERANCE {
      NarrowSignChange(f, lo, hi, level);
    } else {
      assert UnwrapsAt(lon, anchor, f, mid);
      if f(mid) == level {
        assert Bisected(lon, anchor, lo, hi, level, sign) == mid;
      } else if Sign(f(mid) - level) == sign {
        BisectionFindsACrossing(lon, f, anchor, mid, hi, level, sign);
        NearInAWiderBracket(f, mid, hi, lo, hi, level, Bisected(lon, anchor, mid, hi, level, sign));
      } else {
        BisectionFindsACrossing(lon, f, anchor, lo, mid, level, sign);
        NearInAWiderBracket(f, lo, mid, lo, hi, level, Bisected(lon, anchor, lo, mid, level, sign));
      }
    }
  }

  // ----- The winding range of a bracket -----

  /** The windings tried are exactly the levels between the two ends. */
  lemma WindingRangeIsTheLevelsBetween(lift: real, liftNext: real, base: real, w: int)
    ensures LowestWinding(lift, liftNext, base) <= w <= HighestWinding(lift, liftNext, base)
       <==> Min(lift, liftNext) <= Level(base, w) <= Max(lift, liftNext)
  {
    CeilBound(Min((lift - base) / 360.0, (liftNext - base) / 360.0), w);
  }

  lemma CeilBound(x: real, w: int)
    ensures Ceil(x) <= w <==> x <= w as real
  {
  }

  /** A sample on a level of the family is on the level of its nearest winding. */
  lemma OnLevelIsNearest(lift: real, base: real, w: int)
    requires OnLevel(lift, Level(base, w))
    ensures NearestWinding(lift, base) == w
  {
  }

  // ----- Deduplication -----

  ghost predicate Separated(roots: seq<Root>) {
    forall i, j :: 0 <= i < j < |roots| ==> !SamePhysicalEvent(roots[i], roots[j])
  }

  ghost predicate Represented(roots: seq<Root>, event: Root) {
    exists r :: r in roots && (r == event || SamePhysicalEvent(r, event))
  }

  lemma PushedIsSeparated(into: seq<Root>, root: Root)
    requires Separated(into)
    ensures Separated(Pushed(into, root))
  {
  }

  lemma {:induction false} PushedAllIsSeparated(into: seq<Root>, events: seq<Root>)
    requires Separated(into)
    ensures Separated(PushedAll(into, events))
    decreases |events|
  {
    if events != [] {
      PushedIsSeparated(into, events[0]);
      PushedAllIsSeparated(Pushed(into, events[0]), events[1..]);
    }
  }

  lemma {:induction false} PushedAllKeepsAndInvents(into: seq<Root>, events: seq<Root>)
    ensures forall r :: r in into ==> r in PushedAll(into, events)
    ensures forall r :: r in PushedAll(into, events) ==> r in into || r in events
    decreases |events|
  {
    if events != [] {
      PushedAllKeepsAndInvents(Pushed(into, events[0]), events[1..]);
    }
  }

  lemma {:induction false} PushedAllRepresents(into: seq<Root>, events: seq<Root>, event: Root)
    requires event in events
    ensures Represented(PushedAll(into, events), event)
    decreases |events|
  {
    var first := Pushed(into, events[0]);
    if event == events[0] {
      PushedAllKeepsAndInvents(first, events[1..]);
      assert event in first || exists r :: r in into && SamePhysicalEvent(r, event);
    } else {
      PushedAllRepresents(first, events[1..], event);
    }
  }

  ghost predicate Contributed(k: Track, samples: seq<Sample>, n: nat, base: real, w: int, e: Root)
    requires n <= |samples|
  {
    exists i :: 0 <= i < n && e in EventsAt(k, samples, i, base, w)
  }

  lemma {:induction false} EventsComeFromTheirSamples(k: Track, samples: seq<Sample>, n: nat, base: real, w: int)
    requires n <= |samples|
    ensures forall i, e :: 0 <= i < n && e in EventsAt(k, samples, i, base, w) ==> e in Events(k, samples, n, base, w)
    ensures forall e :: e in Events(k, samples, n, base, w) ==> Contributed(k, samples, n, base, w, e)
    decreases n
  {
    if n > 0 {
      EventsComeFromTheirSamples(k, samples, n - 1, base, w);
    }
  }

  // ----- Soundness -----

  ghost predicate OnALevelledSample(m: Motion, samples: seq<Sample>, level: real, r: Root) {
    exists i :: 0 <= i < |samples| && r.jd == samples[i].jd && OnLevel(m.lift(r.jd), level)
  }

  ghost predicate InACrossedBracket(m: Motion, samples: seq<Sample>, level: real, r: Root, i: int) {
    && 0 <= i < |samples| - 1
    && samples[i].jd < r.jd < samples[i + 1].jd
    && CrossingNear(m.lift, samples[i].jd, samples[i + 1].jd, level, r.jd)
  }

  ghost predicate Genuine(m: Motion, samples: seq<Sample>, level: real, r: Root) {
    || OnALevelledSample(m, samples, level, r)
    || exists i :: InACrossedBracket(m, samples, level, r, i)
  }

  lemma BracketIsWithinReach(k: Track, m: Motion, samples: seq<Sample>, reach: real, i: int)
    requires TrueSamples(k, m, samples, reach) && 0 <= i < |samples| - 1
    ensures samples[i].jd < samples[i + 1].jd <= samples[i].jd + reach
    ensures LiftedFrom(samples[i], samples[i + 1].lon) == m.lift(samples[i + 1].jd)
  {
    assert TrueSample(k, m, samples[i]) && TrueSample(k, m, samples[i + 1]);
    LiftedFromIsTheMotion(k, m, reach, samples[i], samples[i + 1].jd);
  }

  lemma BracketEventIsGenuine(k: Track, m: Motion, samples: seq<Sample>, reach: real, i: int, base: real, w: int, e: Root)
    requires TrueSamples(k, m, samples, reach) && Continuous(m.lift) && 0 <= i < |samples| - 1
    requires e in InBracket(k, samples[i], samples[i + 1], base, w)
    ensures InACrossedBracket(m, samples, Level(base, w), e, i)
  {
    var a, b := samples[i], samples[i + 1];
    var level := Level(base, w);
    BracketIsWithinReach(k, m, samples, reach, i);
    assert TrueSample(k, m, a);
    AnchorUnwraps(k, m, reach, a, b.jd);
    BisectionFindsACrossing(k.lon, m.lift, a, a.jd, b.jd, level, Sign(a.lift - level));
  }

  /** What one sample and the bracket after it contribute: the sample on the level, or a crossing of the bracket. */
  lemma EventIsGenuine(k: Track, m: Motion, samples: seq<Sample>, reach: real, base: real, w: int, i: nat, e: Root)
    requires TrueSamples(k, m, samples, reach) && Continuous(m.lift) && i < |samples|
    requires e in EventsAt(k, samples, i, base, w)
    ensures (e.jd == samples[i].jd && OnLevel(m.lift(e.jd), Level(base, w))) || InACrossedBracket(m, samples, Level(base, w), e, i)
  {
    assert TrueSample(k, m, samples[i]);
    if e !in OnSample(samples[i], base, w) {
      BracketEventIsGenuine(k, m, samples, reach, i, base, w, e);
    }
  }

  lemma RecordedIsContributed(k: Track, samples: seq<Sample>, base: real, w: int, r: Root) returns (i: nat)
    requires r in Recorded(k, samples, base, w)
    ensures i < |samples| && r in EventsAt(k, samples, i, base, w)
  {
    PushedAllKeepsAndInvents([], Events(k, samples, |samples|, base, w));
    EventsComeFromTheirSamples(k, samples, |samples|, base, w);
    assert Contributed(k, samples, |samples|, base, w, r);
    i :| 0 <= i < |samples| && r in EventsAt(k, samples, i, base, w);
  }

  /** Every recorded root is a sample on the level, or lies within one second of a crossing in
      the bracket it was found in. */
  lemma RecordedRootsAreGenuine(k: Track, m: Motion, samples: seq<Sample>, reach: real, base: real, w: int, r: Root)
    requires TrueSamples(k, m, samples, reach) && Continuous(m.lift)
    requires r in Recorded(k, samples, base, w)
    ensures Genuine(m, samples, Level(base, w), r)
  {
    var i := RecordedIsContributed(k, samples, base, w, r);
    EventIsGenuine(k, m, samples, reach, base, w, i, r);
  }

  /** Two recorded roots of one winding lie more than the dedupe tolerance apart. */
  lemma RecordedRootsAreSeparated(k: Track, samples: seq<Sample>, base: real, w: int)
    ensures Separated(Recorded(k, samples, base, w))
  {
    PushedAllIsSeparated([], Events(k, samples, |samples|, base, w));
  }

  // ----- Completeness -----

  /** A root was solved within one second of `c` and recorded, or merged into a recorded root
      within the dedupe tolerance of it. */
  ghost predicate RecordedNear(roots: seq<Root>, c: real) {
    exists solved: Root :: Abs(solved.jd - c) <= HALF_ROOT_TOLERANCE && Represented(roots, solved)
  }

  lemma EventIsRepresented(k: Track, samples: seq<Sample>, base: real, w: int, i: int, e: Root)
    requires 0 <= i < |samples| && e in EventsAt(k, samples, i, base, w)
    ensures Represented(Recorded(k, samples, base, w), e)
  {
    EventsComeFromTheirSamples(k, samples, |samples|, base, w);
    PushedAllRepresents([], Events(k, samples, |samples|, base, w), e);
  }

  lemma ChangedSidesIsSolved(k: Track, a: Sample, b: Sample, base: real, w: int)
    requires ChangesSides(a.lift, LiftedFrom(a, b.lon), Level(base, w))
    ensures InBracket(k, a, b, base, w) == [BracketRoot(k, a, b, Level(base, w))]
  {
    WindingRangeIsTheLevelsBetween(a.lift, LiftedFrom(a, b.lon), base, w);
  }

  /** Every crossing in a tame bracket whose ends are off the level is recorded. */
  lemma CrossingsAreRecorded(
    k: Track, m: Motion, samples: seq<Sample>, reach: real, base: real, w: int, i: int, c: real)
    requires TrueSamples(k, m, samples, reach) && Continuous(m.lift) && 0 <= i < |samples| - 1
    requires Tame(m.lift, samples[i].jd, samples[i + 1].jd)
    requires OffLevel(m.lift, samples[i].jd, Level(base, w)) && OffLevel(m.lift, samples[i + 1].jd, Level(base, w))
    requires samples[i].jd <= c <= samples[i + 1].jd && m.lift(c) == Level(base, w)
    ensures RecordedNear(Recorded(k, samples, base, w), c)
  {
    var a, b := samples[i], samples[i + 1];
    var level := Level(base, w);
    BracketIsWithinReach(k, m, samples, reach, i);
    assert TrueSample(k, m, a);
    CrossingIsUnique(m.lift, a.jd, b.jd, level, c);
    ChangedSidesIsSolved(k, a, b, base, w);
    var solved := BracketRoot(k, a, b, level);
    BracketEventIsGenuine(k, m, samples, reach, i, base, w, solved);
    OnlyCrossingIsNear(m.lift, a.jd, b.jd, level, c, solved.jd);
    EventIsRepresented(k, samples, base, w, i, solved);
  }

  lemma OnlyCrossingIsNear(f: real -> real, a: real, b: real, level: real, c: real, jd: real)
    requires CrossesOnceAt(f, a, b, level, c) && CrossingNear(f, a, b, level, jd)
    ensures Abs(jd - c) <= HALF_ROOT_TOLERANCE
  {
  }

  /** A sample within the zero tolerance of the level is recorded too. */
  lemma LevelledSamplesAreRecorded(k: Track, m: Motion, samples: seq<Sample>, reach: real, base: real, w: int, i: int)
    requires TrueSamples(k, m, samples, reach) && 0 <= i < |samples|
    requires OnLevel(m.lift(samples[i].jd), Level(base, w))
    ensures Represented(Recorded(k, samples, base, w), SampleRoot(samples[i]))
  {
    assert TrueSample(k, m, samples[i]);
    OnLevelIsNearest(samples[i].lift, base, w);
    EventIsRepresented(k, samples, base, w, i, SampleRoot(samples[i]));
  }

  // ----- Merging keeps the earlier root -----

  lemma {:induction false} PushedUnlessMerged(into: seq<Root>, e: Root)
    ensures e in PushedAll(into, [e]) || exists r :: r in into && SamePhysicalEvent(r, e)
  {
    assert PushedAll(into, [e]) == Pushed(into, e);
  }

  /** What the first samples recorded stays recorded. */
  lemma {:induction false} RecordsStay(k: Track, samples: seq<Sample>, n: nat, base: real, w: int, e: Root)
    requires n <= |samples| && e in PushedAll([], Events(k, samples, n, base, w))
    ensures e in Recorded(k, samples, base, w)
    decreases |samples| - n
  {
    if n < |samples| {
      PushedAllJoin([], Events(k, samples, n, base, w), EventsAt(k, samples, n, base, w));
      PushedAllKeepsAndInvents(PushedAll([], Events(k, samples, n, base, w)), EventsAt(k, samples, n, base, w));
      RecordsStay(k, samples, n + 1, base, w, e);
    }
  }

  /** A contribution is recorded itself, unless an earlier one is close enough to stand for it. */
  lemma {:induction false} RecordedUnlessMerged(k: Track, samples: seq<Sample>, base: real, w: int, n: nat, e: Root)
    requires n < |samples| && EventsAt(k, samples, n, base, w) == [e]
    ensures e in Recorded(k, samples, base, w)
         || exists r :: r in Events(k, samples, n, base, w) && SamePhysicalEvent(r, e)
  {
    var before := PushedAll([], Events(k, samples, n, base, w));
    PushedAllJoin([], Events(k, samples, n, base, w), [e]);
    PushedAllKeepsAndInvents([], Events(k, samples, n, base, w));
    PushedUnlessMerged(before, e);
    if e in PushedAll(before, [e]) {
      RecordsStay(k, samples, n + 1, base, w, e);
    }
  }

  // ----- What a bracket makes of the instants in it -----

  ghost predicate ExactWithin(m: Motion, a: real, b: real, level: real, t: real) {
    a < t < b && m.lift(t) == level
  }

  ghost predicate StandsFor(r: Root, t: real) {
    Abs(r.jd - t) <= HALF_ROOT_TOLERANCE
  }

  /** One root stands for two instants on the level. */
  ghost predicate SharesIts(r: Root, m: Motion, a: real, b: real, level: real, s: real, t: real) {
    ExactWithin(m, a, b, level, s) && ExactWithin(m, a, b, level, t) && StandsFor(r, s) && StandsFor(r, t)
  }

  ghost predicate StandsForSome(r: Root, m: Motion, a: real, b: real, level: real) {
    exists t :: ExactWithin(m, a, b, level, t) && StandsFor(r, t)
  }

  ghost predicate IsStoodFor(roots: seq<Root>, t: real) {
    exists r :: r in roots && StandsFor(r, t)
  }

  /** The roots are the instants on the level, one for each and each within a second of its own. */
  ghost predicate OnePerInstant(roots: seq<Root>, m: Motion, a: real, b: real, level: real) {
    && (forall r :: r in roots ==> StandsForSome(r, m, a, b, level))
    && (forall t :: ExactWithin(m, a, b, level, t) ==> IsStoodFor(roots, t))
    && (forall r, s, t :: r in roots && SharesIts(r, m, a, b, level, s, t) ==> s == t)
  }

  /** The level is met at one instant at most, and not touched without being crossed. */
  ghost predicate MetOnceIfAtAll(m: Motion, a: real, b: real, level: real) {
    && (forall s, t :: ExactWithin(m, a, b, level, s) && ExactWithin(m, a, b, level, t) ==> s == t)
    && (Sign(m.lift(a) - level) == Sign(m.lift(b) - level) ==> forall t :: !ExactWithin(m, a, b, level, t))
  }

  lemma InBracketIff(k: Track, m: Motion, samples: seq<Sample>, reach: real, i: int, base: real, w: int)
    requires TrueSamples(k, m, samples, reach) && 0 <= i < |samples| - 1
    requires OffLevel(m.lift, samples[i].jd, Level(base, w)) && OffLevel(m.lift, samples[i + 1].jd, Level(base, w))
    ensures InBracket(k, samples[i], samples[i + 1], base, w)
         == if Sign(m.lift(samples[i].jd) - Level(base, w)) != Sign(m.lift(samples[i + 1].jd) - Level(base, w))
            then [BracketRoot(k, samples[i], samples[i + 1], Level(base, w))] else []
  {
    BracketIsWithinReach(k, m, samples, reach, i);
    assert TrueSample(k, m, samples[i]);
    if Sign(m.lift(samples[i].jd) - Level(base, w)) != Sign(m.lift(samples[i + 1].jd) - Level(base, w)) {
      ChangedSidesIsSolved(k, samples[i], samples[i + 1], base, w);
    }
  }

  /** A bracket with an end that counts as on the level yields nothing for it. */
  lemma {:induction false} LevelledEndYieldsNothing(
    k: Track, m: Motion, samples: seq<Sample>, reach: real, base: real, w: int, i: int, n: int)
    requires TrueSamples(k, m, samples, reach) && 0 <= i < |samples| - 1 && (i == n || i + 1 == n)
    requires OnLevel(m.lift(samples[n].jd), Level(base, w))
    ensures InBracket(k, samples[i], samples[i + 1], base, w) == []
  {
    BracketIsWithinReach(k, m, samples, reach, i);
    assert TrueSample(k, m, samples[i]);
  }

  lemma {:induction false} BracketRootStands(
    k: Track, m: Motion, samples: seq<Sample>, reach: real, i: int, base: real, w: int, r: Root) returns (t: real)
    requires TrueSamples(k, m, samples, reach) && Continuous(m.lift) && 0 <= i < |samples| - 1
    requires OffLevel(m.lift, samples[i].jd, Level(base, w)) && OffLevel(m.lift, samples[i + 1].jd, Level(base, w))
    requires r in InBracket(k, samples[i], samples[i + 1], base, w)
    ensures ExactWithin(m, samples[i].jd, samples[i + 1].jd, Level(base, w), t) && StandsFor(r, t)
  {
    BracketEventIsGenuine(k, m, samples, reach, i, base, w, r);
    t :| samples[i].jd <= t <= samples[i + 1].jd && m.lift(t) == Level(base, w) && Abs(r.jd - t) <= HALF_ROOT_TOLERANCE;
  }

  /** A bracket whose ends are off the level yields exactly the instants on the level, one root for each, if
      and only if the level is met in it once at most and then crossed. */
  lemma {:induction false} BracketIsExactIff(
    k: Track, m: Motion, samples: seq<Sample>, reach: real, i: int, base: real, w: int)
    requires TrueSamples(k, m, samples, reach) && Continuous(m.lift) && 0 <= i < |samples| - 1
    requires OffLevel(m.lift, samples[i].jd, Level(base, w)) && OffLevel(m.lift, samples[i + 1].jd, Level(base, w))
    ensures OnePerInstant(InBracket(k, samples[i], samples[i + 1], base, w), m, samples[i].jd, samples[i + 1].jd, Level(base, w))
       <==> MetOnceIfAtAll(m, samples[i].jd, samples[i + 1].jd, Level(base, w))
  {
    var a, b, level := samples[i].jd, samples[i + 1].jd, Level(base, w);
    var roots := InBracket(k, samples[i], samples[i + 1], base, w);
    InBracketIff(k, m, samples, reach, i, base, w);
    forall r | r in roots
      ensures StandsForSome(r, m, a, b, level)
    {
      var t := BracketRootStands(k, m, samples, reach, i, base, w, r);
    }
    ExactFromRoots(roots, m, a, b, level);
  }

  lemma OneForEachIsOnce(r: Root, roots: seq<Root>, m: Motion, a: real, b: real, level: real)
    requires roots == [] || roots == [r]
    requires OnePerInstant(roots, m, a, b, level)
    ensures forall s, t :: ExactWithin(m, a, b, level, s) && ExactWithin(m, a, b, level, t) ==> s == t
    ensures roots == [] ==> forall t :: !ExactWithin(m, a, b, level, t)
  {
    forall s, t | ExactWithin(m, a, b, level, s) && ExactWithin(m, a, b, level, t)
      ensures s == t
    {
      assert IsStoodFor(roots, s) && IsStoodFor(roots, t);
      var one :| one in roots && StandsFor(one, s);
      var other :| other in roots && StandsFor(other, t);
      assert one == other == r;
      assert SharesIts(r, m, a, b, level, s, t);
    }
  }

  lemma OnceIsOneForEach(r: Root, roots: seq<Root>, m: Motion, a: real, b: real, level: real)
    requires roots == [] || roots == [r]
    requires forall e :: e in roots ==> StandsForSome(e, m, a, b, level)
    requires forall s, t :: ExactWithin(m, a, b, level, s) && ExactWithin(m, a, b, level, t) ==> s == t
    requires roots == [] ==> forall t :: !ExactWithin(m, a, b, level, t)
    ensures OnePerInstant(roots, m, a, b, level)
  {
    forall t | ExactWithin(m, a, b, level, t)
      ensures IsStoodFor(roots, t)
    {
      assert r in roots && StandsForSome(r, m, a, b, level);
      var s :| ExactWithin(m, a, b, level, s) && StandsFor(r, s);
      assert s == t;
    }
  }

  lemma ExactFromRoots(roots: seq<Root>, m: Motion, a: real, b: real, level: real)
    requires |roots| == if Sign(m.lift(a) - level) != Sign(m.lift(b) - level) then 1 else 0
    requires forall r :: r in roots ==> StandsForSome(r, m, a, b, level)
    ensures OnePerInstant(roots, m, a, b, level) <==> MetOnceIfAtAll(m, a, b, level)
  {
    var r := if roots == [] then Root(a, 0.0, None) else roots[0];
    if OnePerInstant(roots, m, a, b, level) {
      OneForEachIsOnce(r, roots, m, a, b, level);
    }
    if MetOnceIfAtAll(m, a, b, level) {
      OnceIsOneForEach(r, roots, m, a, b, level);
    }
  }
}
