/** The sky behind a scan, and what it makes of the samples the scan takes. */
module ScanSky {
  import opened Optional
  import opened Angles
  import opened CyclePolicy
  import opened Sky
  import opened LiftChain
  import opened Stations
  import opened Sampling
  import opened SampleLists
  import opened Brackets
  import opened RootTheorems
  import opened EnvelopeTheorems
  import opened Slices
  import opened OrbBounds
  import opened Scan

  /** How far outside the ephemeris files a grid sample of an admitted span can lie. */
  const SLACK := 2.0

  /** A scan takes a body's arc and lookaround from the policy, unless it is told otherwise. */
  ghost function ToldOr(told: Option<TransitingBody -> real>, body: TransitingBody, usual: real): real {
    if told.Some? then told.value(body) else usual
  }

  ghost function ReturnArc(options: ScanOptions, body: TransitingBody): real {
    ToldOr(options.retrogradeArc, body, PolicyOf(body).retrogradeArc)
  }

  ghost function LooksAround(options: ScanOptions, body: TransitingBody): real {
    ToldOr(options.lookaround, body, PolicyOf(body).lookaround)
  }

  /** The sky behind one body, for a scan with these options. */
  ghost predicate SkyOf(options: ScanOptions, body: TransitingBody, m: Motion, reach: real) {
    && 0.0 < options.Step(body)
    && options.Step(body) + SLACK <= reach
    && Observes(options.source, body, m)
    && MovesAs(m, PolicyOf(body))
    && SlowerThanHalfTurn(m, reach)
    && 0.0 <= ReturnArc(options, body) && ExcursionAtMost(m, ReturnArc(options, body))
  }

  /** A request the scan accepts for this body. */
  ghost predicate Accepts(options: ScanOptions, request: Request, body: TransitingBody) {
    SpanInRange(options, request, body) && request.from <= request.to && 0.0 <= options.Lookaround(body)
  }

  // ----- Where the grid lies -----

  lemma ScaledStrictly(x: real, y: real, step: real)
    requires 0.0 < step && x < y
    ensures x * step < y * step
  {
  }

  lemma IndexNotAfter(step: real, jd: real, x: real, n: int)
    requires 0.0 < step && x * step == jd - EPOCH && n as real <= x
    ensures Instant(step, n) <= jd
  {
    ScaledOrder(n as real, x, step);
  }

  lemma IndexBefore(step: real, jd: real, x: real, n: int)
    requires 0.0 < step && x * step == jd - EPOCH && n as real < x
    ensures Instant(step, n) < jd
  {
    ScaledStrictly(n as real, x, step);
  }

  lemma IndexNotBefore(step: real, jd: real, x: real, n: int)
    requires 0.0 < step && x * step == jd - EPOCH && x <= n as real
    ensures jd <= Instant(step, n)
  {
    ScaledOrder(x, n as real, step);
  }

  lemma IndexAfter(step: real, jd: real, x: real, n: int)
    requires 0.0 < step && x * step == jd - EPOCH && x < n as real
    ensures jd < Instant(step, n)
  {
    ScaledStrictly(x, n as real, step);
  }

  lemma GridIndexIsNear(step: real, jd: real)
    requires 0.0 < step
    ensures jd - step < Instant(step, ((jd - EPOCH) / step).Floor) <= jd
    ensures jd <= Instant(step, Ceil((jd - EPOCH) / step)) < jd + step
  {
    var x := (jd - EPOCH) / step;
    QuotientTimesDivisor(jd - EPOCH, step);
    var below, above := x.Floor, Ceil(x);
    IndexNotAfter(step, jd, x, below);
    IndexAfter(step, jd, x, below + 1);
    InstantsAdvance(step, below);
    IndexNotBefore(step, jd, x, above);
    IndexBefore(step, jd, x, above - 1);
    InstantsAdvance(step, above - 1);
  }

  lemma TrackGridIsNear(k: Track, source: EphemerisSource, body: TransitingBody, step: real, jd: real)
    requires Answers(k, source, body, step) && 0.0 < k.policy.scanStep
    ensures jd - k.policy.scanStep < k.grid(k.gridBelow(jd)) <= jd
    ensures jd <= k.grid(k.gridAbove(jd)) < jd + k.policy.scanStep
  {
    assert SpanAt(k, jd);
    assert GridAt(k, k.gridBelow(jd)) && GridAt(k, k.gridAbove(jd));
    GridIndexIsNear(k.policy.scanStep, jd);
  }

  /** An admitted span lies inside the calendar years the ephemeris files cover. */
  lemma AdmittedSpan(start: real, end: real)
    requires InEphemerisRange(start, end)
    ensures EPHEMERIS_MIN_JD - 0.6 < start && end < EPHEMERIS_MAX_JD - 4.0
  {
  }

  lemma SampleIsTrue(
    k: Track, source: EphemerisSource, body: TransitingBody, step: real, m: Motion, reach: real, sample: Sample)
    requires Answers(k, source, body, step) && Observes(source, body, m)
    requires step + SLACK <= reach && SlowerThanHalfTurn(m, reach)
    requires Faithful(k, sample) && EPHEMERIS_MIN_JD - SLACK <= sample.jd <= EPHEMERIS_MAX_JD + SLACK
    ensures TrueSample(k, m, sample)
  {
    assert AnswersAt(k, source, body, step, sample.jd) && ObservesAt(source, body, m, sample.jd);
    SlowerOverLess(m, step + SLACK, reach);
    LiftIsTheMotion(source, body, m, step, SLACK, sample.jd);
  }

  lemma TrackFollows(k: Track, source: EphemerisSource, body: TransitingBody, step: real, m: Motion)
    requires Answers(k, source, body, step) && Observes(source, body, m)
    ensures Follows(k, m)
  {
    forall t
      ensures FollowsAt(k, m, t)
    {
      assert AnswersAt(k, source, body, step, t) && ObservesAt(source, body, m, t);
    }
  }

  lemma DenserIsDense(samples: seq<Sample>, step: real, reach: real)
    requires Dense(samples, step) && step <= reach
    ensures Dense(samples, reach)
  {
  }

  lemma SamplesLieWithin(samples: seq<Sample>, i: int)
    requires Ascending(samples) && 0 <= i < |samples|
    ensures samples[0].jd <= samples[i].jd <= samples[|samples| - 1].jd
  {
  }

  /** Sampling a stretch of the grid inside the ephemeris gives true, dense, ascending samples. */
  lemma {:induction false} StretchIsAScene(
    k: Track, source: EphemerisSource, body: TransitingBody, step: real, m: Motion, reach: real, first: int, last: int)
    requires Answers(k, source, body, step) && Observes(source, body, m) && Continuous(m.lift)
    requires step + SLACK <= reach && SlowerThanHalfTurn(m, reach)
    requires 0.0 < k.policy.scanStep <= 1.0 && first <= last
    requires EPHEMERIS_MIN_JD - SLACK <= k.grid(first) && k.grid(last) <= EPHEMERIS_MAX_JD + SLACK
    ensures Scene(k, m, Samples(k, first, last), reach)
  {
    var samples := Samples(k, first, last);
    AnswersStepTheGrid(k, source, body, step);
    SamplesAreOrdered(k, first, last);
    SamplesAreFaithful(k, first, last);
    TrackFollows(k, source, body, step, m);
    DenserIsDense(samples, k.policy.scanStep, reach);
    forall i | 0 <= i < |samples|
      ensures TrueSample(k, m, samples[i])
    {
      SamplesLieWithin(samples, i);
      SampleIsTrue(k, source, body, step, m, reach, samples[i]);
    }
  }

  function SpanStart(options: ScanOptions, request: Request, body: TransitingBody): real {
    request.from - options.Lookaround(body)
  }

  function SpanEnd(options: ScanOptions, request: Request, body: TransitingBody): real {
    request.to + options.Lookaround(body)
  }

  /** The grid indices of the span a request is sampled over. */
  function FirstOf(options: ScanOptions, request: Request, body: TransitingBody): int {
    options.tracks(body).gridBelow(SpanStart(options, request, body))
  }

  function LastOf(options: ScanOptions, request: Request, body: TransitingBody): int {
    options.tracks(body).gridAbove(SpanEnd(options, request, body))
  }

  /** Which spans are admitted, to half a millisecond: those that keep a day away from 1800-01-01 and 2400-01-01. */
  lemma AdmittedIff(start: real, end: real)
    ensures InEphemerisRange(start, end) <==>
      2378496.5 - 0.5 / 86400000.0 <= start - 1.0 && end + 1.0 < 2597641.5 - 0.5 / 86400000.0
  {
  }

  lemma {:induction false} GridReflects(k: Track, i: int, j: int)
    requires GridSteps(k) && k.grid(i) <= k.grid(j)
    ensures i <= j
  {
    if j < i {
      GridAscends(k, j, i);
    }
  }

  /** Where the grid of an admitted request lies. */
  lemma RequestIsOnTheGrid(options: ScanOptions, request: Request, body: TransitingBody)
    requires TracksAnswer(options) && 0.0 < options.Step(body) && Accepts(options, request, body)
    ensures FirstOf(options, request, body) <= LastOf(options, request, body)
    ensures EPHEMERIS_MIN_JD - SLACK <= options.tracks(body).grid(FirstOf(options, request, body))
    ensures options.tracks(body).grid(LastOf(options, request, body)) <= EPHEMERIS_MAX_JD + SLACK
    ensures options.tracks(body).grid(FirstOf(options, request, body)) <= request.from
    ensures request.to <= options.tracks(body).grid(LastOf(options, request, body))
    ensures SamplesFor(options, request, body)
         == Samples(options.tracks(body), FirstOf(options, request, body), LastOf(options, request, body))
  {
    SamplesOfTheSpan(options, request, body);
    GridOfTheSpan(options, request, body);
  }

  lemma SamplesOfTheSpan(options: ScanOptions, request: Request, body: TransitingBody)
    ensures SamplesFor(options, request, body)
         == Samples(options.tracks(body), FirstOf(options, request, body), LastOf(options, request, body))
  {
  }

  lemma GridOfTheSpan(options: ScanOptions, request: Request, body: TransitingBody)
    requires TracksAnswer(options) && 0.0 < options.Step(body) && Accepts(options, request, body)
    ensures FirstOf(options, request, body) <= LastOf(options, request, body)
    ensures EPHEMERIS_MIN_JD - SLACK <= options.tracks(body).grid(FirstOf(options, request, body))
    ensures options.tracks(body).grid(LastOf(options, request, body)) <= EPHEMERIS_MAX_JD + SLACK
    ensures options.tracks(body).grid(FirstOf(options, request, body)) <= request.from
    ensures request.to <= options.tracks(body).grid(LastOf(options, request, body))
  {
    var k := options.tracks(body);
    var start, end := SpanStart(options, request, body), SpanEnd(options, request, body);
    EveryRowIsUsable(body);
    AnswersStepTheGrid(k, options.source, body, options.Step(body));
    TrackGridIsNear(k, options.source, body, options.Step(body), start);
    TrackGridIsNear(k, options.source, body, options.Step(body), end);
    AdmittedSpan(start, end);
    GridReflects(k, k.gridBelow(start), k.gridAbove(end));
  }

  // ----- Whether the files answer there -----

  /** The first and last instants at which the engine says its ephemeris files always answer. */
  const COVERAGE_MIN_JD := 2378497.0
  const COVERAGE_MAX_JD := 2597641.0

  lemma {:induction false} GridIndexBelow(k: Track, source: EphemerisSource, body: TransitingBody, step: real, jd: real, n: int)
    requires Answers(k, source, body, step) && GridSteps(k)
    ensures k.grid(n) <= jd <==> n <= k.gridBelow(jd)
  {
    TrackGridIsNear(k, source, body, step, jd);
    var below := k.gridBelow(jd);
    assert k.grid(below + 1) == k.grid(below) + k.policy.scanStep;
    if n <= below {
      GridAscends(k, n, below);
    } else {
      GridAscends(k, below + 1, n);
    }
  }

  lemma {:induction false} SamplesStartOnTheGrid(options: ScanOptions, request: Request, body: TransitingBody)
    requires TracksAnswer(options) && 0.0 < options.Step(body) && Accepts(options, request, body)
    ensures Ascending(SamplesFor(options, request, body)) && SamplesFor(options, request, body) != []
    ensures SamplesFor(options, request, body)[0].jd == options.tracks(body).grid(FirstOf(options, request, body))
    ensures SamplesFor(options, request, body)[|SamplesFor(options, request, body)| - 1].jd
         == options.tracks(body).grid(LastOf(options, request, body))
  {
    var k := options.tracks(body);
    RequestIsOnTheGrid(options, request, body);
    EveryRowIsUsable(body);
    AnswersStepTheGrid(k, options.source, body, options.Step(body));
    SamplesAreOrdered(k, FirstOf(options, request, body), LastOf(options, request, body));
  }

  /** The samples of an admitted request reach as far as the body's lookaround beyond both ends of the window, and
      less than one step further. */
  lemma {:induction false} SpanReachesOut(options: ScanOptions, request: Request, body: TransitingBody)
    requires TracksAnswer(options) && 0.0 < options.Step(body) && Accepts(options, request, body)
    ensures var samples, far, step := SamplesFor(options, request, body), LooksAround(options, body), PolicyOf(body).scanStep;
      && samples != []
      && samples[0].jd <= request.from - far < samples[0].jd + step
      && samples[|samples| - 1].jd - step < request.to + far <= samples[|samples| - 1].jd
  {
    var k := options.tracks(body);
    EveryRowIsUsable(body);
    SamplesStartOnTheGrid(options, request, body);
    TrackGridIsNear(k, options.source, body, options.Step(body), SpanStart(options, request, body));
    TrackGridIsNear(k, options.source, body, options.Step(body), SpanEnd(options, request, body));
  }

  ghost predicate AllFrom(samples: seq<Sample>, jd: real) {
    forall i :: 0 <= i < |samples| ==> jd <= samples[i].jd
  }

  /** A span samples no instant before `covered` if and only if it starts at or after the first grid
      instant that is not before it. */
  lemma {:induction false} SamplesAreCoveredIff(options: ScanOptions, request: Request, body: TransitingBody, covered: real)
    requires TracksAnswer(options) && 0.0 < options.Step(body) && Accepts(options, request, body)
    ensures var k := options.tracks(body);
      AllFrom(SamplesFor(options, request, body), covered)
      <==> k.grid(k.gridAbove(covered)) <= SpanStart(options, request, body)
  {
    var k := options.tracks(body);
    var samples, first := SamplesFor(options, request, body), FirstOf(options, request, body);
    EveryRowIsUsable(body);
    AnswersStepTheGrid(k, options.source, body, options.Step(body));
    SamplesStartOnTheGrid(options, request, body);
    TrackGridIsNear(k, options.source, body, options.Step(body), covered);
    GridIndexBelow(k, options.source, body, options.Step(body), SpanStart(options, request, body), k.gridAbove(covered));
    if k.gridAbove(covered) <= first {
      GridAscends(k, k.gridAbove(covered), first);
    } else {
      GridAscends(k, first, k.gridAbove(covered) - 1);
      assert k.grid(k.gridAbove(covered)) == k.grid(k.gridAbove(covered) - 1) + k.policy.scanStep;
      assert samples[0].jd < covered;
    }
  }

  lemma CoverageIsOnTheGrid(k: Track)
    requires k.policy.scanStep == 0.25 || k.policy.scanStep == 1.0
    requires forall index {:trigger GridAt(k, index)} :: GridAt(k, index)
    ensures exists n :: k.grid(n) == COVERAGE_MIN_JD
    ensures exists n :: k.grid(n) == COVERAGE_MAX_JD
  {
    var n, l := if k.policy.scanStep == 1.0 then -73048 else -292192, if k.policy.scanStep == 1.0 then 146096 else 584384;
    assert GridAt(k, n) && GridAt(k, l);
    assert k.grid(n) == COVERAGE_MIN_JD && k.grid(l) == COVERAGE_MAX_JD;
  }

  /** Every instant an admitted span samples lies where the engine's ephemeris files answer. */
  lemma {:induction false} EverySampleIsCovered(options: ScanOptions, request: Request, body: TransitingBody)
    requires TracksAnswer(options) && 0.0 < options.Step(body) && Accepts(options, request, body)
    ensures forall i :: 0 <= i < |SamplesFor(options, request, body)| ==>
      COVERAGE_MIN_JD <= SamplesFor(options, request, body)[i].jd <= COVERAGE_MAX_JD
  {
    var k, step := options.tracks(body), options.Step(body);
    var start, end := SpanStart(options, request, body), SpanEnd(options, request, body);
    RowsAreModerate(body);
    EveryRowIsUsable(body);
    AnswersStepTheGrid(k, options.source, body, step);
    CoverageIsOnTheGrid(k);
    var n :| k.grid(n) == COVERAGE_MIN_JD;
    var l :| k.grid(l) == COVERAGE_MAX_JD;
    AdmittedStart(start, end);
    GridIndexBelow(k, options.source, body, step, start, n);
    GridAscends(k, n, FirstOf(options, request, body));
    TrackGridIsNear(k, options.source, body, step, end);
    LastIndexAtMost(k, LastOf(options, request, body), l);
    SamplesStartOnTheGrid(options, request, body);
  }

  lemma {:induction false} LastIndexAtMost(k: Track, last: int, l: int)
    requires GridSteps(k) && k.grid(last) < k.grid(l) + k.policy.scanStep
    ensures k.grid(last) <= k.grid(l)
  {
    if l < last {
      GridAscends(k, l, last);
    } else {
      GridAscends(k, last, l);
    }
  }

  lemma AdmittedStart(start: real, end: real)
    requires InEphemerisRange(start, end)
    ensures COVERAGE_MIN_JD <= start && end < COVERAGE_MAX_JD
  {
  }

  // ----- The track of a body that meets its policy -----

  /** Only the true node can turn more often than its grid is taken: it must not turn in the gap that holds this
      bracket if the gap is skipped beside a grid standstill. */
  ghost predicate BracketIsSeen(options: ScanOptions, request: Request, body: TransitingBody, m: Motion, j: int)
    requires 0 <= j < |SamplesFor(options, request, body)| - 1
  {
    body == TrueNode ==>
      SeenAround(options.tracks(body), m, FirstOf(options, request, body), LastOf(options, request, body),
                 SamplesFor(options, request, body)[j].jd, SamplesFor(options, request, body)[j + 1].jd)
  }

  lemma PolicyTrackIsSearchable(k: Track, source: EphemerisSource, body: TransitingBody, step: real, m: Motion)
    requires Answers(k, source, body, step) && k.policy == PolicyOf(body) && Observes(source, body, m)
    requires Lipschitz(m.speed, PolicyOf(body).speedSlope) && SpacedReversals(m, PolicyOf(body).stationSeparation)
    ensures Searchable(k, m) && GridSteps(k) && DepthReaches(k)
  {
    EveryRowIsUsable(body);
    RowsAreModerate(body);
    AnswersStepTheGrid(k, source, body, step);
    TrackFollows(k, source, body, step, m);
    forall t
      ensures k.speed(t) == m.speed(t)
    {
      assert FollowsAt(k, m, t);
    }
    SlopeBoundsTheTrack(k, m);
  }

  lemma TrackIsSearchable(options: ScanOptions, body: TransitingBody, m: Motion, reach: real)
    requires TracksAnswer(options) && SkyOf(options, body, m, reach)
    ensures Searchable(options.tracks(body), m) && GridSteps(options.tracks(body)) && DepthReaches(options.tracks(body))
    ensures options.tracks(body).policy == PolicyOf(body)
  {
    PolicyTrackIsSearchable(options.tracks(body), options.source, body, options.Step(body), m);
  }

  lemma OtherBodiesTurnSlowly(options: ScanOptions, body: TransitingBody, m: Motion, reach: real, first: int, last: int)
    requires TracksAnswer(options) && SkyOf(options, body, m, reach) && body != TrueNode
    ensures NothingSkipped(options.tracks(body), m, first, last)
  {
    TrackIsSearchable(options, body, m, reach);
    RowsAreModerate(body);
    WideReversalsAreNotSkipped(options.tracks(body), m, first, last);
  }

  lemma NothingSkippedIsSeen(k: Track, m: Motion, first: int, last: int, a: real, b: real)
    requires NothingSkipped(k, m, first, last)
    ensures SeenAround(k, m, first, last, a, b)
  {
  }

  /** A bracket that an admitted span samples is tame: for ten bodies whatever it holds, for the true node
      unless it is a skipped gap that holds a reversal. */
  lemma {:induction false} RequestBracketIsTame(
    options: ScanOptions, request: Request, body: TransitingBody, m: Motion, reach: real, j: int)
    requires TracksAnswer(options) && SkyOf(options, body, m, reach) && Accepts(options, request, body)
    requires 0 <= j < |SamplesFor(options, request, body)| - 1 && BracketIsSeen(options, request, body, m, j)
    ensures TameAt(m, SamplesFor(options, request, body), j)
  {
    var first, last := FirstOf(options, request, body), LastOf(options, request, body);
    TrackIsSearchable(options, body, m, reach);
    RequestIsOnTheGrid(options, request, body);
    if body != TrueNode {
      OtherBodiesTurnSlowly(options, body, m, reach, first, last);
      NothingSkippedIsSeen(options.tracks(body), m, first, last,
                           SamplesFor(options, request, body)[j].jd, SamplesFor(options, request, body)[j + 1].jd);
    }
    SearchedBracketIsTame(options.tracks(body), m, first, last, j);
  }

  lemma OrbIsCrossedSlowly(options: ScanOptions, body: TransitingBody, m: Motion, reach: real, aspect: AspectType)
    requires SkyOf(options, body, m, reach)
    ensures SlowAcrossOrb(m, TransitOrbDeg(body, aspect)) && 2.0 * ANGULAR_ZERO_TOLERANCE <= TransitOrbDeg(body, aspect)
  {
    EveryRowIsUsable(body);
    RowsAreModerate(body);
    EveryOrbIsPositive(body, aspect);
    SkyIsSlowAcrossOrb(m, PolicyOf(body).speedSlope, reach, TransitOrbDeg(body, aspect));
  }

  // ----- A body without excursions has an even list -----

  /** A body that never moves against its net motion never stands still. */
  lemma {:induction false} NoExcursionNoReversal(m: Motion, separation: real, z: real)
    requires Smooth(m) && SpacedReversals(m, separation) && 0.0 < separation && ExcursionAtMost(m, 0.0)
    ensures !Reversal(m, z)
  {
    if Reversal(m, z) {
      var a, b := z - separation / 2.0, z + separation / 2.0;
      assert !Reversal(m, a) && !Reversal(m, b);
      assert ReversalBetween(m, a, b);
      assert !ReversalBetween(m, a, z) && !ReversalBetween(m, z, b);
      var c, d := (a + z) / 2.0, (z + b) / 2.0;
      assert !ReversalBetween(m, a, c) && !ReversalBetween(m, d, b);
      assert !Reversal(m, c) && !Reversal(m, d);
      assert Sign(m.speed(c)) == Sign(m.speed(a)) && Sign(m.speed(d)) == Sign(m.speed(b));
      MovesWithTheSpeed(m, a, z, c, a, z);
      MovesWithTheSpeed(m, z, b, d, z, b);
    }
  }

  /** The speed keeps one sign. */
  ghost predicate Steady(k: Track) {
    (forall t :: 0.0 < k.speed(t)) || (forall t :: k.speed(t) < 0.0)
  }

  lemma SteadyWithoutReversals(k: Track, m: Motion)
    requires Smooth(m) && (forall z :: !Reversal(m, z)) && forall t :: k.speed(t) == m.speed(t)
    ensures Steady(k)
  {
    forall t
      ensures Sign(k.speed(t)) == Sign(k.speed(EPOCH)) != 0
    {
      var lo, hi := Min(EPOCH, t) - 1.0, Max(EPOCH, t) + 1.0;
      assert !ReversalBetween(m, lo, hi);
      SameDirectionBetween(m, lo, hi, EPOCH, t);
    }
  }

  lemma {:induction false} SteadyHasNoStations(k: Track, a: Sample, b: Sample, depth: nat)
    requires Steady(k) && a.speed == k.speed(a.jd) && b.speed == k.speed(b.jd)
    ensures k.Spliced(a, b, depth) == []
    decreases depth
  {
    assert k.SameSign(a, b);
    if !k.Closed(a, b) && depth != 0 && k.policy.stationSeparation < b.jd - a.jd {
      SteadyHasNoStations(k, a, k.Middle(a, b), depth - 1);
      SteadyHasNoStations(k, k.Middle(a, b), b, depth - 1);
    }
  }

  lemma {:induction false} SteadyPieces(k: Track, i: int, last: int)
    requires Steady(k)
    ensures Piece(k, i, last) == [GridSample(k, i)]
  {
    var a := GridSample(k, i);
    assert k.speed(a.jd) != 0.0;
    SteadyHasNoStations(k, GridSample(k, i), GridSample(k, i + 1), k.probeDepth);
  }

  /** A steady body is sampled at the grid alone. */
  lemma {:induction false} SteadySamples(k: Track, first: int, last: int)
    requires Steady(k) && first <= last
    ensures |Samples(k, first, last)| == last - first + 1
    ensures forall i :: 0 <= i <= last - first ==> Samples(k, first, last)[i].jd == k.grid(first + i)
    decreases last - first
  {
    SteadyPieces(k, first, last);
    if first < last {
      SteadySamples(k, first + 1, last);
      var rest := Samples(k, first + 1, last);
      assert Samples(k, first, last) == [GridSample(k, first)] + rest;
      forall i | 0 <= i <= last - first
        ensures Samples(k, first, last)[i].jd == k.grid(first + i)
      {
        assert i > 0 ==> Samples(k, first, last)[i] == rest[i - 1];
      }
    } else {
      assert Samples(k, first + 1, last) == [];
    }
  }

  lemma {:induction false} SteadyIsSparse(k: Track, first: int, last: int)
    requires Steady(k) && GridSteps(k) && ROOT_DEDUPE_TOLERANCE < k.policy.scanStep && first <= last
    ensures Sparse(Samples(k, first, last))
  {
    SteadySamples(k, first, last);
    var samples := Samples(k, first, last);
    forall i | 0 <= i < |samples| - 1
      ensures ROOT_DEDUPE_TOLERANCE < samples[i + 1].jd - samples[i].jd
    {
      assert k.grid(first + i + 1) == k.grid(first + i) + k.policy.scanStep;
    }
  }

  // ----- The bounds of a proof divide what is recorded -----

  /** The excursion a scan allows is none, or more than a body covers in a few seconds; the table's are. */
  ghost predicate PlainArc(arcDeg: real) {
    arcDeg == 0.0 || 0.1 <= arcDeg
  }

  lemma EveryPolicyArcIsPlain(options: ScanOptions, body: TransitingBody)
    requires options.retrogradeArc.None?
    ensures PlainArc(options.Arc(body))
  {
    RowsAreModerate(body);
  }

  lemma ArcOutlastsMerging(m: Motion, slope: real, reach: real, samples: seq<Sample>, arcDeg: real)
    requires Smooth(m) && 0.0 <= slope <= 2.5 && Lipschitz(m.speed, slope) && SlowerThanHalfTurn(m, reach) && 1.0 <= reach
    requires 0.1 <= arcDeg
    ensures BoundsDivide(m, samples, arcDeg)
  {
    forall s, t | -MERGING <= s - t <= MERGING
      ensures Abs(m.lift(s) - m.lift(t)) + ANGULAR_ZERO_TOLERANCE < arcDeg
    {
      WayIsShort(m, slope, reach, s, t, MERGING);
    }
  }

  lemma {:induction false} BodyWithoutArcIsSparse(
    options: ScanOptions, body: TransitingBody, m: Motion, reach: real, first: int, last: int)
    requires TracksAnswer(options) && SkyOf(options, body, m, reach) && options.Arc(body) == 0.0 && first <= last
    ensures Sparse(Samples(options.tracks(body), first, last))
  {
    var k := options.tracks(body);
    TrackIsSearchable(options, body, m, reach);
    RowsAreModerate(body);
    forall z
      ensures !Reversal(m, z)
    {
      NoExcursionNoReversal(m, k.policy.stationSeparation, z);
    }
    SteadyWithoutReversals(k, m);
    SteadyIsSparse(k, first, last);
  }

  lemma {:induction false} StretchDivides(
    options: ScanOptions, body: TransitingBody, m: Motion, reach: real, first: int, last: int)
    requires TracksAnswer(options) && SkyOf(options, body, m, reach) && PlainArc(options.Arc(body)) && first <= last
    ensures BoundsDivide(m, Samples(options.tracks(body), first, last), options.Arc(body))
  {
    if options.Arc(body) == 0.0 {
      BodyWithoutArcIsSparse(options, body, m, reach, first, last);
    } else {
      EveryRowIsUsable(body);
      RowsAreModerate(body);
      ArcOutlastsMerging(m, PolicyOf(body).speedSlope, reach, Samples(options.tracks(body), first, last), options.Arc(body));
    }
  }
}
