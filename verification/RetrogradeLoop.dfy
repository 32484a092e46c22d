/** A true node with a retrograde loop. It meets every hypothesis the scanner's theorems make of the sky, with
    nothing overridden, and it shows what the scanner loses where their conditions fail. */
module RetrogradeLoop {
  import opened Optional
  import opened Angles
  import opened CyclePolicy
  import opened Sky
  import opened Stations
  import opened Sampling
  import opened SampleLists
  import opened Tangents
  import opened Brackets
  import opened RootScan
  import opened RootTheorems
  import opened EnvelopeTheorems
  import opened Slices
  import opened OrbBounds
  import opened Encounters
  import opened Scan
  import opened ScanSky
  import opened ScanTheorems
  import opened Motions
  import opened NodeScan

  // ----- The motion -----

  /** Three tenths of a degree a day, but for a loop: the body stands still at 0 and again half an hour later. */
  function LoopSpeed(x: real): real {
    Min(0.3, 2.5 * (Abs(x - 0.01) - 0.01))
  }

  function LoopLift(x: real): real {
    if x <= -0.12 then 99.982 + 0.3 * (x + 0.12)
    else if x <= 0.01 then 100.0 - 1.25 * (x * x)
    else if x <= 0.14 then 99.99975 + 1.25 * ((x - 0.02) * (x - 0.02))
    else 100.01775 + 0.3 * (x - 0.14)
  }

  /** The loop, with its first standstill at `z`. */
  function LoopAt(z: real): Motion {
    Motion(t => LoopLift(t - z), t => LoopSpeed(t - z))
  }

  ghost predicate LoopsAt(m: Motion, z: real, t: real) {
    m.lift(t) == LoopLift(t - z) && m.speed(t) == LoopSpeed(t - z)
  }

  /** `m` is the loop with its first standstill at `z`. */
  ghost predicate IsLoop(m: Motion, z: real) {
    forall t {:trigger LoopsAt(m, z, t)} :: LoopsAt(m, z, t)
  }

  // ----- It is smooth -----

  lemma LoopBends(m: Motion, z: real, root: real -> real)
    requires IsLoop(m, z) && SquareRoots(root)
    ensures Good(m, z - 0.12, z) && Good(m, z, z + 0.01) && Good(m, z + 0.01, z + 0.02) && Good(m, z + 0.02, z + 0.14)
  {
    forall x | z - 0.12 <= x <= z + 0.01
      ensures m.lift(x) == 100.0 + -1.25 * ((x - z) * (x - z)) && m.speed(x) == 0.0 + 2.0 * -1.25 * (x - z)
    {
      assert LoopsAt(m, z, x);
    }
    BentIsGood(m, root, z - 0.12, z, z, 100.0, -1.25, false);
    BentIsGood(m, root, z, z + 0.01, z, 100.0, -1.25, true);
    LoopBendsBack(m, z, root);
  }

  lemma LoopBendsBack(m: Motion, z: real, root: real -> real)
    requires IsLoop(m, z) && SquareRoots(root)
    ensures Good(m, z + 0.01, z + 0.02) && Good(m, z + 0.02, z + 0.14)
  {
    var v := z + 0.02;
    forall x | z + 0.01 <= x <= z + 0.14
      ensures m.lift(x) == 99.99975 + 1.25 * ((x - v) * (x - v)) && m.speed(x) == 0.0 + 2.0 * 1.25 * (x - v)
    {
      assert LoopsAt(m, z, x);
      assert x - v == x - z - 0.02;
    }
    BentIsGood(m, root, z + 0.01, v, v, 99.99975, 1.25, false);
    BentIsGood(m, root, v, z + 0.14, v, 99.99975, 1.25, true);
  }

  lemma LoopIsEvenOutside(m: Motion, z: real, lo: real, hi: real)
    requires IsLoop(m, z) && lo <= z - 0.12 && z + 0.14 <= hi
    ensures Good(m, lo, z - 0.12) && Good(m, z + 0.14, hi)
  {
    var a, b := z - 0.12, z + 0.14;
    forall x | lo <= x <= a
      ensures m.lift(x) == 99.982 + 0.3 * (x - a) && m.speed(x) == 0.3 + 0.0 * (x - a)
    {
      assert LoopsAt(m, z, x);
    }
    forall x | b <= x <= hi
      ensures m.lift(x) == 100.01775 + 0.3 * (x - b) && m.speed(x) == 0.3 + 0.0 * (x - b)
    {
      assert LoopsAt(m, z, x);
    }
    LineIsGood(m, lo, a, a, 99.982, 0.3);
    LineIsGood(m, b, hi, b, 100.01775, 0.3);
  }

  lemma SixJoin(m: Motion, a: real, b: real, c: real, d: real, e: real, f: real, g: real)
    requires a <= b <= c <= d <= e <= f <= g
    requires Good(m, a, b) && Good(m, b, c) && Good(m, c, d) && Good(m, d, e) && Good(m, e, f) && Good(m, f, g)
    ensures Good(m, a, g)
  {
    GoodJoin(m, a, b, c);
    GoodJoin(m, a, c, d);
    GoodJoin(m, a, d, e);
    GoodJoin(m, a, e, f);
    GoodJoin(m, a, f, g);
  }

  lemma LoopIsGoodAround(m: Motion, z: real, root: real -> real, a: real, b: real)
    requires IsLoop(m, z) && SquareRoots(root)
    ensures GoodAround(m, a, b)
  {
    var lo, hi := Min(a, z - 0.12), Max(b, z + 0.14);
    LoopBends(m, z, root);
    LoopIsEvenOutside(m, z, lo, hi);
    SixJoin(m, lo, z - 0.12, z, z + 0.01, z + 0.02, z + 0.14, hi);
  }

  lemma LoopIsSmooth(m: Motion, z: real, root: real -> real)
    requires IsLoop(m, z) && SquareRoots(root)
    ensures Smooth(m) && Lipschitz(m.speed, STEEPEST)
  {
    forall a, b | a <= b
      ensures GoodAround(m, a, b)
    {
      LoopIsGoodAround(m, z, root, a, b);
    }
    GoodIsSmooth(m);
  }

  // ----- Where it stands still -----

  lemma LoopStandsStill(m: Motion, z: real, t: real)
    requires IsLoop(m, z)
    ensures Reversal(m, t) <==> t == z || t == z + 0.02
    ensures Sign(m.speed(t)) == if t == z || t == z + 0.02 then 0 else if z < t < z + 0.02 then -1 else 1
  {
    assert LoopsAt(m, z, t);
  }

  lemma LoopTurnsBetween(m: Motion, z: real, a: real, b: real)
    requires IsLoop(m, z) && a < b <= a + 0.005 && !Reversal(m, a) && !Reversal(m, b)
    ensures ReversalBetween(m, a, b) <==> Sign(m.speed(a)) != Sign(m.speed(b))
  {
    LoopStandsStill(m, z, a);
    LoopStandsStill(m, z, b);
    LoopStandsStill(m, z, z);
    LoopStandsStill(m, z, z + 0.02);
    if !(a < z < b) && !(a < z + 0.02 < b) {
      forall x | a < x < b
        ensures !Reversal(m, x)
      {
        LoopStandsStill(m, z, x);
      }
    }
  }

  lemma LoopTurnsTwice(m: Motion, z: real)
    requires IsLoop(m, z)
    ensures SpacedReversals(m, 0.005)
  {
    forall y, x | Reversal(m, y) && Reversal(m, x) && y < x
      ensures 0.005 < x - y
    {
      LoopStandsStill(m, z, y);
      LoopStandsStill(m, z, x);
    }
    forall a, b | a < b <= a + 0.005 && !Reversal(m, a) && !Reversal(m, b)
      ensures ReversalBetween(m, a, b) <==> Sign(m.speed(a)) != Sign(m.speed(b))
    {
      LoopTurnsBetween(m, z, a, b);
    }
  }

  // ----- How far it moves -----

  lemma KeepsToItsLine(x: real)
    ensures 99.93 + 0.3 * x <= LoopLift(x) <= 100.07 + 0.3 * x
  {
    if -0.12 < x <= 0.01 {
      SquareIsSmall(x, 0.12);
    } else if 0.01 < x <= 0.14 {
      SquareIsSmall(x - 0.02, 0.12);
    }
  }

  lemma LoopMovesAsTheNode(m: Motion, z: real, root: real -> real)
    requires IsLoop(m, z) && SquareRoots(root) && -1.0 <= z - EPOCH <= 1.0
    ensures NodeMotion(m)
  {
    LoopIsSmooth(m, z, root);
    LoopTurnsTwice(m, z);
    forall t
      ensures 99.93 + 0.3 * (t - z) <= m.lift(t) <= 100.07 + 0.3 * (t - z)
    {
      assert LoopsAt(m, z, t);
      KeepsToItsLine(t - z);
    }
    assert 99.93 + 0.3 * (EPOCH - z) <= m.lift(EPOCH) <= 100.07 + 0.3 * (EPOCH - z);
  }

  /** The hypotheses of the scanner's theorems hold together for a body that turns back and forth: a loop of the
      true node, on any day around the epoch, under a scan with the policy's own steps and lookaround. */
  lemma LoopMeetsEveryHypothesis(z: real, root: real -> real, inputs: IdentityInputs, digest: CycleIdentity -> int)
    returns (options: ScanOptions, m: Motion)
    requires SquareRoots(root) && -1.0 <= z - EPOCH <= 1.0
    ensures IsLoop(m, z) && ScansNode(options, m) && Reversal(m, z) && Reversal(m, z + 0.02)
  {
    m := LoopAt(z);
    LoopMovesAsTheNode(m, z, root);
    options := NodeIsScanned(m, inputs, digest);
    LoopStandsStill(m, z, z);
    LoopStandsStill(m, z, z + 0.02);
  }

  // ----- What a grid standstill hides -----

  /** A window of two days around the epoch. */
  function Window(natal: real): Request {
    Request(EPOCH - 1.0, EPOCH + 1.0, [TargetAt(natal)])
  }

  /** A scan of two days around the epoch, and its samples. */
  lemma WindowIsSampled(options: ScanOptions, m: Motion, natal: real) returns (k: Track, samples: seq<Sample>)
    requires ScansNode(options, m)
    ensures Accepts(options, Window(natal), NODE)
    ensures k == options.tracks(NODE) && GridSteps(k) && samples == SamplesFor(options, Window(natal), NODE) == Samples(k, -1004, 1004)
    ensures Scene(k, m, samples, REACH) && Searchable(k, m) && DepthReaches(k)
    ensures k.grid(0) == EPOCH && k.grid(1) == EPOCH + 0.25
    ensures samples != [] && samples[0].jd == EPOCH - 251.0 && samples[|samples| - 1].jd == EPOCH + 251.0
  {
    NodeRequestIsAccepted(options, m, Window(natal));
    NodeSpanAt(options, m, Window(natal), -1004, 1004);
    k, samples := options.tracks(NODE), SamplesFor(options, Window(natal), NODE);
    TrackIsSearchable(options, NODE, m, REACH);
    RequestIsOnTheGrid(options, Window(natal), NODE);
    RequestIsAScene(options, Window(natal), NODE, m, REACH);
    SamplesStartOnTheGrid(options, Window(natal), NODE);
    NodeGridAt(options, m, 0);
    NodeGridAt(options, m, 1);
    NodeGridAt(options, m, -1004);
    NodeGridAt(options, m, 1004);
  }

  lemma FirstGapIsSkipped(options: ScanOptions, m: Motion)
    requires ScansNode(options, m) && IsLoop(m, EPOCH)
    ensures Skipped(options.tracks(NODE), 0)
  {
    NodeGridAt(options, m, 0);
    NodeSpeedAt(options, m, EPOCH);
    LoopStandsStill(m, EPOCH, EPOCH);
  }

  /** A true node that stands still at a grid instant and turns again half an hour later: the second
      reversal has no station among the samples around it. */
  lemma {:induction false} AGridStandstillHidesAReversal(
    root: real -> real, inputs: IdentityInputs, digest: CycleIdentity -> int)
    returns (options: ScanOptions, m: Motion)
    requires SquareRoots(root)
    ensures ScansNode(options, m) && Reversal(m, EPOCH) && Reversal(m, EPOCH + 0.02)
    ensures !Found(StationsOnly(Samples(options.tracks(NODE), 0, 1)), EPOCH + 0.02)
  {
    options, m := LoopMeetsEveryHypothesis(EPOCH, root, inputs, digest);
    var k, samples := WindowIsSampled(options, m, 0.0);
    FirstGapIsSkipped(options, m);
    SkippedReversalIsLost(k, m, 0, 1, 0, EPOCH + 0.02);
  }

  // ----- And the passes with it -----

  /** A longitude between the two at which the body stands still. */
  const BETWEEN := 99.999875

  lemma LoopAroundTheGap(m: Motion)
    requires IsLoop(m, EPOCH)
    ensures m.lift(EPOCH) == 100.0 && m.lift(EPOCH + 0.25) == 100.05075
    ensures m.lift(EPOCH + 0.01) == BETWEEN && m.lift(EPOCH + 0.03) == BETWEEN
  {
    assert LoopsAt(m, EPOCH, EPOCH) && LoopsAt(m, EPOCH, EPOCH + 0.25);
    assert LoopsAt(m, EPOCH, EPOCH + 0.01) && LoopsAt(m, EPOCH, EPOCH + 0.03);
    assert EPOCH + 0.03 - EPOCH - 0.02 == 0.01;
  }

  lemma {:induction false} OneSidedBracketRecordsNothing(
    k: Track, m: Motion, samples: seq<Sample>, reach: real, n: nat, base: real, w: int)
    requires Scene(k, m, samples, reach) && n < |samples| - 1
    requires OffLevel(m.lift, samples[n].jd, Level(base, w)) && OffLevel(m.lift, samples[n + 1].jd, Level(base, w))
    requires Sign(m.lift(samples[n].jd) - Level(base, w)) == Sign(m.lift(samples[n + 1].jd) - Level(base, w))
    ensures EventsAt(k, samples, n, base, w) == []
  {
    InBracketIff(k, m, samples, reach, n, base, w);
    assert TrueSample(k, m, samples[n]);
  }

  /** Nothing is recorded inside a skipped gap whose ends are on one side of the level. */
  lemma {:induction false} SkippedGapRecordsNothing(
    k: Track, m: Motion, samples: seq<Sample>, reach: real, first: int, last: int, i: int, base: real, w: int, r: Root)
    requires GridSteps(k) && first <= i < last && samples == Samples(k, first, last) && Scene(k, m, samples, reach)
    requires Skipped(k, i) && r in Recorded(k, samples, base, w)
    requires OffLevel(m.lift, k.grid(i), Level(base, w)) && OffLevel(m.lift, k.grid(i + 1), Level(base, w))
    requires Sign(m.lift(k.grid(i)) - Level(base, w)) == Sign(m.lift(k.grid(i + 1)) - Level(base, w))
    ensures r.jd <= k.grid(i) || k.grid(i + 1) <= r.jd
  {
    var n := RecordedIsContributed(k, samples, base, w, r);
    EventTimes(k, m, samples, reach, base, w, n, r);
    if k.grid(i) < r.jd < k.grid(i + 1) {
      NoSampleInside(k, first, last, i, n);
      var l := GridInstantIsASample(k, first, last, i);
      var l' := GridInstantIsASample(k, first, last, i + 1);
      EndsOfTheGap(samples, n, l, l', k.grid(i), k.grid(i + 1), r.jd);
      SkippedGapIsOneBracket(k, first, last, i, n);
      OneSidedBracketRecordsNothing(k, m, samples, reach, n, base, w);
    }
  }

  lemma EndsOfTheGap(samples: seq<Sample>, n: int, l: int, l': int, a: real, b: real, jd: real)
    requires Ascending(samples) && 0 <= n < |samples| && 0 <= l < |samples| && 0 <= l' < |samples|
    requires samples[l].jd == a < jd < b == samples[l'].jd && samples[n].jd <= jd && !(a < samples[n].jd < b)
    requires n + 1 < |samples| ==> jd < samples[n + 1].jd
    requires n + 1 == |samples| ==> jd == samples[n].jd
    ensures n + 1 < |samples| && a <= samples[n].jd && samples[n + 1].jd <= b
  {
    if n < l {
      TimesAscend(samples, n + 1, l);
    }
    if n + 1 < |samples| {
      InstantsDoNotSplit(samples, n, l');
    }
  }

  /** Completeness fails where the level is met twice in a skipped gap. The node of this sky stands exactly on
      the natal longitude going backwards and, half an hour later, going forwards again, both inside the window;
      no pass is recorded within a quarter of an hour of either. */
  lemma {:induction false} TwoExactInstantsAreLost(
    root: real -> real, inputs: IdentityInputs, digest: CycleIdentity -> int)
    returns (options: ScanOptions, m: Motion)
    requires SquareRoots(root)
    ensures ScansNode(options, m) && Accepts(options, Window(BETWEEN), NODE)
    ensures InScope(options, Window(BETWEEN), ConjunctionKey(BETWEEN)) && LevelOf(ConjunctionKey(BETWEEN)) == BETWEEN
    ensures m.lift(EPOCH + 0.01) == BETWEEN && m.lift(EPOCH + 0.03) == BETWEEN
    ensures forall r :: r in PassesOn(options, Window(BETWEEN), ConjunctionKey(BETWEEN)) ==> r.jd <= EPOCH || EPOCH + 0.25 <= r.jd
  {
    options, m := LoopMeetsEveryHypothesis(EPOCH, root, inputs, digest);
    var k, samples := WindowIsSampled(options, m, BETWEEN);
    ConjunctionKeyIsInScope(options, Window(BETWEEN), BETWEEN);
    FirstGapIsSkipped(options, m);
    LoopAroundTheGap(m);
    NothingInTheGap(k, m, samples, BETWEEN, 0);
  }

  lemma {:induction false} NothingInTheGap(k: Track, m: Motion, samples: seq<Sample>, base: real, w: int)
    requires GridSteps(k) && samples == Samples(k, -1004, 1004) && Scene(k, m, samples, REACH) && Skipped(k, 0)
    requires k.grid(0) == EPOCH && k.grid(1) == EPOCH + 0.25 && base == BETWEEN && w == 0
    requires m.lift(EPOCH) == 100.0 && m.lift(EPOCH + 0.25) == 100.05075
    ensures forall r :: r in Recorded(k, samples, base, w) ==> r.jd <= EPOCH || EPOCH + 0.25 <= r.jd
  {
    forall r | r in Recorded(k, samples, base, w)
      ensures r.jd <= EPOCH || EPOCH + 0.25 <= r.jd
    {
      SkippedGapRecordsNothing(k, m, samples, REACH, -1004, 1004, 0, base, w, r);
    }
  }

  // ----- A tangent called backwards -----

  /** A loop whose second standstill is the midpoint of a grid gap; the body leaves it forwards. */
  const PROBED := EPOCH + 0.125
  const TANGENT := 99.99975

  lemma LoopTouches(m: Motion, t: real)
    requires IsLoop(m, PROBED - 0.02) && -HALF_STATION_TOLERANCE <= t - PROBED <= HALF_STATION_TOLERANCE
    ensures OnLevel(m.lift(t), Level(TANGENT, 0)) && m.lift(PROBED) == TANGENT
  {
    assert LoopsAt(m, PROBED - 0.02, t) && LoopsAt(m, PROBED - 0.02, PROBED);
    var v := t - PROBED;
    assert t - (PROBED - 0.02) - 0.02 == v;
    SquareIsSmall(v, HALF_STATION_TOLERANCE);
  }

  lemma LoopLeavesForwards(m: Motion, root: real -> real)
    requires IsLoop(m, PROBED - 0.02) && SquareRoots(root)
    ensures Reversal(m, PROBED) && Way(m, PROBED) == Direct
  {
    LoopIsSmooth(m, PROBED - 0.02, root);
    LoopStandsStill(m, PROBED - 0.02, PROBED);
    forall y | PROBED < y <= PROBED + 0.1
      ensures !Reversal(m, y)
    {
      LoopStandsStill(m, PROBED - 0.02, y);
    }
    LoopStandsStill(m, PROBED - 0.02, PROBED + 0.1);
    LeavesAsItMoves(m, PROBED, PROBED + 0.1);
  }

  lemma LoopSpeedsAroundTheGap(m: Motion)
    requires IsLoop(m, PROBED - 0.02)
    ensures m.speed(EPOCH) == 0.2625 && m.speed(EPOCH + 0.25) == 0.3 && m.speed(PROBED) == 0.0
  {
    assert LoopsAt(m, PROBED - 0.02, EPOCH) && LoopsAt(m, PROBED - 0.02, EPOCH + 0.25) && LoopsAt(m, PROBED - 0.02, PROBED);
  }

  /** The gap is halved at the standstill. */
  lemma {:induction false} ProbeLandsOnTheStandstill(options: ScanOptions, m: Motion, k: Track, a: Sample, b: Sample, depth: nat)
    requires ScansNode(options, m) && IsLoop(m, PROBED - 0.02) && k == options.tracks(NODE)
    requires a == GridSample(k, 0) && b == GridSample(k, 1) && k.probeDepth == depth + 1
    ensures !Skipped(k, 0) && k.Middle(a, b).jd == PROBED && k.Middle(a, b).speed == 0.0
    ensures Gap(k, 0) == k.Spliced(a, k.Middle(a, b), depth) + k.Spliced(k.Middle(a, b), b, depth)
    ensures a.jd == EPOCH && b.jd == EPOCH + 0.25
  {
    var row := NodeRow();
    NodeGridAt(options, m, 0);
    NodeGridAt(options, m, 1);
    NodeSpeedAt(options, m, EPOCH);
    NodeSpeedAt(options, m, EPOCH + 0.25);
    NodeSpeedAt(options, m, PROBED);
    LoopSpeedsAroundTheGap(m);
    assert ShedsAt(k, 0.25);
    OneHalving(k, a, b, k.probeDepth);
  }

  lemma OneHalving(k: Track, a: Sample, b: Sample, depth: nat)
    requires 0 < depth && !k.Closed(a, b) && k.policy.stationSeparation < b.jd - a.jd
    ensures k.Spliced(a, b, depth) == k.Spliced(a, k.Middle(a, b), depth - 1) + k.Spliced(k.Middle(a, b), b, depth - 1)
  {
  }

  /** What the gap's samples need of the track. */
  ghost predicate ProbedTrack(options: ScanOptions, m: Motion, root: real -> real, k: Track) {
    && ScansNode(options, m) && IsLoop(m, PROBED - 0.02) && SquareRoots(root) && k == options.tracks(NODE)
    && Searchable(k, m) && GridSteps(k) && DepthReaches(k)
  }

  lemma GridIsNotNear(options: ScanOptions, m: Motion, i: int, jd: real)
    requires ScansNode(options, m) && jd == options.tracks(NODE).grid(i)
    ensures 5.0 / 86400.0 < Abs(jd - PROBED)
  {
    NodeGridAt(options, m, i);
  }

  lemma GapAround(options: ScanOptions, m: Motion, i: int, jd: real)
    requires ScansNode(options, m) && Abs(jd - PROBED) <= 5.0 / 86400.0
    requires options.tracks(NODE).grid(i) < jd < options.tracks(NODE).grid(i + 1)
    ensures i == 0
  {
    NodeGridAt(options, m, i);
    NodeGridAt(options, m, i + 1);
  }

  lemma OnlyStandstillNear(m: Motion, z: real, jd: real)
    requires IsLoop(m, PROBED - 0.02) && m.speed(z) == 0.0
    requires Abs(jd - z) <= HALF_STATION_TOLERANCE && Abs(jd - PROBED) <= 5.0 / 86400.0
    ensures z == PROBED
  {
    LoopStandsStill(m, PROBED - 0.02, z);
  }

  lemma {:induction false} GapStationIsNear(options: ScanOptions, m: Motion, root: real -> real, k: Track, i: int, s: Sample)
    requires ProbedTrack(options, m, root, k) && !Skipped(k, i) && s in Gap(k, i) && Abs(s.jd - PROBED) <= 5.0 / 86400.0
    ensures i == 0 && Near(s, PROBED)
  {
    LoopIsSmooth(m, PROBED - 0.02, root);
    GapStationIsTold(k, m, i, s);
    GapAround(options, m, i, s.jd);
    var z :| ToldAt(k, m, i, s.jd, s.direction.value, z);
    OnlyStandstillNear(m, z, s.jd);
  }

  /** A sample within five seconds of the standstill is a station that stands for it. */
  lemma {:induction false} OnlyStationsAreNear(
    options: ScanOptions, m: Motion, root: real -> real, k: Track, first: int, last: int, n: int, s: Sample)
    requires ProbedTrack(options, m, root, k) && 0 <= n < |Samples(k, first, last)| && s == Samples(k, first, last)[n]
    requires Abs(s.jd - PROBED) <= 5.0 / 86400.0
    ensures s in Gap(k, 0) && Near(s, PROBED)
  {
    var i := SampleHasASource(k, first, last, n);
    if s in Gap(k, i) && !Skipped(k, i) {
      GapStationIsNear(options, m, root, k, i, s);
    } else {
      GridIsNotNear(options, m, i, s.jd);
    }
  }

  /** What is spliced into the gap below the standstill. */
  lemma {:induction false} StationBelow(options: ScanOptions, m: Motion, root: real -> real, k: Track) returns (below: Sample)
    requires ProbedTrack(options, m, root, k)
    ensures below in Gap(k, 0) && Near(below, PROBED) && below.jd < PROBED && !Skipped(k, 0)
  {
    var a, b, depth := GridSample(k, 0), GridSample(k, 1), k.probeDepth - 1;
    var mid := k.Middle(a, b);
    ProbeLandsOnTheStandstill(options, m, k, a, b, depth);
    HalfAGapIsReached(k, depth);
    StationBelowAStandstill(k, m, a, mid, depth);
    var left := k.Spliced(a, mid, depth);
    below := left[|left| - 1];
    SplicedIsOrdered(k, a, mid, depth);
  }

  lemma {:induction false} StationsBelowAreRetrograde(options: ScanOptions, m: Motion, root: real -> real, k: Track, s: Sample)
    requires ProbedTrack(options, m, root, k) && s in Gap(k, 0) && s.jd < PROBED && Near(s, PROBED)
    ensures s.station && s.direction == Some(Retrograde)
  {
    var a, b, depth := GridSample(k, 0), GridSample(k, 1), k.probeDepth - 1;
    var mid := k.Middle(a, b);
    ProbeLandsOnTheStandstill(options, m, k, a, b, depth);
    HalfAGapIsReached(k, depth);
    SplicedIsOrdered(k, mid, b, depth);
    LoopIsSmooth(m, PROBED - 0.02, root);
    SplicedAreStations(k, a, b, k.probeDepth, s);
    BelowAStandstillIsRetrograde(k, m, a, mid, depth, s);
  }

  lemma HalfAGapIsReached(k: Track, depth: nat)
    requires k.policy == PolicyOf(NODE) && depth == 13
    ensures 0.125 <= Doubled(k.policy.stationSeparation, depth)
  {
    var row := NodeRow();
    DoublingGrows(row.stationSeparation, 5, depth);
  }

  /** The first sample near the standstill is called retrograde. */
  lemma {:induction false} FirstIsRetrograde(options: ScanOptions, m: Motion, root: real -> real, k: Track, first: int, last: int)
    returns (n: nat)
    requires ProbedTrack(options, m, root, k) && first <= 0 < last
    ensures n < |Samples(k, first, last)| && Near(Samples(k, first, last)[n], PROBED)
    ensures Samples(k, first, last)[n].station && Samples(k, first, last)[n].direction == Some(Retrograde)
    ensures forall i :: 0 <= i < n ==> !Near(Samples(k, first, last)[i], PROBED)
  {
    var samples := Samples(k, first, last);
    var below := StationBelow(options, m, root, k);
    SourceIsSampled(k, first, last, 0, below);
    SamplesAreOrdered(k, first, last);
    n := FirstNear(samples, PROBED, below);
    OnlyStationsAreNear(options, m, root, k, first, last, n, samples[n]);
    StationsBelowAreRetrograde(options, m, root, k, samples[n]);
  }

  lemma {:induction false} FirstNear(samples: seq<Sample>, z: real, s: Sample) returns (n: nat)
    requires Ascending(samples) && s in samples && Near(s, z)
    ensures n < |samples| && Near(samples[n], z) && samples[n].jd <= s.jd
    ensures forall i :: 0 <= i < n ==> !Near(samples[i], z)
  {
    n := 0;
    var at :| 0 <= at < |samples| && samples[at] == s;
    while !Near(samples[n], z)
      invariant n <= at && forall i :: 0 <= i < n ==> !Near(samples[i], z)
      decreases at - n
    {
      n := n + 1;
    }
  }

  /** Before a sample on the level nothing is recorded after the sample before it. */
  lemma {:induction false} EarlierEventsAreEarlier(
    k: Track, m: Motion, samples: seq<Sample>, reach: real, n: nat, base: real, w: int, r: Root)
    requires Scene(k, m, samples, reach) && 0 < n < |samples| && OnLevel(m.lift(samples[n].jd), Level(base, w))
    requires Contributed(k, samples, n, base, w, r)
    ensures r.jd <= samples[n - 1].jd
  {
    var i :| 0 <= i < n && r in EventsAt(k, samples, i, base, w);
    EventTimes(k, m, samples, reach, base, w, i, r);
    if i + 1 == n {
      LevelledEndYieldsNothing(k, m, samples, reach, base, w, i, n);
    } else {
      TimesAscend(samples, i + 1, n - 1);
    }
  }

  /** Nothing that is recorded earlier can stand for the first sample near the standstill. */
  lemma {:induction false} NothingMergesBefore(
    options: ScanOptions, m: Motion, root: real -> real, k: Track, first: int, last: int, samples: seq<Sample>, n: nat, jd: real)
    requires ProbedTrack(options, m, root, k) && samples == Samples(k, first, last) && 0 < n < |samples|
    requires Near(samples[n], PROBED) && !Near(samples[n - 1], PROBED)
    requires jd <= samples[n - 1].jd < samples[n].jd
    ensures ROOT_DEDUPE_TOLERANCE < Abs(jd - samples[n].jd)
  {
    if Abs(samples[n - 1].jd - PROBED) <= 5.0 / 86400.0 {
      OnlyStationsAreNear(options, m, root, k, first, last, n - 1, samples[n - 1]);
    }
  }

  lemma {:induction false} FirstNearIsRecorded(
    options: ScanOptions, m: Motion, root: real -> real, k: Track, first: int, last: int, n: nat, base: real, w: int)
    requires ProbedTrack(options, m, root, k) && Scene(k, m, Samples(k, first, last), REACH) && n < |Samples(k, first, last)| - 1
    requires Near(Samples(k, first, last)[n], PROBED) && OnLevel(m.lift(Samples(k, first, last)[n].jd), Level(base, w))
    requires forall i :: 0 <= i < n ==> !Near(Samples(k, first, last)[i], PROBED)
    ensures SampleRoot(Samples(k, first, last)[n]) in Recorded(k, Samples(k, first, last), base, w)
  {
    var samples := Samples(k, first, last);
    var e := SampleRoot(samples[n]);
    assert TrueSample(k, m, samples[n]);
    OnLevelIsNearest(samples[n].lift, base, w);
    LevelledEndYieldsNothing(k, m, samples, REACH, base, w, n, n);
    assert EventsAt(k, samples, n, base, w) == [e];
    RecordedUnlessMerged(k, samples, base, w, n, e);
    EventsComeFromTheirSamples(k, samples, n, base, w);
    forall r | r in Events(k, samples, n, base, w)
      ensures !SamePhysicalEvent(r, e)
    {
      EarlierEventsAreEarlier(k, m, samples, REACH, n, base, w, r);
      NothingMergesBefore(options, m, root, k, first, last, samples, n, r.jd);
    }
  }

  /** The first station of a standstill that the search lands on is called retrograde whichever way the body
      leaves. A true node under the policy's own steps stands still on a natal longitude and leaves it forwards, and
      the pass that is recorded for it is retrograde. */
  lemma {:induction false} ATangentIsCalledBackwards(
    root: real -> real, inputs: IdentityInputs, digest: CycleIdentity -> int)
    returns (options: ScanOptions, m: Motion, r: Root)
    requires SquareRoots(root)
    ensures ScansNode(options, m) && Accepts(options, Window(TANGENT), NODE)
    ensures InScope(options, Window(TANGENT), ConjunctionKey(TANGENT)) && LevelOf(ConjunctionKey(TANGENT)) == TANGENT
    ensures Reversal(m, PROBED) && m.lift(PROBED) == TANGENT && Way(m, PROBED) == Direct
    ensures r in PassesOn(options, Window(TANGENT), ConjunctionKey(TANGENT))
    ensures Abs(r.jd - PROBED) <= HALF_STATION_TOLERANCE && r.direction == Some(Retrograde)
  {
    options, m := LoopMeetsEveryHypothesis(PROBED - 0.02, root, inputs, digest);
    var k, samples := WindowIsSampled(options, m, TANGENT);
    ConjunctionKeyIsInScope(options, Window(TANGENT), TANGENT);
    LoopLeavesForwards(m, root);
    LoopTouches(m, PROBED);
    r := TangentIsRecorded(options, m, root, k, samples, -1004, 1004, TANGENT, 0);
  }

  lemma {:induction false} TangentIsRecorded(
    options: ScanOptions, m: Motion, root: real -> real, k: Track, samples: seq<Sample>, first: int, last: int, base: real, w: int)
    returns (r: Root)
    requires ProbedTrack(options, m, root, k) && first <= 0 < last && samples == Samples(k, first, last)
    requires Scene(k, m, samples, REACH) && samples != [] && EPOCH + 1.0 < samples[|samples| - 1].jd
    requires base == TANGENT && w == 0
    ensures r in Recorded(k, samples, base, w)
    ensures Abs(r.jd - PROBED) <= HALF_STATION_TOLERANCE && r.direction == Some(Retrograde)
  {
    var n := FirstIsRetrograde(options, m, root, k, first, last);
    LoopTouches(m, samples[n].jd);
    FirstNearIsRecorded(options, m, root, k, first, last, n, base, w);
    r := SampleRoot(samples[n]);
  }

  // ----- A brief dip into orb -----

  const LOOP_START := EPOCH + 0.1

  const EIGHT_SECONDS := 8.0 / 86400.0
  const NINE_SECONDS := 9.0 / 86400.0
  const TEN_SECONDS := 10.0 / 86400.0
  const ELEVEN_SECONDS := 11.0 / 86400.0

  /** The orb boundary that the loop's first standstill reaches into for twenty seconds. */
  const DIPPED := 100.0 - 1.25 * (TEN_SECONDS * TEN_SECONDS)

  lemma DipIsBrief(x: real)
    requires x <= 0.01
    ensures DIPPED <= LoopLift(x) <==> -TEN_SECONDS <= x <= TEN_SECONDS
  {
    if -0.12 < x {
      if x < -TEN_SECONDS {
        SquaresAscend(-x, TEN_SECONDS);
      } else if TEN_SECONDS < x {
        SquaresAscend(x, TEN_SECONDS);
      } else if 0.0 <= x {
        if x < TEN_SECONDS { SquaresAscend(TEN_SECONDS, x); }
      } else {
        if -TEN_SECONDS < x { SquaresAscend(TEN_SECONDS, -x); }
      }
    }
  }

  /** Up to the end of the dip the body counts as on its boundary only near the two instants that bound it. */
  lemma DipEdges(x: real)
    requires x <= -EIGHT_SECONDS && OnLevel(LoopLift(x), DIPPED)
    ensures -ELEVEN_SECONDS < x < -NINE_SECONDS
  {
    if -0.12 < x {
      SquaresGrow(Min(-x, ELEVEN_SECONDS), Max(-x, ELEVEN_SECONDS));
      SquaresGrow(Min(-x, NINE_SECONDS), Max(-x, NINE_SECONDS));
    }
  }

  lemma LoopStaysBelow(x: real)
    requires x <= 0.01
    ensures LoopLift(x) <= 100.0
  {
    if -0.12 < x {
      SquareIsNonnegative(x);
    }
  }

  /** The middle of an orb of one and a half degrees whose boundary the loop dips into, sixty degrees past a
      natal longitude. */
  const DIPPED_LEVEL := DIPPED + 1.5
  const DIPPED_NATAL := DIPPED_LEVEL - 60.0

  const DIP_START := LOOP_START - TEN_SECONDS
  const DIP_END := LOOP_START + TEN_SECONDS

  lemma InOrbDuringTheDip(m: Motion, t: real)
    requires IsLoop(m, LOOP_START) && t <= LOOP_START + 0.01
    ensures InOrb(m, t, DIPPED_LEVEL, 1.5) <==> DIP_START <= t <= DIP_END
  {
    var x := t - LOOP_START;
    assert LoopsAt(m, LOOP_START, t);
    DipIsBrief(x);
    LoopStaysBelow(x);
    SquareIsNonnegative(TEN_SECONDS);
  }

  lemma DipStartsTheOrb(m: Motion)
    requires IsLoop(m, LOOP_START)
    ensures FirstContact(m, DIP_START, DIPPED_LEVEL, 1.5)
  {
    InOrbDuringTheDip(m, DIP_START);
    forall t | t < DIP_START
      ensures !InOrb(m, t, DIPPED_LEVEL, 1.5)
    {
      InOrbDuringTheDip(m, t);
    }
  }

  /** A root solved for the dip probes the sky after it, not in it. */
  lemma ProbeMissesTheDip(m: Motion, boundary: real, jd: real, t: real)
    requires IsLoop(m, LOOP_START) && (boundary == DIPPED || boundary == DIPPED + 3.0)
    requires OnLevel(m.lift(t), boundary) && Abs(t - jd) <= HALF_ROOT_TOLERANCE && jd <= DIP_START + HALF_ROOT_TOLERANCE
    ensures !InOrb(m, jd + BOUNDARY_PROBE, DIPPED_LEVEL, 1.5)
  {
    assert LoopsAt(m, LOOP_START, t);
    LoopStaysBelow(t - LOOP_START);
    SquareIsNonnegative(TEN_SECONDS);
    DipEdges(t - LOOP_START);
    InOrbDuringTheDip(m, jd + BOUNDARY_PROBE);
  }

  lemma {:induction false} NoProbeSeesTheDip(
    k: Track, m: Motion, samples: seq<Sample>, targetDeg: real, w: int, boundaries: seq<Root>, p: real)
    requires Scene(k, m, samples, REACH) && IsLoop(m, LOOP_START) && Level(targetDeg, w) == DIPPED_LEVEL
    requires BoundariesOf(k, samples, targetDeg, 1.5, w, boundaries)
    ensures !EntryIsProbed(m, boundaries, p, DIP_START, DIPPED_LEVEL, 1.5)
  {
    forall r | r in boundaries && p <= r.jd <= DIP_START + HALF_ROOT_TOLERANCE
      ensures !InOrb(m, r.jd + BOUNDARY_PROBE, DIPPED_LEVEL, 1.5)
    {
      var boundary := BoundaryRootStandsFor(k, m, samples, REACH, targetDeg, 1.5, w, DIPPED_LEVEL, boundaries, r);
      var t := GenuineStandsForAnInstant(m, samples, boundary, r);
      ProbeMissesTheDip(m, boundary, r.jd, t);
    }
  }

  lemma DipIsInOrb(m: Motion)
    requires IsLoop(m, LOOP_START)
    ensures forall t :: DIP_START <= t <= DIP_END ==> InOrb(m, t, DIPPED_LEVEL, 1.5)
  {
    forall t | DIP_START <= t <= DIP_END
      ensures InOrb(m, t, DIPPED_LEVEL, 1.5)
    {
      InOrbDuringTheDip(m, t);
    }
  }

  lemma LoopEndsBeyond(k: Track, m: Motion, samples: seq<Sample>, level: real)
    requires Scene(k, m, samples, REACH) && IsLoop(m, LOOP_START) && 99.0 <= level <= 102.0
    requires samples != [] && samples[0].jd == EPOCH - 251.0 && samples[|samples| - 1].jd == EPOCH + 251.0
    ensures EndsBeyond(samples, level, 3.5)
  {
    assert TrueSample(k, m, samples[0]) && TrueSample(k, m, samples[|samples| - 1]);
    assert LoopsAt(m, LOOP_START, EPOCH - 251.0) && LoopsAt(m, LOOP_START, EPOCH + 251.0);
    KeepsToItsLine(EPOCH - 251.0 - LOOP_START);
    KeepsToItsLine(EPOCH + 251.0 - LOOP_START);
  }

  lemma {:induction false} DipIsNotBounded(
    k: Track, m: Motion, samples: seq<Sample>, targetDeg: real, w: int, p: real, q: real)
    requires Scene(k, m, samples, REACH) && IsLoop(m, LOOP_START) && ExcursionAtMost(m, 2.0) && SlowAcrossOrb(m, 1.5)
    requires Level(targetDeg, w) == DIPPED_LEVEL && ProvenAt(k, samples, targetDeg, 1.5, w, 2.0, p, q)
    ensures !BoundsFromBelow(m, Solved(k, samples, targetDeg, 1.5, w, 2.0).startJd, DIPPED_LEVEL, 1.5)
  {
    DipStartsTheOrb(m);
    var boundaries := StartBoundsOrbTimeIff(k, m, samples, REACH, targetDeg, 1.5, w, 2.0, p, q, DIP_START);
    NoProbeSeesTheDip(k, m, samples, targetDeg, w, boundaries, p);
  }

  lemma DipKeyIs(options: ScanOptions, m: Motion)
    requires ScansNode(options, m)
    ensures InScope(options, Window(DIPPED_NATAL), SextileKey(DIPPED_NATAL))
    ensures LevelOf(SextileKey(DIPPED_NATAL)) == DIPPED_LEVEL && OrbOf(SextileKey(DIPPED_NATAL)) == 1.5
    ensures 99.0 <= DIPPED_LEVEL <= 102.0 && options.Arc(NODE) == 2.0
  {
    SquareIsNonnegative(TEN_SECONDS);
    var row := NodeRow();
    SextileKeyIsInScope(options, Window(DIPPED_NATAL), DIPPED_NATAL);
  }

  /** The property the envelope promises fails on a brief dip. The true node of this sky meets every
      hypothesis, comes into orb for twenty seconds at its first standstill, and the encounter is proven on
      both sides; but thirty seconds on it is out of orb again, so neither edge of the dip is an entry, and
      the solved start does not bound the time in orb. */
  lemma {:induction false} ABriefDipIsMissed(root: real -> real, inputs: IdentityInputs, digest: CycleIdentity -> int)
    returns (options: ScanOptions, m: Motion, key: Key, p: real, q: real)
    requires SquareRoots(root)
    ensures ScansNode(options, m) && Accepts(options, Window(DIPPED_NATAL), NODE)
    ensures key == SextileKey(DIPPED_NATAL) && InScope(options, Window(DIPPED_NATAL), key)
    ensures LevelOf(key) == DIPPED_LEVEL && OrbOf(key) == 1.5 && ProvenOn(options, Window(DIPPED_NATAL), key, p, q)
    ensures forall t :: DIP_START <= t <= DIP_END ==> InOrb(m, t, DIPPED_LEVEL, 1.5)
    ensures !BoundsFromBelow(m, Solved(options.tracks(NODE), SamplesFor(options, Window(DIPPED_NATAL), NODE),
                                       key.branch.oriented.targetDeg, 1.5, key.winding, 2.0).startJd, DIPPED_LEVEL, 1.5)
  {
    options, m := LoopMeetsEveryHypothesis(LOOP_START, root, inputs, digest);
    key := SextileKey(DIPPED_NATAL);
    var k, samples := WindowIsSampled(options, m, DIPPED_NATAL);
    DipKeyIs(options, m);
    DipIsInOrb(m);
    OrbIsCrossedSlowly(options, NODE, m, REACH, Sextile);
    LoopEndsBeyond(k, m, samples, DIPPED_LEVEL);
    p, q := CrossedSpanIsProven(k, m, samples, REACH, key.branch.oriented.targetDeg, 1.5, key.winding, 2.0);
    DipIsNotBounded(k, m, samples, key.branch.oriented.targetDeg, key.winding, p, q);
  }
}
