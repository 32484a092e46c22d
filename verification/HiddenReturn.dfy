/** Two windows over the standing run report one encounter as two cycles: one pass is direct in the one and
    retrograde in the other. */
module HiddenReturn {
  import opened Optional
  import opened Angles
  import opened CyclePolicy
  import opened Sky
  import opened Stations
  import opened Sampling
  import opened SampleLists
  import opened Brackets
  import opened RootScan
  import opened RootTheorems
  import opened EnvelopeTheorems
  import opened OrbBounds
  import opened Encounters
  import opened Scan
  import opened Directions
  import opened ScanSky
  import opened ScanTheorems
  import opened ScanCompleteness
  import opened Motions
  import opened NodeScan
  import opened StandingRun

  /** The natal longitude, and the grid instant at which the body stands on it. */
  const LEVEL := 100.0
  const PASS := -1020

  /** The gaps in which the body comes into orb and leaves it. */
  const ENTRY := -1196
  const EXIT := -846

  // ----- The four pieces that matter -----

  /** How far the body is from where it comes to stand, `x` days later. */
  lemma BeforeTheEntryKnot(t: real, x: real)
    requires x == EPOCH - 298.75 - t && 0.0 <= x <= 0.125
    ensures RunLift(t) == 102.9859375 + 1.25 * (x * x)
  {
    BeforeAKnot(ENTRY + 1, t);
    assert (t - Knot(ENTRY + 1)) * (t - Knot(ENTRY + 1)) == x * x;
  }

  lemma AfterTheEntryKnot(t: real, x: real)
    requires x == t - (EPOCH - 299.0) && 0.0 <= x <= 0.125
    ensures RunLift(t) == 103.025 - 1.25 * (x * x)
  {
    AfterAKnot(ENTRY, t);
    assert (t - Knot(ENTRY)) * (t - Knot(ENTRY)) == x * x;
  }

  lemma AfterTheExitKnot(t: real, x: real)
    requires x == t - (EPOCH - 211.5) && 0.0 <= x <= 0.125
    ensures RunLift(t) == 97.009375 - 1.25 * (x * x)
  {
    AfterAKnot(EXIT, t);
    assert (t - Knot(EXIT)) * (t - Knot(EXIT)) == x * x;
  }

  // ----- Coming into orb -----

  lemma OutBeforeTheEntry(t: real)
    requires t <= EPOCH - 298.86
    ensures LEVEL + 3.0 < RunLift(t)
  {
    if t <= EPOCH - 299.0 {
      NotLowerBefore(ENTRY, t);
    } else if t <= EPOCH - 298.875 {
      var x := t - (EPOCH - 299.0);
      AfterTheEntryKnot(t, x);
      SquareIsSmall(x, 0.125);
    } else {
      var x := EPOCH - 298.75 - t;
      BeforeTheEntryKnot(t, x);
      SquaresGrow(0.11, x);
    }
  }

  lemma InAtTheEntry()
    ensures LEVEL - 3.0 <= RunLift(EPOCH - 298.85) <= LEVEL + 3.0
  {
    BeforeTheEntryKnot(EPOCH - 298.85, 0.1);
  }

  lemma FallsIntoOrb(c: real, t: real)
    requires EPOCH - 298.86 < c <= t <= EPOCH - 298.75
    ensures LEVEL - 3.0 <= RunLift(t) <= RunLift(c)
  {
    var x, y := EPOCH - 298.75 - t, EPOCH - 298.75 - c;
    BeforeTheEntryKnot(c, y);
    BeforeTheEntryKnot(t, x);
    SquaresGrow(x, y);
    SquareIsNonnegative(x);
  }

  // ----- Leaving orb -----

  /** Past the knot after the exit the body rises too little to come back. */
  lemma OutAfterTheKnot(t: real)
    requires EPOCH - 211.375 <= t <= EPOCH - 211.0
    ensures RunLift(t) < LEVEL - 3.0
  {
    var n := NearTheCrest(t);
    assert n == EXIT + 1 || n == EXIT + 2 || n == EXIT;
    if n == EXIT {
      AfterTheExitKnot(t, 0.125);
    }
  }

  lemma OutAfterTheExit(t: real)
    requires EPOCH - 211.413 <= t
    ensures RunLift(t) < LEVEL - 3.0
  {
    if EPOCH - 211.0 <= t {
      NotHigherAfter(EXIT + 2, t);
    } else if EPOCH - 211.375 <= t {
      OutAfterTheKnot(t);
    } else {
      var x := t - (EPOCH - 211.5);
      AfterTheExitKnot(t, x);
      SquaresGrow(0.087, x);
    }
  }

  lemma InAtTheExit()
    ensures LEVEL - 3.0 <= RunLift(EPOCH - 211.414) <= LEVEL + 3.0
  {
    AfterTheExitKnot(EPOCH - 211.414, 0.086);
  }

  /** On the way out of orb the body only falls. */
  lemma FallsOutOfOrb(s: real, t: real)
    requires EPOCH - 211.5 <= s < t <= EPOCH - 211.375
    ensures RunLift(t) < RunLift(s) < LEVEL + 3.0
  {
    var x, y := s - (EPOCH - 211.5), t - (EPOCH - 211.5);
    AfterTheExitKnot(s, x);
    AfterTheExitKnot(t, y);
    SquaresAscend(y, x);
    SquareIsNonnegative(x);
  }

  // ----- Where the contacts are -----

  lemma FirstContactIsHere(m: Motion, c: real)
    requires IsRun(m) && FirstContact(m, c, LEVEL, 3.0)
    ensures EPOCH - 298.86 < c <= EPOCH - 298.85
    ensures m.lift(c) <= LEVEL + 3.0
  {
    assert RunsAt(m, c) && RunsAt(m, EPOCH - 298.85);
    if c <= EPOCH - 298.86 {
      OutBeforeTheEntry(c);
    }
    InAtTheEntry();
    assert InOrb(m, EPOCH - 298.85, LEVEL, 3.0);
  }

  lemma LastContactIsHere(m: Motion, c: real)
    requires IsRun(m) && LastContact(m, c, LEVEL, 3.0)
    ensures EPOCH - 211.414 <= c < EPOCH - 211.413
    ensures LEVEL - 3.0 <= m.lift(c)
  {
    assert RunsAt(m, c) && RunsAt(m, EPOCH - 211.414);
    if EPOCH - 211.413 <= c {
      OutAfterTheExit(c);
    }
    InAtTheExit();
    assert InOrb(m, EPOCH - 211.414, LEVEL, 3.0);
  }

  lemma HeldAfterTheEntry(m: Motion, c: real)
    requires IsRun(m) && FirstContact(m, c, LEVEL, 3.0)
    ensures InOrbThroughout(m, c + BOUNDARY_PROBE - HALF_ROOT_TOLERANCE, c + BOUNDARY_PROBE + HALF_ROOT_TOLERANCE, LEVEL, 3.0)
  {
    FirstContactIsHere(m, c);
    assert RunsAt(m, c);
    forall u | c + BOUNDARY_PROBE - HALF_ROOT_TOLERANCE <= u <= c + BOUNDARY_PROBE + HALF_ROOT_TOLERANCE
      ensures InOrb(m, u, LEVEL, 3.0)
    {
      assert RunsAt(m, u);
      FallsIntoOrb(c, u);
    }
  }

  lemma HeldBeforeTheExit(m: Motion, c: real)
    requires IsRun(m) && LastContact(m, c, LEVEL, 3.0)
    ensures InOrbThroughout(m, c - BOUNDARY_PROBE - HALF_ROOT_TOLERANCE, c - BOUNDARY_PROBE + HALF_ROOT_TOLERANCE, LEVEL, 3.0)
    ensures LoneContact(m, c, LEVEL, 3.0)
  {
    LastContactIsHere(m, c);
    assert RunsAt(m, c);
    forall u | c - BOUNDARY_PROBE - HALF_ROOT_TOLERANCE <= u <= c - BOUNDARY_PROBE + HALF_ROOT_TOLERANCE
      ensures InOrb(m, u, LEVEL, 3.0)
    {
      assert RunsAt(m, u);
      FallsOutOfOrb(u, c);
    }
    forall t | OnBoundary(m, t, LEVEL, 3.0) && -MERGED <= t - c <= MERGED
      ensures t == c
    {
      assert RunsAt(m, t) && InOrb(m, t, LEVEL, 3.0);
      if t < c {
        FallsOutOfOrb(t, c);
      }
    }
  }

  // ----- What a scan sees of them -----

  /** A scan of the run whose span holds the whole encounter. */
  ghost predicate Holds(options: ScanOptions, m: Motion, request: Request) {
    && ScansNode(options, m) && IsRun(m) && Accepts(options, request, NODE)
    && FirstOf(options, request, NODE) <= -1500 && -16 <= LastOf(options, request, NODE)
  }

  lemma GridIsKnots(options: ScanOptions, m: Motion, i: int)
    requires ScansNode(options, m)
    ensures options.tracks(NODE).grid(i) == Knot(i)
  {
    NodeGridAt(options, m, i);
  }

  lemma RunStandsOnTheGrid(options: ScanOptions, m: Motion, i: int)
    requires ScansNode(options, m) && IsRun(m) && i <= 0
    ensures options.tracks(NODE).speed(options.tracks(NODE).grid(i)) == 0.0 && Skipped(options.tracks(NODE), i)
  {
    GridIsKnots(options, m, i);
    StandsAtKnots(m, i);
    NodeSpeedAt(options, m, Knot(i));
  }

  /** Its gaps are skipped, and hide nothing. */
  lemma RunHidesNothing(options: ScanOptions, m: Motion, i: int)
    requires ScansNode(options, m) && IsRun(m)
    ensures GapIsSeen(options.tracks(NODE), m, i)
  {
    GridIsKnots(options, m, i);
    GridIsKnots(options, m, i + 1);
    forall z | Knot(i) < z < Knot(i + 1)
      ensures !Reversal(m, z)
    {
      var l := StandsOnlyAtKnots(m, z);
      assert l == i;
    }
  }

  lemma HoldsASearchableTrack(options: ScanOptions, m: Motion, request: Request) returns (k: Track, first: int, last: int)
    requires Holds(options, m, request)
    ensures k == options.tracks(NODE) && GridSteps(k) && first == FirstOf(options, request, NODE) && last == LastOf(options, request, NODE)
    ensures SamplesFor(options, request, NODE) == Samples(k, first, last)
    ensures Scene(k, m, SamplesFor(options, request, NODE), REACH)
    ensures Ascending(SamplesFor(options, request, NODE))
  {
    k, first, last := options.tracks(NODE), FirstOf(options, request, NODE), LastOf(options, request, NODE);
    TrackIsSearchable(options, NODE, m, REACH);
    RequestIsOnTheGrid(options, request, NODE);
    RequestIsAScene(options, request, NODE, m, REACH);
  }

  /** Around a knot of the run the only samples are the knots. */
  lemma {:induction false} SampledAtKnots(options: ScanOptions, m: Motion, request: Request, i: int, n: int)
    requires Holds(options, m, request) && -1500 < i < -16 && 0 <= n < |SamplesFor(options, request, NODE)|
    requires Knot(i - 1) < SamplesFor(options, request, NODE)[n].jd < Knot(i + 1)
    ensures SamplesFor(options, request, NODE)[n].jd == Knot(i)
  {
    var k, first, last := HoldsASearchableTrack(options, m, request);
    GridIsKnots(options, m, i - 1);
    GridIsKnots(options, m, i);
    GridIsKnots(options, m, i + 1);
    RunStandsOnTheGrid(options, m, i - 1);
    RunStandsOnTheGrid(options, m, i);
    NoSampleInside(k, first, last, i - 1, n);
    NoSampleInside(k, first, last, i, n);
  }

  lemma {:induction false} KnotIsSampled(options: ScanOptions, m: Motion, request: Request, i: int) returns (n: int)
    requires Holds(options, m, request) && -1500 <= i <= -16
    ensures 0 <= n < |SamplesFor(options, request, NODE)| && SamplesFor(options, request, NODE)[n].jd == Knot(i)
  {
    var k, first, last := HoldsASearchableTrack(options, m, request);
    GridIsKnots(options, m, i);
    n := GridInstantIsASample(k, first, last, i);
  }

  /** The bracket that holds an instant between two knots is the gap between them. */
  lemma {:induction false} BracketIsItsGap(options: ScanOptions, m: Motion, request: Request, i: int, j: int, v: real)
    requires Holds(options, m, request) && -1500 < i < -17 && 0 <= j < |SamplesFor(options, request, NODE)| - 1
    requires Knot(i) < v < Knot(i + 1)
    requires SamplesFor(options, request, NODE)[j].jd <= v <= SamplesFor(options, request, NODE)[j + 1].jd
    ensures SamplesFor(options, request, NODE)[j].jd == Knot(i) && SamplesFor(options, request, NODE)[j + 1].jd == Knot(i + 1)
  {
    var samples := SamplesFor(options, request, NODE);
    var k, first, last := HoldsASearchableTrack(options, m, request);
    var n := KnotIsSampled(options, m, request, i);
    var l := KnotIsSampled(options, m, request, i + 1);
    InstantsDoNotSplit(samples, j, n);
    InstantsDoNotSplit(samples, j, l);
    if Knot(i) < samples[j].jd { SampledAtKnots(options, m, request, i, j); }
    if samples[j + 1].jd < Knot(i + 1) { SampledAtKnots(options, m, request, i + 1, j + 1); }
  }

  lemma {:induction false} EntryBracket(options: ScanOptions, m: Motion, request: Request, j: int)
    requires Holds(options, m, request) && FirstInOrb(m, SamplesFor(options, request, NODE), LEVEL, 3.0, j)
    ensures SamplesFor(options, request, NODE)[j].jd == Knot(ENTRY) && SamplesFor(options, request, NODE)[j + 1].jd == Knot(ENTRY + 1)
  {
    var a, b := SamplesFor(options, request, NODE)[j].jd, SamplesFor(options, request, NODE)[j + 1].jd;
    var v :| a <= v <= b && InOrb(m, v, LEVEL, 3.0);
    assert RunsAt(m, v) && RunsAt(m, EPOCH - 298.85);
    if v <= EPOCH - 298.86 { OutBeforeTheEntry(v); }
    InAtTheEntry();
    assert InOrb(m, EPOCH - 298.85, LEVEL, 3.0);
    BracketIsItsGap(options, m, request, ENTRY, j, Min(v, EPOCH - 298.85));
  }

  lemma {:induction false} ExitBracket(options: ScanOptions, m: Motion, request: Request, j: int)
    requires Holds(options, m, request) && LastInOrb(m, SamplesFor(options, request, NODE), LEVEL, 3.0, j)
    ensures SamplesFor(options, request, NODE)[j].jd == Knot(EXIT) && SamplesFor(options, request, NODE)[j + 1].jd == Knot(EXIT + 1)
  {
    var a, b := SamplesFor(options, request, NODE)[j].jd, SamplesFor(options, request, NODE)[j + 1].jd;
    var v :| a <= v <= b && InOrb(m, v, LEVEL, 3.0);
    assert RunsAt(m, v) && RunsAt(m, EPOCH - 211.414);
    if EPOCH - 211.413 <= v { OutAfterTheExit(v); }
    InAtTheExit();
    assert InOrb(m, EPOCH - 211.414, LEVEL, 3.0);
    BracketIsItsGap(options, m, request, EXIT, j, Max(v, EPOCH - 211.414));
  }

  /** Beside a gap of the run the samples are off a boundary that both its knots are off. */
  lemma {:induction false} ClearGap(options: ScanOptions, m: Motion, request: Request, i: int, j: int)
    requires Holds(options, m, request) && -1499 < i < -18 && 0 <= j < |SamplesFor(options, request, NODE)| - 1
    requires SamplesFor(options, request, NODE)[j].jd == Knot(i) && SamplesFor(options, request, NODE)[j + 1].jd == Knot(i + 1)
    requires 0.001 < Abs(Crest(i) - (LEVEL - 3.0)) && 0.001 < Abs(Crest(i) - (LEVEL + 3.0))
    requires 0.001 < Abs(Crest(i + 1) - (LEVEL - 3.0)) && 0.001 < Abs(Crest(i + 1) - (LEVEL + 3.0))
    ensures ClearAround(SamplesFor(options, request, NODE), j, LEVEL, 3.0)
  {
    var samples := SamplesFor(options, request, NODE);
    var k, first, last := HoldsASearchableTrack(options, m, request);
    StandsAtKnots(m, i);
    StandsAtKnots(m, i + 1);
    forall n | 0 <= n < |samples| && samples[j].jd - MERGED <= samples[n].jd <= samples[j + 1].jd + MERGED
      ensures OffBoundary(samples[n], LEVEL, 3.0)
    {
      assert TrueSample(k, m, samples[n]);
      if samples[n].jd < Knot(i + 1) {
        SampledAtKnots(options, m, request, i, n);
      } else {
        SampledAtKnots(options, m, request, i + 1, n);
      }
    }
  }

  /** The encounter's outermost crossings are clean in every span that holds it. */
  lemma {:induction false} RunIsClean(options: ScanOptions, m: Motion, request: Request)
    requires Holds(options, m, request)
    ensures CleanEntry(m, SamplesFor(options, request, NODE), LEVEL, 3.0)
    ensures CleanExit(m, SamplesFor(options, request, NODE), LEVEL, 3.0)
  {
    var samples := SamplesFor(options, request, NODE);
    forall j | FirstInOrb(m, samples, LEVEL, 3.0, j)
      ensures ClearAround(samples, j, LEVEL, 3.0)
    {
      EntryBracket(options, m, request, j);
      ClearGap(options, m, request, ENTRY, j);
    }
    forall j | LastInOrb(m, samples, LEVEL, 3.0, j)
      ensures ClearAround(samples, j, LEVEL, 3.0)
    {
      ExitBracket(options, m, request, j);
      ClearGap(options, m, request, EXIT, j);
    }
    forall c | FirstContact(m, c, LEVEL, 3.0)
      ensures InOrbThroughout(m, c + BOUNDARY_PROBE - HALF_ROOT_TOLERANCE, c + BOUNDARY_PROBE + HALF_ROOT_TOLERANCE, LEVEL, 3.0)
    {
      HeldAfterTheEntry(m, c);
    }
    forall c | LastContact(m, c, LEVEL, 3.0)
      ensures LoneContact(m, c, LEVEL, 3.0)
      ensures InOrbThroughout(m, c - BOUNDARY_PROBE - HALF_ROOT_TOLERANCE, c - BOUNDARY_PROBE + HALF_ROOT_TOLERANCE, LEVEL, 3.0)
    {
      HeldBeforeTheExit(m, c);
    }
  }

  function RunKey(): Key {
    ConjunctionKey(LEVEL)
  }

  lemma {:induction false} RunIsSeen(options: ScanOptions, m: Motion, request: Request)
    requires Holds(options, m, request)
    ensures EntryIsSeen(options, request, RunKey(), m) && ExitIsSeen(options, request, RunKey(), m)
  {
    RunIsClean(options, m, request);
    forall i
      ensures GapIsSeen(options.tracks(NODE), m, i)
    {
      RunHidesNothing(options, m, i);
    }
    CleanEndsAreSeen(options, request, RunKey(), m, REACH);
  }

  lemma FarBefore(m: Motion, i: int)
    requires IsRun(m) && i <= -1500
    ensures LEVEL + 5.0 < m.lift(Knot(i))
  {
    assert RunsAt(m, Knot(i));
    KeepsToItsLine(Knot(i));
  }

  lemma FarAfter(m: Motion, i: int)
    requires IsRun(m) && -16 <= i
    ensures m.lift(Knot(i)) < LEVEL - 5.0
  {
    assert RunsAt(m, Knot(i));
    if i <= 0 { KeepsToItsLine(Knot(i)); } else { KeepsToItsLineOn(Knot(i)); }
  }

  lemma {:induction false} RunEndsBeyond(options: ScanOptions, m: Motion, request: Request)
    requires Holds(options, m, request)
    ensures EndsBeyond(SamplesFor(options, request, NODE), LEVEL, 5.0)
  {
    var samples := SamplesFor(options, request, NODE);
    var k, first, last := HoldsASearchableTrack(options, m, request);
    SamplesStartOnTheGrid(options, request, NODE);
    GridIsKnots(options, m, first);
    GridIsKnots(options, m, last);
    FarBefore(m, first);
    FarAfter(m, last);
    FarEnds(k, m, samples, LEVEL);
  }

  lemma FarEnds(k: Track, m: Motion, samples: seq<Sample>, level: real)
    requires Scene(k, m, samples, REACH) && samples != []
    requires level + 5.0 < m.lift(samples[0].jd) && m.lift(samples[|samples| - 1].jd) < level - 5.0
    ensures EndsBeyond(samples, level, 5.0)
  {
    assert TrueSample(k, m, samples[0]) && TrueSample(k, m, samples[|samples| - 1]);
  }

  lemma RunKeyIs(options: ScanOptions, m: Motion)
    requires ScansNode(options, m)
    ensures RunKey().body == NODE && LevelOf(RunKey()) == LEVEL && OrbOf(RunKey()) == 3.0 && options.Arc(NODE) == 2.0
  {
    var row := NodeRow();
  }

  lemma InOrbAtAKnot(m: Motion, i: int)
    requires IsRun(m) && -1060 <= i <= -980
    ensures InOrb(m, Knot(i), LEVEL, 3.0)
  {
    StandsAtKnots(m, i);
  }

  /** A window reports the encounter if it holds one of the knots between the entry and the exit. */
  lemma {:induction false} RunIsReported(options: ScanOptions, m: Motion, request: Request, i: int, key: Key, t: real)
    requires Holds(options, m, request) && -1060 <= i <= -980 && key == RunKey() && t == Knot(i)
    requires request.from + HALF_ROOT_TOLERANCE <= t < request.to - HALF_ROOT_TOLERANCE
    ensures VerdictOn(options, request, key).Reported?
  {
    RunIsSeen(options, m, request);
    RunEndsBeyond(options, m, request);
    RunKeyIs(options, m);
    InOrbAtAKnot(m, i);
    InOrbIsReported(options, request, key, m, REACH, t);
  }

  // ----- The pass that leaves unseen -----

  /** A sample on the level that no other sample is close to is a recorded pass. */
  lemma {:induction false} LoneSampleIsAPass(
    k: Track, m: Motion, samples: seq<Sample>, reach: real, base: real, w: int, n: int) returns (r: Root)
    requires Scene(k, m, samples, reach) && 0 <= n < |samples| && OnLevel(m.lift(samples[n].jd), Level(base, w))
    requires forall i :: 0 <= i < |samples| && i != n ==> ROOT_DEDUPE_TOLERANCE < Abs(samples[i].jd - samples[n].jd)
    ensures r in Recorded(k, samples, base, w) && r.jd == samples[n].jd
  {
    LevelledSamplesAreRecorded(k, m, samples, reach, base, w, n);
    r :| r in Recorded(k, samples, base, w) && (r == SampleRoot(samples[n]) || SamePhysicalEvent(r, SampleRoot(samples[n])));
    var i := RecordedIsContributed(k, samples, base, w, r);
    if r !in OnSample(samples[i], base, w) {
      BracketEventIsGenuine(k, m, samples, reach, i, base, w, r);
      InstantsDoNotSplit(samples, i, n);
      assert i == n || i + 1 == n;
      LevelledEndYieldsNothing(k, m, samples, reach, base, w, i, n);
    }
  }

  /** The standstill on the level is a recorded pass. */
  lemma {:induction false} StandstillIsAPass(options: ScanOptions, m: Motion, request: Request) returns (r: Root)
    requires Holds(options, m, request)
    ensures r in PassesOn(options, request, RunKey()) && r.jd == Knot(PASS)
  {
    var samples := SamplesFor(options, request, NODE);
    var k, first, last := HoldsASearchableTrack(options, m, request);
    var n := KnotIsSampled(options, m, request, PASS);
    StandsAtKnots(m, PASS);
    PassStandsAlone(options, m, request, n);
    r := LoneSampleIsAPass(k, m, samples, REACH, RunKey().branch.oriented.targetDeg, RunKey().winding, n);
  }

  lemma {:induction false} PassStandsAlone(options: ScanOptions, m: Motion, request: Request, n: int)
    requires Holds(options, m, request) && 0 <= n < |SamplesFor(options, request, NODE)|
    requires SamplesFor(options, request, NODE)[n].jd == Knot(PASS)
    ensures var samples := SamplesFor(options, request, NODE);
      forall i :: 0 <= i < |samples| && i != n ==> ROOT_DEDUPE_TOLERANCE < Abs(samples[i].jd - samples[n].jd)
  {
    var samples := SamplesFor(options, request, NODE);
    var k, first, last := HoldsASearchableTrack(options, m, request);
    forall i | 0 <= i < |samples| && i != n
      ensures ROOT_DEDUPE_TOLERANCE < Abs(samples[i].jd - samples[n].jd)
    {
      if Knot(PASS - 1) < samples[i].jd < Knot(PASS + 1) {
        SampledAtKnots(options, m, request, PASS, i);
      }
    }
  }

  // ----- The two windows -----

  lemma {:induction false} RunIsFollowed(options: ScanOptions, m: Motion, i: int)
    requires ScansNode(options, m) && IsRun(m) && -16 < i <= 1
    ensures Following(options.tracks(NODE), i, 20) == Some(Retrograde)
    decreases 1 - i
  {
    if i <= 0 {
      RunStandsOnTheGrid(options, m, i);
      RunIsFollowed(options, m, i + 1);
    } else {
      GridIsKnots(options, m, i);
      NodeSpeedAt(options, m, Knot(i));
      assert RunsAt(m, Knot(1));
    }
  }

  lemma {:induction false} PassLeavesUnseen(options: ScanOptions, m: Motion)
    requires ScansNode(options, m) && IsRun(m)
    ensures LeavesUnseen(options.tracks(NODE), Knot(PASS), -16, 20)
  {
    RunIsFollowed(options, m, -15);
    GridIsKnots(options, m, PASS);
    forall j | PASS <= j <= -16
      ensures options.tracks(NODE).speed(options.tracks(NODE).grid(j)) == 0.0
    {
      RunStandsOnTheGrid(options, m, j);
    }
    assert StandsThrough(options.tracks(NODE), PASS, -16);
  }

  function Narrow(): Request {
    Request(EPOCH - 256.0, EPOCH - 254.0, [TargetAt(LEVEL)])
  }

  function Wide(): Request {
    Request(EPOCH - 250.0, EPOCH - 245.0, [TargetAt(LEVEL)])
  }

  /** The one thing a window can change, changed. A true node that meets every hypothesis, with nothing
      overridden, and two windows a few days apart that both report its conjunction with one natal longitude: the
      cycles have one identity, one start and one end, and passes at the same instants, and still they differ,
      because one pass is in a run of standstills that outlasts the span of the first window. */
  lemma {:induction false} TwoWindowsTwoCycles(root: real -> real, inputs: IdentityInputs, digest: CycleIdentity -> int)
    returns (options: ScanOptions, m: Motion)
    requires SquareRoots(root)
    ensures ScansNode(options, m) && Accepts(options, Narrow(), NODE) && Accepts(options, Wide(), NODE)
    ensures InScope(options, Narrow(), RunKey()) && InScope(options, Wide(), RunKey())
    ensures VerdictOn(options, Narrow(), RunKey()).Reported? && VerdictOn(options, Wide(), RunKey()).Reported?
    ensures SameButDirections(VerdictOn(options, Narrow(), RunKey()).cycle, VerdictOn(options, Wide(), RunKey()).cycle)
    ensures VerdictOn(options, Narrow(), RunKey()).cycle != VerdictOn(options, Wide(), RunKey()).cycle
  {
    m := RUN;
    RunMovesAsTheNode(m, root);
    options := NodeIsScanned(m, inputs, digest);
    NodeRequestIsAccepted(options, m, Narrow());
    NodeRequestIsAccepted(options, m, Wide());
    NodeSpanAt(options, m, Narrow(), -2024, -16);
    NodeSpanAt(options, m, Wide(), -2000, 20);
    ConjunctionKeyIsInScope(options, Narrow(), LEVEL);
    ConjunctionKeyIsInScope(options, Wide(), LEVEL);
    RunIsReported(options, m, Narrow(), PASS, RunKey(), Knot(PASS));
    RunIsReported(options, m, Wide(), -988, RunKey(), Knot(-988));
    CyclesDiffer(options, m);
  }

  lemma {:induction false} CyclesDiffer(options: ScanOptions, m: Motion)
    requires Holds(options, m, Narrow()) && Holds(options, m, Wide())
    requires LastOf(options, Narrow(), NODE) == -16 && LastOf(options, Wide(), NODE) == 20
    requires VerdictOn(options, Narrow(), RunKey()).Reported? && VerdictOn(options, Wide(), RunKey()).Reported?
    ensures SameButDirections(VerdictOn(options, Narrow(), RunKey()).cycle, VerdictOn(options, Wide(), RunKey()).cycle)
    ensures VerdictOn(options, Narrow(), RunKey()) != VerdictOn(options, Wide(), RunKey())
  {
    EveryPolicyArcIsPlain(options, NODE);
    var r := StandstillIsAPass(options, m, Narrow());
    PassLeavesUnseen(options, m);
    assert Unseen(options, Narrow(), Wide(), NODE, r.jd);
    assert SomePassLeavesUnseen(options, Narrow(), Wide(), RunKey());
    WindowsReportTheSameCycle(options, Narrow(), Wide(), RunKey(), m, REACH);
  }
}
