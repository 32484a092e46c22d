/** The scan is complete: every instant at which a body stands exactly on a target during the window
    is a pass of a returned cycle. */
module ScanCompleteness {
  import opened Angles
  import opened Aspects
  import opened CyclePolicy
  import opened Sky
  import opened Stations
  import opened SampleLists
  import opened Brackets
  import opened RootScan
  import opened RootTheorems
  import opened Envelopes
  import opened EnvelopeTheorems
  import opened Slices
  import opened Encounters
  import opened Rendering
  import opened Scan
  import opened ResponsePolicy
  import opened ScanSky
  import opened ScanTheorems

  /** The furthest a pass can be from the instant it was solved for: the root tolerance, and a merge. */
  const PASS_TOLERANCE := 5.0 / 86400.0

  /** Between two instants the body stays within two zero tolerances of the level. */
  ghost predicate StaysOn(m: Motion, s: real, t: real, level: real) {
    forall u :: Min(s, t) <= u <= Max(s, t) ==> Abs(m.lift(u) - level) <= 2.0 * ANGULAR_ZERO_TOLERANCE
  }

  ghost predicate SampledOnLevel(samples: seq<Sample>, s: real, level: real) {
    exists i :: 0 <= i < |samples| && samples[i].jd == s && OnLevel(samples[i].lift, level)
  }

  // ----- A pass for every instant on the level -----

  lemma {:induction false} BracketOf(samples: seq<Sample>, t: real) returns (i: int)
    requires Ascending(samples) && samples != [] && samples[0].jd <= t <= samples[|samples| - 1].jd
    ensures 0 <= i < |samples| && samples[i].jd <= t
    ensures t == samples[i].jd || (i + 1 < |samples| && t < samples[i + 1].jd)
  {
    i := 0;
    while i + 1 < |samples| && samples[i + 1].jd <= t
      invariant 0 <= i < |samples| && samples[i].jd <= t
      decreases |samples| - i
    {
      i := i + 1;
    }
  }

  /** From an end that counts as on the level, a tame bracket stays near it up to an instant that is on it. */
  lemma TameStaysOnFromTheStart(m: Motion, a: real, b: real, level: real, t: real)
    requires Tame(m.lift, a, b) && a <= t <= b && m.lift(t) == level && OnLevel(m.lift(a), level)
    ensures StaysOn(m, a, t, level)
  {
    var lo, hi :| TameWith(m.lift, a, b, lo, hi);
    forall u | a <= u <= t
      ensures Abs(m.lift(u) - level) <= 2.0 * ANGULAR_ZERO_TOLERANCE
    {
      TameIsNear(m.lift, a, b, lo, hi, u, t);
    }
  }

  lemma TameStaysOnToTheEnd(m: Motion, a: real, b: real, level: real, t: real)
    requires Tame(m.lift, a, b) && a <= t <= b && m.lift(t) == level && OnLevel(m.lift(b), level)
    ensures StaysOn(m, b, t, level)
  {
    var lo, hi :| TameWith(m.lift, a, b, lo, hi);
    forall u | t <= u <= b
      ensures Abs(m.lift(u) - level) <= 2.0 * ANGULAR_ZERO_TOLERANCE
    {
      TameIsNear(m.lift, a, b, lo, hi, t, u);
    }
  }

  /** A tame bracket keeps its order up to two zero tolerances. */
  lemma TameIsNear(f: real -> real, a: real, b: real, lo: real, hi: real, u: real, t: real)
    requires TameWith(f, a, b, lo, hi) && a <= u <= t <= b
    ensures Abs(f(t) - f(a)) <= ANGULAR_ZERO_TOLERANCE ==> Abs(f(u) - f(t)) <= 2.0 * ANGULAR_ZERO_TOLERANCE
    ensures Abs(f(u) - f(b)) <= ANGULAR_ZERO_TOLERANCE ==> Abs(f(t) - f(u)) <= 2.0 * ANGULAR_ZERO_TOLERANCE
  {
    assert Abs(f(lo) - f(a)) <= ANGULAR_ZERO_TOLERANCE && Abs(f(hi) - f(b)) <= ANGULAR_ZERO_TOLERANCE;
  }

  lemma RepresentedNear(roots: seq<Root>, event: Root) returns (r: Root)
    requires Represented(roots, event)
    ensures r in roots && Abs(r.jd - event.jd) <= ROOT_DEDUPE_TOLERANCE
  {
    r :| r in roots && (r == event || SamePhysicalEvent(r, event));
  }

  /** Around `t` the bracket is tame, or its ends are off the level and the level is met in it once alone and crossed. */
  ghost predicate ShowsAt(m: Motion, samples: seq<Sample>, i: int, level: real)
    requires 0 <= i < |samples| - 1
  {
    || TameAt(m, samples, i)
    || (&& OffLevel(m.lift, samples[i].jd, level) && OffLevel(m.lift, samples[i + 1].jd, level)
        && MetOnceIfAtAll(m, samples[i].jd, samples[i + 1].jd, level))
  }

  /** The brackets that hold `t` show the level. */
  ghost predicate Shows(m: Motion, samples: seq<Sample>, t: real, level: real) {
    forall i :: 0 <= i < |samples| - 1 && samples[i].jd < t < samples[i + 1].jd ==> ShowsAt(m, samples, i, level)
  }

  /** A pass is recorded for an instant on the level: near that instant itself, or near a sample
      that counts as on the level and from which the body has not moved. */
  lemma {:induction false} PassIsRecorded(
    k: Track, m: Motion, samples: seq<Sample>, reach: real, base: real, w: int, t: real) returns (s: real, r: Root)
    requires Scene(k, m, samples, reach) && Shows(m, samples, t, Level(base, w))
    requires samples != [] && samples[0].jd <= t <= samples[|samples| - 1].jd && m.lift(t) == Level(base, w)
    ensures r in Recorded(k, samples, base, w) && Abs(r.jd - s) <= PASS_TOLERANCE
    ensures StaysOn(m, s, t, Level(base, w))
    ensures s == t || SampledOnLevel(samples, s, Level(base, w))
  {
    var i := BracketOf(samples, t);
    assert TrueSample(k, m, samples[i]);
    if t == samples[i].jd {
      s, r := PassOnASample(k, m, samples, reach, base, w, i);
    } else {
      assert ShowsAt(m, samples, i, Level(base, w)) && TrueSample(k, m, samples[i + 1]);
      s, r := PassInABracket(k, m, samples, reach, base, w, i, t);
    }
  }

  /** A pass for an instant inside a bracket that shows it. */
  lemma {:induction false} PassInABracket(
    k: Track, m: Motion, samples: seq<Sample>, reach: real, base: real, w: int, i: int, t: real) returns (s: real, r: Root)
    requires Scene(k, m, samples, reach) && 0 <= i < |samples| - 1 && ShowsAt(m, samples, i, Level(base, w))
    requires samples[i].jd < t < samples[i + 1].jd && m.lift(t) == Level(base, w)
    ensures r in Recorded(k, samples, base, w) && Abs(r.jd - s) <= PASS_TOLERANCE
    ensures StaysOn(m, s, t, Level(base, w))
    ensures s == t || SampledOnLevel(samples, s, Level(base, w))
  {
    var a, b, level := samples[i], samples[i + 1], Level(base, w);
    assert TrueSample(k, m, a) && TrueSample(k, m, b);
    if OnLevel(a.lift, level) {
      s, r := PassOnASample(k, m, samples, reach, base, w, i);
      TameStaysOnFromTheStart(m, a.jd, b.jd, level, t);
    } else if OnLevel(b.lift, level) {
      s, r := PassOnASample(k, m, samples, reach, base, w, i + 1);
      TameStaysOnToTheEnd(m, a.jd, b.jd, level, t);
    } else {
      s := t;
      r := PassOffTheSamples(k, m, samples, reach, base, w, i, t);
    }
  }

  lemma {:induction false} PassOnASample(
    k: Track, m: Motion, samples: seq<Sample>, reach: real, base: real, w: int, i: int) returns (s: real, r: Root)
    requires Scene(k, m, samples, reach) && 0 <= i < |samples| && OnLevel(samples[i].lift, Level(base, w))
    ensures s == samples[i].jd && r in Recorded(k, samples, base, w) && Abs(r.jd - s) <= PASS_TOLERANCE
  {
    assert TrueSample(k, m, samples[i]);
    s := samples[i].jd;
    LevelledSamplesAreRecorded(k, m, samples, reach, base, w, i);
    r := RepresentedNear(Recorded(k, samples, base, w), SampleRoot(samples[i]));
  }

  lemma {:induction false} PassOffTheSamples(
    k: Track, m: Motion, samples: seq<Sample>, reach: real, base: real, w: int, i: int, t: real) returns (r: Root)
    requires Scene(k, m, samples, reach) && 0 <= i < |samples| - 1 && ShowsAt(m, samples, i, Level(base, w))
    requires samples[i].jd < t < samples[i + 1].jd && m.lift(t) == Level(base, w)
    requires OffLevel(m.lift, samples[i].jd, Level(base, w)) && OffLevel(m.lift, samples[i + 1].jd, Level(base, w))
    ensures r in Recorded(k, samples, base, w) && Abs(r.jd - t) <= PASS_TOLERANCE
  {
    var a, b, level := samples[i].jd, samples[i + 1].jd, Level(base, w);
    if Tame(m.lift, a, b) {
      CrossingIsMetOnce(m, a, b, level, t);
    }
    BracketIsExactIff(k, m, samples, reach, i, base, w);
    assert ExactWithin(m, a, b, level, t);
    var solved :| solved in InBracket(k, samples[i], samples[i + 1], base, w) && StandsFor(solved, t);
    EventIsRepresented(k, samples, base, w, i, solved);
    r := RepresentedNear(Recorded(k, samples, base, w), solved);
  }

  /** A tame bracket whose ends are off the level meets it once alone, and crosses it. */
  lemma CrossingIsMetOnce(m: Motion, a: real, b: real, level: real, t: real)
    requires Tame(m.lift, a, b) && OffLevel(m.lift, a, level) && OffLevel(m.lift, b, level)
    requires a <= t <= b && m.lift(t) == level
    ensures MetOnceIfAtAll(m, a, b, level)
  {
    CrossingIsUnique(m.lift, a, b, level, t);
    forall s | ExactWithin(m, a, b, level, s)
      ensures s == t
    {
      CrossingIsUnique(m.lift, a, b, level, s);
    }
  }

  // ----- A pass in the window is never omitted -----

  lemma {:induction false} BoundsSurroundThePasses(
    lon: real -> real, samples: seq<Sample>, levels: LevelRoots, level: real, orbDeg: real, arcDeg: real, r: Root)
    requires r in levels.exact
    ensures var e := EnvelopeOf(lon, samples, levels, level, orbDeg, arcDeg);
      && (e.provenLeft.Some? ==> e.provenLeft.value < r.jd) && (e.provenRight.Some? ==> r.jd < e.provenRight.value)
  {
    PassInOrder(levels.exact, r);
    var passes := SortedByTime(levels.exact);
    var first, last := passes[0].jd, passes[|passes| - 1].jd;
    if ProvenLeft(samples, level, orbDeg + arcDeg, first).Some? {
      var i := ProvenLeftIsASample(samples, level, orbDeg + arcDeg, first);
    }
    if ProvenRight(samples, level, orbDeg + arcDeg, first, last).Some? {
      var i := ProvenRightIsASample(samples, level, orbDeg + arcDeg, first, last);
    }
  }

  /** A winding with a recorded pass inside the half-open window is reported, unless it is undecided. */
  lemma {:induction false} PassInTheWindowIsNotOmitted(options: ScanOptions, request: Request, key: Key, r: Root)
    requires r in Recorded(options.tracks(key.body), SamplesFor(options, request, key.body),
                           key.branch.oriented.targetDeg, key.winding)
    requires request.from <= r.jd < request.to
    ensures VerdictOn(options, request, key) != Omitted
  {
    var k, samples := options.tracks(key.body), SamplesFor(options, request, key.body);
    var levels := LevelsOf(k, samples, key.branch.oriented.targetDeg, OrbOf(key), key.winding);
    BoundsSurroundThePasses(k.lon, samples, levels, LevelOf(key), OrbOf(key), options.Arc(key.body), r);
    SolvedEndsEnclose(k.lon, samples, levels, LevelOf(key), OrbOf(key), options.Arc(key.body), r);
  }

  lemma {:induction false} SolvedEndsEnclose(
    lon: real -> real, samples: seq<Sample>, levels: LevelRoots, level: real, orbDeg: real, arcDeg: real, r: Root)
    requires r in levels.exact
    ensures var e := EnvelopeOf(lon, samples, levels, level, orbDeg, arcDeg);
      e.startJd.Some? && e.endJd.Some? ==> e.startJd.value <= r.jd <= e.endJd.value
  {
    if EnvelopeOf(lon, samples, levels, level, orbDeg, arcDeg).startJd.Some?
       && EnvelopeOf(lon, samples, levels, level, orbDeg, arcDeg).endJd.Some?
    {
      EnvelopeEnclosesPasses(lon, samples, levels, level, orbDeg, arcDeg);
    }
  }

  // ----- The theorem -----

  ghost predicate HasPassAt(cycle: NormalizedCycle, at: int) {
    exists i :: 0 <= i < |cycle.passes| && cycle.passes[i].exactAt == at
  }

  lemma {:induction false} ReportedHasThePass(options: ScanOptions, request: Request, key: Key, r: Root)
    requires VerdictOn(options, request, key).Reported?
    requires r in Recorded(options.tracks(key.body), SamplesFor(options, request, key.body),
                           key.branch.oriented.targetDeg, key.winding)
    ensures HasPassAt(VerdictOn(options, request, key).cycle, Seconds1970(r.jd))
  {
    var exact := Recorded(options.tracks(key.body), SamplesFor(options, request, key.body),
                          key.branch.oriented.targetDeg, key.winding);
    SortingKeepsTheRoots(exact);
    var i :| 0 <= i < |SortedByTime(exact)| && SortedByTime(exact)[i] == r;
    assert VerdictOn(options, request, key).cycle.passes[i].exactAt == Seconds1970(r.jd);
  }

  lemma {:induction false} SettledIsReturned(
    options: ScanOptions, request: Request, keys: seq<Key>, cycles: seq<NormalizedCycle>, key: Key)
    requires Answered(VerdictsUnder(options, request), options, request, keys, cycles)
    requires InScope(options, request, key) && VerdictOn(options, request, key) != Omitted
    ensures key in keys && VerdictOn(options, request, key).Reported? && VerdictOn(options, request, key).cycle in cycles
  {
    var verdict := VerdictsUnder(options, request);
    assert JudgesAt(verdict, options, request, key) && Settled(verdict, keys, key);
    var found :| Collected(verdict, keys, found) && cycles == SortedCycles(found);
    SortedCyclesAreOrdered(found);
    var i :| 0 <= i < |keys| && keys[i] == key;
    assert verdict(keys[i]) == Reported(found[i]);
  }

  /** Only the true node can hide an instant: it must not turn in the gap that holds it if the gap is skipped
      beside a grid standstill, or else meet the level in that gap once alone, and cross it. */
  ghost predicate NodeShows(options: ScanOptions, request: Request, body: TransitingBody, m: Motion, t: real, level: real) {
    var k := options.tracks(body);
    body == TrueNode ==>
      forall i :: FirstOf(options, request, body) <= i < LastOf(options, request, body) && k.grid(i) < t < k.grid(i + 1) ==>
        GapShows(k, m, i, level)
  }

  ghost predicate GapShows(k: Track, m: Motion, i: int, level: real) {
    || GapIsSeen(k, m, i)
    || (&& OffLevel(m.lift, k.grid(i), level) && OffLevel(m.lift, k.grid(i + 1), level)
        && MetOnceIfAtAll(m, k.grid(i), k.grid(i + 1), level))
  }

  lemma {:induction false} NodeBracketShows(
    options: ScanOptions, request: Request, body: TransitingBody, m: Motion, reach: real, t: real, level: real, n: int, i: int)
    requires TracksAnswer(options) && SkyUnder(options, request, body, m, reach)
    requires 0 <= n < |SamplesFor(options, request, body)| - 1
    requires FirstOf(options, request, body) <= i < LastOf(options, request, body)
    requires options.tracks(body).grid(i) <= SamplesFor(options, request, body)[n].jd
    requires SamplesFor(options, request, body)[n + 1].jd <= options.tracks(body).grid(i + 1)
    requires GapShows(options.tracks(body), m, i, level)
    ensures ShowsAt(m, SamplesFor(options, request, body), n, level)
  {
    var k, first, last := options.tracks(body), FirstOf(options, request, body), LastOf(options, request, body);
    TrackIsSearchable(options, body, m, reach);
    RequestIsOnTheGrid(options, request, body);
    if GapIsSeen(k, m, i) {
      forall j | first <= j < last && k.grid(j) <= SamplesFor(options, request, body)[n].jd
                 && SamplesFor(options, request, body)[n + 1].jd <= k.grid(j + 1)
        ensures GapIsSeen(k, m, j)
      {
        SamplesAreOrdered(k, first, last);
        OneGapHoldsABracket(k, i, j, SamplesFor(options, request, body)[n].jd, SamplesFor(options, request, body)[n + 1].jd);
      }
      SearchedBracketIsTame(k, m, first, last, n);
    } else {
      SkippedGapIsOneBracket(k, first, last, i, n);
    }
  }

  lemma OneGapHoldsABracket(k: Track, i: int, j: int, a: real, b: real)
    requires GridSteps(k) && a < b
    requires k.grid(i) <= a && b <= k.grid(i + 1) && k.grid(j) <= a && b <= k.grid(j + 1)
    ensures i == j
  {
    if i < j {
      GridAscends(k, i + 1, j);
    } else if j < i {
      GridAscends(k, j + 1, i);
    }
  }

  lemma {:induction false} RequestShows(
    options: ScanOptions, request: Request, body: TransitingBody, m: Motion, reach: real, t: real, level: real)
    requires TracksAnswer(options) && SkyUnder(options, request, body, m, reach)
    requires NodeShows(options, request, body, m, t, level)
    ensures Shows(m, SamplesFor(options, request, body), t, level)
  {
    var k, samples := options.tracks(body), SamplesFor(options, request, body);
    forall n | 0 <= n < |samples| - 1 && samples[n].jd < t < samples[n + 1].jd
      ensures ShowsAt(m, samples, n, level)
    {
      if body == TrueNode {
        RequestIsOnTheGrid(options, request, body);
        TrackIsSearchable(options, body, m, reach);
        var i := BracketLiesInAGap(k, FirstOf(options, request, body), LastOf(options, request, body), n, (samples[n].jd + t) / 2.0);
        assert GapShows(k, m, i, level);
        NodeBracketShows(options, request, body, m, reach, t, level, n, i);
      } else {
        RequestBracketIsTame(options, request, body, m, reach, n);
      }
    }
  }

  /** Every instant of the window at which a body stands exactly on a target in scope is a pass of a
      cycle in the answer, to within five seconds. The pass belongs to the instant `s`, which is `t` itself
      unless a sample counts as on the level and the body does not move off it between the two. */
  lemma {:induction false} ExactInstantsAreReported(
    options: ScanOptions, request: Request, key: Key, m: Motion, reach: real,
    keys: seq<Key>, cycles: seq<NormalizedCycle>, t: real) returns (s: real, r: Root)
    requires TracksAnswer(options) && SkyUnder(options, request, key.body, m, reach)
    requires NodeShows(options, request, key.body, m, t, LevelOf(key))
    requires Answered(VerdictsUnder(options, request), options, request, keys, cycles) && InScope(options, request, key)
    requires request.from <= t <= request.to && m.lift(t) == LevelOf(key)
    ensures Abs(r.jd - s) <= PASS_TOLERANCE && StaysOn(m, s, t, LevelOf(key))
    ensures s == t || SampledOnLevel(SamplesFor(options, request, key.body), s, LevelOf(key))
    ensures request.from + PASS_TOLERANCE <= s < request.to - PASS_TOLERANCE ==>
      && key in keys && VerdictOn(options, request, key).Reported? && VerdictOn(options, request, key).cycle in cycles
      && HasPassAt(VerdictOn(options, request, key).cycle, Seconds1970(r.jd))
  {
    var k, samples := options.tracks(key.body), SamplesFor(options, request, key.body);
    RequestIsAScene(options, request, key.body, m, reach);
    RequestShows(options, request, key.body, m, reach, t, LevelOf(key));
    RequestIsOnTheGrid(options, request, key.body);
    SamplesStartOnTheGrid(options, request, key.body);
    s, r := PassIsRecorded(k, m, samples, reach, key.branch.oriented.targetDeg, key.winding, t);
    if request.from + PASS_TOLERANCE <= s < request.to - PASS_TOLERANCE {
      PassInTheWindowIsNotOmitted(options, request, key, r);
      SettledIsReturned(options, request, keys, cycles, key);
      ReportedHasThePass(options, request, key, r);
    }
  }

  // ----- Lookaround decides -----

  /** Every exact aspect is in scope: an instant at which a body is at the angle of any of the five aspects from any
      natal target is exactly on the lifted target of some key. */
  lemma ExactAspectHasAKey(
    options: ScanOptions, request: Request, body: TransitingBody, target: NatalTarget, aspect: AspectType, m: Motion, t: real)
    returns (key: Key)
    requires body in options.bodies && target in request.targets && DistinctTargets(request.targets)
    requires AngularSeparation(m.lift(t), target.longitude) == AspectAngle(aspect)
    ensures InScope(options, request, key) && key.body == body && key.branch.target == target && key.branch.aspect == aspect
    ensures m.lift(t) == LevelOf(key)
  {
    var targets := OrientedTargets(target.longitude, AspectAngle(aspect));
    EveryAspectIsATargetHit(m.lift(t), target.longitude, aspect);
    var i :| 0 <= i < |targets| && SameDirection(m.lift(t), targets[i].targetDeg);
    var w :| m.lift(t) == targets[i].targetDeg + Turns(w);
    key := Key(body, Branch(target, aspect, targets[i]), w);
    assert BranchesOf(target, aspect)[i] == key.branch;
    EveryAspectIsScanned(aspect);
    BranchListIsLabelled(request.targets, ASPECTS);
  }

  lemma EveryAspectIsScanned(aspect: AspectType)
    ensures aspect in ASPECTS
  {
    match aspect
    case Conjunction => assert ASPECTS[0] == aspect;
    case Sextile => assert ASPECTS[1] == aspect;
    case Square => assert ASPECTS[2] == aspect;
    case Trine => assert ASPECTS[3] == aspect;
    case Opposition => assert ASPECTS[4] == aspect;
  }

  /** Completeness in the terms of the chart: whenever in the window a body is exactly at one of the five aspects
      with a natal target, up to the trim at the ends, a returned cycle of that body, target and aspect has a pass then. */
  lemma {:induction false} ExactAspectsAreReported(
    options: ScanOptions, request: Request, body: TransitingBody, target: NatalTarget, aspect: AspectType, m: Motion, reach: real,
    keys: seq<Key>, cycles: seq<NormalizedCycle>, t: real) returns (key: Key, s: real, r: Root)
    requires TracksAnswer(options) && SkyUnder(options, request, body, m, reach)
    requires NodeShows(options, request, body, m, t, m.lift(t))
    requires Answered(VerdictsUnder(options, request), options, request, keys, cycles)
    requires body in options.bodies && target in request.targets && DistinctTargets(request.targets)
    requires request.from <= t <= request.to && AngularSeparation(m.lift(t), target.longitude) == AspectAngle(aspect)
    ensures key.body == body && key.branch.target == target && key.branch.aspect == aspect
    ensures Abs(r.jd - s) <= PASS_TOLERANCE && StaysOn(m, s, t, m.lift(t))
    ensures s == t || SampledOnLevel(SamplesFor(options, request, body), s, m.lift(t))
    ensures request.from + PASS_TOLERANCE <= s < request.to - PASS_TOLERANCE ==>
      exists c :: c in cycles && c.body == body && c.target == target.body && c.aspect == aspect && HasPassAt(c, Seconds1970(r.jd))
  {
    key := ExactAspectHasAKey(options, request, body, target, aspect, m, t);
    s, r := ExactInstantsAreReported(options, request, key, m, reach, keys, cycles, t);
    if request.from + PASS_TOLERANCE <= s < request.to - PASS_TOLERANCE {
      ReportedNamesItsKey(options, request, key);
    }
  }

  lemma ReportedNamesItsKey(options: ScanOptions, request: Request, key: Key)
    requires VerdictOn(options, request, key).Reported?
    ensures var c := VerdictOn(options, request, key).cycle;
      c.body == key.body && c.target == key.branch.target.body && c.aspect == key.branch.aspect
  {
    var encounter := EncounterOn(options, request, key);
  }

  /** The body is beyond return on one side of the level for a step before `start`, and on the other for a step
      after `end`. */
  ghost predicate CrossesOver(m: Motion, start: real, end: real, step: real, level: real, beyondReturn: real) {
    || ((forall x :: start - step < x <= start ==> m.lift(x) - level < -beyondReturn)
        && (forall x :: end <= x < end + step ==> beyondReturn < m.lift(x) - level))
    || ((forall x :: start - step < x <= start ==> beyondReturn < m.lift(x) - level)
        && (forall x :: end <= x < end + step ==> m.lift(x) - level < -beyondReturn))
  }

  /** The lookaround is wide enough for a body that crosses over from one end of it to the other. */
  lemma {:induction false} LookaroundIsWide(options: ScanOptions, request: Request, key: Key, m: Motion, reach: real)
    requires TracksAnswer(options) && SkyUnder(options, request, key.body, m, reach)
    requires var far := LooksAround(options, key.body);
      CrossesOver(m, request.from - far, request.to + far, PolicyOf(key.body).scanStep, LevelOf(key),
                  OrbOf(key) + ReturnArc(options, key.body))
    ensures EndsBeyond(SamplesFor(options, request, key.body), LevelOf(key), OrbOf(key) + options.Arc(key.body))
  {
    var k, samples := options.tracks(key.body), SamplesFor(options, request, key.body);
    RequestIsAScene(options, request, key.body, m, reach);
    SpanReachesOut(options, request, key.body);
    assert TrueSample(k, m, samples[0]) && TrueSample(k, m, samples[|samples| - 1]);
  }

  /** Where its outermost crossings are seen, a candidate is decided as soon as its span starts beyond return on
      one side of the target and ends beyond return on the other. */
  lemma {:induction false} WideSpanIsDecided(options: ScanOptions, request: Request, key: Key, m: Motion, reach: real)
    requires TracksAnswer(options) && SkyUnder(options, request, key.body, m, reach)
    requires EntryIsSeen(options, request, key, m) && ExitIsSeen(options, request, key, m)
    requires EndsBeyond(SamplesFor(options, request, key.body), LevelOf(key), OrbOf(key) + options.Arc(key.body))
    ensures VerdictOn(options, request, key) != Undecided
    ensures PassesOn(options, request, key) != []
  {
    var k, samples := options.tracks(key.body), SamplesFor(options, request, key.body);
    var targetDeg, arcDeg := key.branch.oriented.targetDeg, options.Arc(key.body);
    RequestIsAScene(options, request, key.body, m, reach);
    EveryOrbIsPositive(key.body, key.branch.aspect);
    var p, q := CrossedSpanIsProven(k, m, samples, reach, targetDeg, OrbOf(key), key.winding, arcDeg);
    if VerdictOn(options, request, key) == Undecided {
      var encounter := UndecidedLacksAProof(options, request, key, m, reach);
    }
  }

  /** And it is reported if it is in orb at an instant of the window more than a second from its ends. */
  lemma {:induction false} InOrbIsReported(options: ScanOptions, request: Request, key: Key, m: Motion, reach: real, t: real)
    requires TracksAnswer(options) && SkyUnder(options, request, key.body, m, reach)
    requires EntryIsSeen(options, request, key, m) && ExitIsSeen(options, request, key, m)
    requires EndsBeyond(SamplesFor(options, request, key.body), LevelOf(key), OrbOf(key) + options.Arc(key.body))
    requires request.from + HALF_ROOT_TOLERANCE <= t < request.to - HALF_ROOT_TOLERANCE && InOrb(m, t, LevelOf(key), OrbOf(key))
    ensures VerdictOn(options, request, key).Reported?
  {
    WideSpanIsDecided(options, request, key, m, reach);
    if VerdictOn(options, request, key) == Omitted {
      OmittedIsNeverInOrb(options, request, key, m, reach, t);
    }
  }
}
