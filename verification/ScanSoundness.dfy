/** The scan is sound: what a returned cycle says of the sky is so. */
module ScanSoundness {
  import opened Optional
  import opened Angles
  import opened Aspects
  import opened CyclePolicy
  import opened Sky
  import opened Stations
  import opened Sampling
  import opened SampleLists
  import opened Tangents
  import opened RootScan
  import opened RootTheorems
  import opened Envelopes
  import opened EnvelopeTheorems
  import opened Slices
  import opened OrbBounds
  import opened Encounters
  import opened Rendering
  import opened Scan
  import opened ResponsePolicy
  import opened ScanSky
  import opened ScanTheorems

  // ----- Passes -----

  /** A pass of a moving body tells its direction, its speed to a microdegree, and never a standstill. */
  ghost predicate MovingTold(m: Motion, r: real, direction: PassDirection, speed: real) {
    && (direction == Retrograde <==> m.speed(r) < 0.0)
    && Sign(speed) == Sign(m.speed(r))
    && Abs(speed - m.speed(r)) <= if 0.000001 <= Abs(m.speed(r)) then 0.0000005 else 0.000001
  }

  ghost predicate StationSampled(samples: seq<Sample>, r: real) {
    exists n :: 0 <= n < |samples| && samples[n].jd == r && samples[n].station
  }

  /** A pass at a sampled station is a tangent, without speed; every other pass is one of a moving body. */
  ghost predicate PassTold(k: Track, m: Motion, first: int, last: int, r: real, direction: PassDirection, speed: real) {
    if StationSampled(Samples(k, first, last), r)
    then speed == 0.0 && TangentTold(k, m, first, last, r, direction)
    else MovingTold(m, r, direction, speed)
  }

  /** The body is exactly on the level within a second of `r`, or at `r` itself up to the zero tolerance. */
  ghost predicate ExactNear(m: Motion, r: real, level: real) {
    || Abs(m.lift(r) - level) <= ANGULAR_ZERO_TOLERANCE
    || exists t :: Abs(t - r) <= HALF_ROOT_TOLERANCE && m.lift(t) == level
  }

  ghost predicate PassIsTrueAt(k: Track, m: Motion, first: int, last: int, level: real, pass: CyclePass, r: real) {
    && pass.exactAt == Seconds1970(r) && ExactNear(m, r, level)
    && PassTold(k, m, first, last, r, pass.direction, pass.speed)
  }

  ghost predicate PassIsTrue(k: Track, m: Motion, first: int, last: int, level: real, pass: CyclePass) {
    exists r :: PassIsTrueAt(k, m, first, last, level, pass, r)
  }

  lemma {:induction false} SampledPassIsTrue(
    k: Track, m: Motion, first: int, last: int, reach: real, base: real, w: int, n: int, r: Root, index: nat)
    requires Searchable(k, m) && Smooth(m) && GridSteps(k) && DepthReaches(k)
    requires TrueSamples(k, m, Samples(k, first, last), reach) && 0 <= n < |Samples(k, first, last)|
    requires r in OnSample(Samples(k, first, last)[n], base, w)
    ensures PassIsTrueAt(k, m, first, last, Level(base, w), PassOf(r, index), r.jd)
  {
    var samples := Samples(k, first, last);
    var s := samples[n];
    assert TrueSample(k, m, s);
    SampledStationIsTold(k, m, first, last, n);
    RoundedSpeedKeepsItsSign(r.speed);
    if s.station {
      assert StationSampled(samples, r.jd);
    } else {
      assert forall i :: 0 <= i < |samples| && samples[i].jd == r.jd ==> i == n;
    }
  }

  lemma {:induction false} SolvedPassIsTrue(
    k: Track, m: Motion, first: int, last: int, reach: real, base: real, w: int, n: int, r: Root, index: nat)
    requires TrueSamples(k, m, Samples(k, first, last), reach) && Continuous(m.lift)
    requires 0 <= n < |Samples(k, first, last)| - 1
    requires r in InBracket(k, Samples(k, first, last)[n], Samples(k, first, last)[n + 1], base, w)
    ensures PassIsTrueAt(k, m, first, last, Level(base, w), PassOf(r, index), r.jd)
  {
    var samples := Samples(k, first, last);
    BracketEventIsGenuine(k, m, samples, reach, n, base, w, r);
    BracketSeparates(samples, n, r.jd, r.jd);
    assert FollowsAt(k, m, r.jd);
    RoundedSpeedKeepsItsSign(r.speed);
    forall i | 0 <= i < |samples|
      ensures samples[i].jd != r.jd
    {
      assert i <= n ==> samples[i].jd <= samples[n].jd;
      assert n < i ==> samples[n + 1].jd <= samples[i].jd;
    }
  }

  /** Every recorded pass is rendered as it is. */
  lemma {:induction false} RecordedPassIsTrue(
    k: Track, m: Motion, first: int, last: int, reach: real, base: real, w: int, r: Root, index: nat)
    requires Searchable(k, m) && Smooth(m) && GridSteps(k) && DepthReaches(k)
    requires TrueSamples(k, m, Samples(k, first, last), reach) && r in Recorded(k, Samples(k, first, last), base, w)
    ensures PassIsTrueAt(k, m, first, last, Level(base, w), PassOf(r, index), r.jd)
  {
    var samples := Samples(k, first, last);
    var n := RecordedIsContributed(k, samples, base, w, r);
    if r in OnSample(samples[n], base, w) {
      SampledPassIsTrue(k, m, first, last, reach, base, w, n, r, index);
    } else {
      SolvedPassIsTrue(k, m, first, last, reach, base, w, n, r, index);
    }
  }

  // ----- Ends -----

  /** Within a second of `jd` the body is on the orb boundary, up to the zero tolerance. */
  ghost predicate MeetsTheBoundary(m: Motion, jd: real, level: real, orbDeg: real) {
    exists b :: Abs(b - jd) <= HALF_ROOT_TOLERANCE && Abs(Abs(m.lift(b) - level) - orbDeg) <= ANGULAR_ZERO_TOLERANCE
  }

  /** The body comes into orb there: out of orb thirty seconds before, and in orb thirty seconds after. */
  ghost predicate EntersAt(m: Motion, jd: real, level: real, orbDeg: real) {
    && MeetsTheBoundary(m, jd, level, orbDeg)
    && orbDeg < Abs(m.lift(jd - 30.0 / 86400.0) - level) && Abs(m.lift(jd + 30.0 / 86400.0) - level) <= orbDeg
  }

  ghost predicate LeavesAt(m: Motion, jd: real, level: real, orbDeg: real) {
    && MeetsTheBoundary(m, jd, level, orbDeg)
    && Abs(m.lift(jd - 30.0 / 86400.0) - level) <= orbDeg && orbDeg < Abs(m.lift(jd + 30.0 / 86400.0) - level)
  }

  lemma OnEitherBoundary(m: Motion, b: real, targetDeg: real, orbDeg: real, w: int, below: bool)
    requires ANGULAR_ZERO_TOLERANCE <= orbDeg && OnLevel(m.lift(b), Level(BaseOf(targetDeg, orbDeg, below), w))
    ensures Abs(Abs(m.lift(b) - Level(targetDeg, w)) - orbDeg) <= ANGULAR_ZERO_TOLERANCE
  {
    var turns := 360.0 * (w as real);
    assert Level(BaseOf(targetDeg, orbDeg, below), w) == Level(targetDeg, w) + (if below then -orbDeg else orbDeg);
  }

  lemma {:induction false} BoundaryRootMeetsTheBoundary(
    k: Track, m: Motion, samples: seq<Sample>, reach: real, targetDeg: real, orbDeg: real, w: int, boundaries: seq<Root>, r: Root)
    requires Scene(k, m, samples, reach) && ANGULAR_ZERO_TOLERANCE <= orbDeg
    requires BoundariesOf(k, samples, targetDeg, orbDeg, w, boundaries) && r in boundaries
    ensures MeetsTheBoundary(m, r.jd, Level(targetDeg, w), orbDeg)
  {
    var lower := Recorded(k, samples, BaseOf(targetDeg, orbDeg, true), w);
    var upper := Recorded(k, samples, BaseOf(targetDeg, orbDeg, false), w);
    SortingKeepsTheRoots(lower + upper);
    var below := r in lower;
    var b := RootStandsForAnInstant(k, m, samples, reach, BaseOf(targetDeg, orbDeg, below), w, r);
    OnEitherBoundary(m, b, targetDeg, orbDeg, w, below);
  }

  lemma {:induction false} SolvedStartEnters(
    k: Track, m: Motion, samples: seq<Sample>, reach: real,
    targetDeg: real, orbDeg: real, w: int, arcDeg: real, p: real, q: real, start: real)
    requires Scene(k, m, samples, reach) && ExcursionAtMost(m, arcDeg) && 0.0 <= arcDeg && ANGULAR_ZERO_TOLERANCE <= orbDeg
    requires ProvenAt(k, samples, targetDeg, orbDeg, w, arcDeg, p, q)
    requires Solved(k, samples, targetDeg, orbDeg, w, arcDeg).startJd == Some(start)
    ensures EntersAt(m, start, Level(targetDeg, w), orbDeg)
  {
    var level := Level(targetDeg, w);
    var boundaries, first, pass := StartIsAnEarliestEntry(k, m, samples, reach, targetDeg, orbDeg, w, arcDeg, p, q);
    LeastIsLeast(Classified(k.lon, samples, boundaries, level, orbDeg, Entry, p, first));
    var r := ClassifiedComesFrom(k.lon, samples, boundaries, level, orbDeg, Entry, p, first, start);
    EntryTurns(k, m, samples, reach, level, orbDeg, start);
    BoundaryRootMeetsTheBoundary(k, m, samples, reach, targetDeg, orbDeg, w, boundaries, r);
  }

  lemma {:induction false} SolvedEndLeaves(
    k: Track, m: Motion, samples: seq<Sample>, reach: real,
    targetDeg: real, orbDeg: real, w: int, arcDeg: real, p: real, q: real, end: real)
    requires Scene(k, m, samples, reach) && ExcursionAtMost(m, arcDeg) && 0.0 <= arcDeg && ANGULAR_ZERO_TOLERANCE <= orbDeg
    requires ProvenAt(k, samples, targetDeg, orbDeg, w, arcDeg, p, q)
    requires Solved(k, samples, targetDeg, orbDeg, w, arcDeg).endJd == Some(end)
    ensures LeavesAt(m, end, Level(targetDeg, w), orbDeg)
  {
    var level := Level(targetDeg, w);
    var boundaries, last, pass := EndIsALatestExit(k, m, samples, reach, targetDeg, orbDeg, w, arcDeg, p, q);
    GreatestIsGreatest(Classified(k.lon, samples, boundaries, level, orbDeg, Exit, last, q));
    var r := ClassifiedComesFrom(k.lon, samples, boundaries, level, orbDeg, Exit, last, q, end);
    EntryTurns(k, m, samples, reach, level, orbDeg, end);
    BoundaryRootMeetsTheBoundary(k, m, samples, reach, targetDeg, orbDeg, w, boundaries, r);
  }

  // ----- One key -----

  /** The lifted longitude is at this angle from the natal one, on the side the label names, in this revolution. */
  ghost predicate IsTheAspect(branch: OrientedBranch, winding: int, level: real, natal: real, angle: real) {
    && AngularSeparation(level, natal) == angle && Names(branch, level, natal, angle)
    && Turns(winding) <= level < Turns(winding + 1)
  }

  /** The cycle says what it is a cycle of, and its identity names the lifted longitude it is about. */
  ghost predicate TellsItsTarget(
    options: ScanOptions, request: Request, c: NormalizedCycle, target: NatalTarget, branch: OrientedBranch, winding: int, level: real)
  {
    && c.body in options.bodies && target in request.targets && c.target == target.body
    && c.orbDeg == TransitOrbDeg(c.body, c.aspect)
    && IsTheAspect(branch, winding, level, target.longitude, AspectAngle(c.aspect))
    && c.id == options.digest(CycleIdentity(options.inputs, c.body, c.target, c.aspect, branch, winding))
  }

  /** The passes are true of the sky, in order from the first. */
  ghost predicate TellsItsPasses(k: Track, m: Motion, first: int, last: int, level: real, c: NormalizedCycle) {
    && c.passes != [] && c.passCount == |c.passes| && c.exactAt == c.passes[0].exactAt
    && forall i :: 0 <= i < |c.passes| ==> c.passes[i].index == i + 1 && PassIsTrue(k, m, first, last, level, c.passes[i])
  }

  /** The ends are true of the sky, and the encounter between them meets the half-open window. */
  ghost predicate TellsItsEnds(m: Motion, request: Request, level: real, c: NormalizedCycle, start: real, end: real) {
    && c.startAt == Seconds1970(start) && c.endAt == Seconds1970(end)
    && EntersAt(m, start, level, c.orbDeg) && LeavesAt(m, end, level, c.orbDeg)
    && request.from <= end && start < request.to
  }

  lemma TurnsAreADirection(x: real, w: int, y: real)
    requires SameDirection(x, y)
    ensures SameDirection(x + Turns(w), y)
  {
    var k :| x == y + Turns(k);
    assert x + Turns(w) == y + Turns(k + w);
  }

  lemma LiftedNames(branch: OrientedBranch, targetDeg: real, w: int, natal: real, angle: real)
    requires 0.0 <= angle <= 180.0 && 0.0 <= targetDeg < 360.0 && Names(branch, targetDeg, natal, angle)
    ensures IsTheAspect(branch, w, Level(targetDeg, w), natal, angle)
  {
    assert Level(targetDeg, w) == targetDeg + Turns(w);
    if branch != Minus {
      TurnsAreADirection(targetDeg, w, natal + angle);
    }
    if branch != Plus {
      TurnsAreADirection(targetDeg, w, natal - angle);
    }
    SeparationHoldsAtTwoPlaces(Level(targetDeg, w), natal, angle);
  }

  lemma KeyIsToldInTheCycle(options: ScanOptions, request: Request, key: Key, c: NormalizedCycle)
    requires VerdictOn(options, request, key) == Reported(c)
    ensures c.body == key.body && c.target == key.branch.target.body && c.aspect == key.branch.aspect && c.orbDeg == OrbOf(key)
    ensures c.id == options.digest(CycleIdentity(options.inputs, c.body, c.target, c.aspect, key.branch.oriented.branch, key.winding))
  {
    var encounter := EncounterOn(options, request, key);
  }

  lemma BranchIsOriented(request: Request, branch: Branch)
    requires DistinctTargets(request.targets) && branch in BranchList(request.targets, ASPECTS)
    ensures branch.target in request.targets
    ensures branch.oriented in OrientedTargets(branch.target.longitude, AspectAngle(branch.aspect))
  {
    BranchListIsLabelled(request.targets, ASPECTS);
    assert branch in BranchesOf(branch.target, branch.aspect);
  }

  lemma AnglesAreNotBlurred(aspect: AspectType)
    ensures 0.0 <= AspectAngle(aspect) <= 180.0 && MergesOnlyEquals(AspectAngle(aspect))
  {
  }

  lemma OrientedIsTheAspect(natal: real, angle: real, oriented: OrientedTarget, w: int)
    requires 0.0 <= angle <= 180.0 && MergesOnlyEquals(angle) && oriented in OrientedTargets(natal, angle)
    ensures IsTheAspect(oriented.branch, w, Level(oriented.targetDeg, w), natal, angle)
  {
    LabelsNameTheirSide(natal, angle, oriented);
    LiftedNames(oriented.branch, oriented.targetDeg, w, natal, angle);
  }

  lemma TargetIsTold(options: ScanOptions, request: Request, key: Key, c: NormalizedCycle)
    requires DistinctTargets(request.targets) && InScope(options, request, key) && VerdictOn(options, request, key) == Reported(c)
    ensures TellsItsTarget(options, request, c, key.branch.target, key.branch.oriented.branch, key.winding, LevelOf(key))
  {
    BranchIsOriented(request, key.branch);
    AnglesAreNotBlurred(key.branch.aspect);
    OrientedIsTheAspect(key.branch.target.longitude, AspectAngle(key.branch.aspect), key.branch.oriented, key.winding);
    KeyIsToldInTheCycle(options, request, key, c);
  }

  lemma {:induction false} PassesAreTold(options: ScanOptions, request: Request, key: Key, m: Motion, reach: real)
    requires TracksAnswer(options) && SkyUnder(options, request, key.body, m, reach)
    requires VerdictOn(options, request, key).Reported?
    ensures TellsItsPasses(options.tracks(key.body), m, FirstOf(options, request, key.body), LastOf(options, request, key.body),
                           LevelOf(key), VerdictOn(options, request, key).cycle)
  {
    var k, first, last := options.tracks(key.body), FirstOf(options, request, key.body), LastOf(options, request, key.body);
    var encounter := EncounterOn(options, request, key);
    var roots := SortedByTime(encounter.levels.exact);
    ReportedMeetsPolicy(options, request, key);
    RequestIsAScene(options, request, key.body, m, reach);
    RequestIsOnTheGrid(options, request, key.body);
    TrackIsSearchable(options, key.body, m, reach);
    SortingKeepsTheRoots(encounter.levels.exact);
    forall i | 0 <= i < |roots|
      ensures PassIsTrue(k, m, first, last, LevelOf(key), PassOf(roots[i], i))
    {
      RecordedPassIsTrue(k, m, first, last, reach, key.branch.oriented.targetDeg, key.winding, roots[i], i);
    }
  }

  lemma SelectedMeets(e: Envelope, from: real, to: real)
    requires Decide(e, from, to) == Report
    ensures e.startJd.Some? && e.endJd.Some? && from <= e.endJd.value && e.startJd.value < to
  {
  }

  lemma ReportedIsSelected(options: ScanOptions, request: Request, key: Key)
    requires VerdictOn(options, request, key).Reported?
    ensures Decide(EncounterOn(options, request, key).envelope, request.from, request.to) == Report
  {
  }

  /** Only an encounter whose solved ends meet the half-open window is reported. */
  lemma SelectionMeetsTheWindow(options: ScanOptions, request: Request, key: Key) returns (start: real, end: real)
    requires VerdictOn(options, request, key).Reported?
    ensures var c := VerdictOn(options, request, key).cycle; c.startAt == Seconds1970(start) && c.endAt == Seconds1970(end)
    ensures request.from <= end && start < request.to
    ensures EncounterOn(options, request, key).envelope.startJd == Some(start)
    ensures EncounterOn(options, request, key).envelope.endJd == Some(end)
  {
    var encounter := EncounterOn(options, request, key);
    start, end := encounter.envelope.startJd.value, encounter.envelope.endJd.value;
    ReportedIsSelected(options, request, key);
    SelectedMeets(encounter.envelope, request.from, request.to);
    assert VerdictOn(options, request, key) == Reported(CycleOf(options, key, encounter));
  }

  lemma EncounterIsSolved(options: ScanOptions, request: Request, key: Key)
    requires VerdictOn(options, request, key).Reported?
    ensures LevelsOf(options.tracks(key.body), SamplesFor(options, request, key.body),
                     key.branch.oriented.targetDeg, OrbOf(key), key.winding).exact != []
    ensures EncounterOn(options, request, key).envelope
         == Solved(options.tracks(key.body), SamplesFor(options, request, key.body),
                   key.branch.oriented.targetDeg, OrbOf(key), key.winding, options.Arc(key.body))
  {
  }

  lemma {:induction false} EndsAreTold(options: ScanOptions, request: Request, key: Key, m: Motion, reach: real)
    returns (start: real, end: real)
    requires TracksAnswer(options) && SkyUnder(options, request, key.body, m, reach)
    requires VerdictOn(options, request, key).Reported?
    ensures TellsItsEnds(m, request, LevelOf(key), VerdictOn(options, request, key).cycle, start, end)
  {
    var k, samples := options.tracks(key.body), SamplesFor(options, request, key.body);
    var targetDeg, orbDeg, arcDeg := key.branch.oriented.targetDeg, OrbOf(key), options.Arc(key.body);
    start, end := SelectionMeetsTheWindow(options, request, key);
    EncounterIsSolved(options, request, key);
    KeyIsToldInTheCycle(options, request, key, VerdictOn(options, request, key).cycle);
    RequestIsAScene(options, request, key.body, m, reach);
    EveryOrbIsPositive(key.body, key.branch.aspect);
    var p, q := ReportedIsProven(options, request, key);
    SolvedStartEnters(k, m, samples, reach, targetDeg, orbDeg, key.winding, arcDeg, p, q, start);
    SolvedEndLeaves(k, m, samples, reach, targetDeg, orbDeg, key.winding, arcDeg, p, q, end);
  }

  // ----- The answer -----

  /** Soundness from end to end. Every cycle of an answer is about a natal target of the request and a transiting
      body of the scan; its passes are instants at which the body stands in the aspect, told with the direction
      and the speed the body then has; its ends are where the body comes into orb and leaves it; and it meets the
      half-open window. */
  lemma {:induction false} ReturnedCyclesAreTrue(
    options: ScanOptions, request: Request, motions: TransitingBody -> Motion, reach: real,
    keys: seq<Key>, cycles: seq<NormalizedCycle>, c: NormalizedCycle)
    returns (target: NatalTarget, branch: OrientedBranch, winding: int, level: real, start: real, end: real)
    requires TracksAnswer(options) && DistinctTargets(request.targets)
    requires forall body :: body in options.bodies ==> SkyUnder(options, request, body, motions(body), reach)
    requires Answered(VerdictsUnder(options, request), options, request, keys, cycles) && c in cycles
    ensures TellsItsTarget(options, request, c, target, branch, winding, level)
    ensures TellsItsPasses(options.tracks(c.body), motions(c.body), FirstOf(options, request, c.body), LastOf(options, request, c.body), level, c)
    ensures TellsItsEnds(motions(c.body), request, level, c, start, end)
  {
    var key := CycleHasAKey(options, request, keys, cycles, c);
    target, branch, winding, level := key.branch.target, key.branch.oriented.branch, key.winding, LevelOf(key);
    TargetIsTold(options, request, key, c);
    PassesAreTold(options, request, key, motions(key.body), reach);
    start, end := EndsAreTold(options, request, key, motions(key.body), reach);
  }

  /** What the window selects was there: a returned cycle's body is in orb at an instant that is not thirty seconds
      before the window, and at one that is not thirty seconds after it; and it is within the zero tolerance of
      being in orb even at one not a second before, and at one not a second after. */
  lemma {:induction false} ReturnedCyclesMeetTheWindow(
    m: Motion, request: Request, level: real, c: NormalizedCycle, start: real, end: real)
    returns (late: real, early: real, atTheEnd: real, atTheStart: real)
    requires TellsItsEnds(m, request, level, c, start, end)
    ensures request.from - 30.0 / 86400.0 <= late && InOrb(m, late, level, c.orbDeg)
    ensures early < request.to + 30.0 / 86400.0 && InOrb(m, early, level, c.orbDeg)
    ensures request.from - HALF_ROOT_TOLERANCE <= atTheEnd && InOrb(m, atTheEnd, level, c.orbDeg + ANGULAR_ZERO_TOLERANCE)
    ensures atTheStart < request.to + HALF_ROOT_TOLERANCE && InOrb(m, atTheStart, level, c.orbDeg + ANGULAR_ZERO_TOLERANCE)
  {
    late, early := end - 30.0 / 86400.0, start + 30.0 / 86400.0;
    atTheEnd :| Abs(atTheEnd - end) <= HALF_ROOT_TOLERANCE && Abs(Abs(m.lift(atTheEnd) - level) - c.orbDeg) <= ANGULAR_ZERO_TOLERANCE;
    atTheStart :| Abs(atTheStart - start) <= HALF_ROOT_TOLERANCE
               && Abs(Abs(m.lift(atTheStart) - level) - c.orbDeg) <= ANGULAR_ZERO_TOLERANCE;
  }
}
