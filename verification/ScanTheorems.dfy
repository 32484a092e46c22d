/** A cycle is a property of the sky: the answer of the scan for one encounter does not depend on
    the window, and what the window leaves out was never in orb during it. */
module ScanTheorems {
  import opened Optional
  import opened CyclePolicy
  import opened Sky
  import opened LiftChain
  import opened Stations
  import opened Sampling
  import opened Brackets
  import opened RootScan
  import opened RootTheorems
  import opened Envelopes
  import opened EnvelopeTheorems
  import opened Slices
  import opened WindowIndependence
  import opened OrbBounds
  import opened Encounters
  import opened Scan
  import opened Directions
  import opened ScanSky
  import opened ResponsePolicy

  // ----- Window independence -----

  /** The stretch of grid that covers two requests. */
  function HullFirst(options: ScanOptions, one: Request, other: Request, body: TransitingBody): int {
    Earlier(FirstOf(options, one, body), FirstOf(options, other, body))
  }

  function HullLast(options: ScanOptions, one: Request, other: Request, body: TransitingBody): int {
    Later(LastOf(options, one, body), LastOf(options, other, body))
  }

  function HullSamples(options: ScanOptions, one: Request, other: Request, body: TransitingBody): seq<Sample> {
    Samples(options.tracks(body), HullFirst(options, one, other, body), HullLast(options, one, other, body))
  }

  lemma HullIsAScene(options: ScanOptions, one: Request, other: Request, body: TransitingBody, m: Motion, reach: real)
    requires TracksAnswer(options) && SkyOf(options, body, m, reach)
    requires Accepts(options, one, body) && Accepts(options, other, body)
    ensures Scene(options.tracks(body), m, HullSamples(options, one, other, body), reach)
  {
    RequestIsOnTheGrid(options, one, body);
    RequestIsOnTheGrid(options, other, body);
    EveryRowIsUsable(body);
    StretchIsAScene(options.tracks(body), options.source, body, options.Step(body), m, reach,
                    HullFirst(options, one, other, body), HullLast(options, one, other, body));
  }

  function LevelOf(key: Key): real {
    Level(key.branch.oriented.targetDeg, key.winding)
  }

  function OrbOf(key: Key): real {
    TransitOrbDeg(key.body, key.branch.aspect)
  }

  /** A reported encounter is proven on both sides inside its own span. */
  lemma ReportedIsProven(options: ScanOptions, request: Request, key: Key) returns (p: real, q: real)
    requires VerdictOn(options, request, key).Reported?
    ensures ProvenAt(options.tracks(key.body), SamplesFor(options, request, key.body),
                     key.branch.oriented.targetDeg, OrbOf(key), key.winding, options.Arc(key.body), p, q)
  {
    var k := options.tracks(key.body);
    var encounter := EncounterFrom(k, SamplesFor(options, request, key.body), key, options.Arc(key.body)).value;
    p, q := encounter.envelope.provenLeft.value, encounter.envelope.provenRight.value;
  }

  /** The sky of one body over two requests. */
  ghost predicate SkyOver(options: ScanOptions, one: Request, other: Request, body: TransitingBody, m: Motion, reach: real) {
    && SkyOf(options, body, m, reach) && PlainArc(options.Arc(body))
    && Accepts(options, one, body) && Accepts(options, other, body)
  }

  function EncounterOn(options: ScanOptions, request: Request, key: Key): (encounter: Encounter)
    requires VerdictOn(options, request, key).Reported?
    ensures encounter.levels.exact != [] && encounter.envelope.startJd.Some? && encounter.envelope.endJd.Some?
    ensures VerdictOn(options, request, key) == Reported(CycleOf(options, key, encounter))
  {
    EncounterFrom(options.tracks(key.body), SamplesFor(options, request, key.body), key, options.Arc(key.body)).value
  }

  function PassesOn(options: ScanOptions, request: Request, key: Key): seq<Root> {
    Recorded(options.tracks(key.body), SamplesFor(options, request, key.body), key.branch.oriented.targetDeg, key.winding)
  }

  lemma EncounterHoldsItsPasses(options: ScanOptions, request: Request, key: Key)
    requires VerdictOn(options, request, key).Reported?
    ensures EncounterOn(options, request, key).levels.exact == PassesOn(options, request, key)
  {
  }

  /** A window agrees with the hull of two windows on an encounter it reports. */
  lemma {:induction false} WindowAgreesWithTheHull(
    options: ScanOptions, one: Request, other: Request, request: Request, key: Key, m: Motion, reach: real)
    returns (from: nat, to: nat)
    requires TracksAnswer(options) && SkyOver(options, one, other, key.body, m, reach)
    requires request == one || request == other
    requires VerdictOn(options, request, key).Reported?
    ensures Hulled(options.tracks(key.body), m, reach, HullFirst(options, one, other, key.body),
                   FirstOf(options, request, key.body), LastOf(options, request, key.body),
                   HullLast(options, one, other, key.body), from, to)
    ensures SameEncounter(options.tracks(key.body), SamplesFor(options, request, key.body), HullSamples(options, one, other, key.body),
                          key.branch.oriented.targetDeg, OrbOf(key), key.winding, options.Arc(key.body))
  {
    var body, k := key.body, options.tracks(key.body);
    var outerFirst, outerLast := HullFirst(options, one, other, body), HullLast(options, one, other, body);
    RequestIsOnTheGrid(options, one, body);
    RequestIsOnTheGrid(options, other, body);
    HullIsAScene(options, one, other, body, m, reach);
    TrackIsSearchable(options, body, m, reach);
    StretchDivides(options, body, m, reach, outerFirst, outerLast);
    EveryOrbIsPositive(body, key.branch.aspect);
    var p, q := ReportedIsProven(options, request, key);
    from, to := SpanIsAPart(k, outerFirst, FirstOf(options, request, body), LastOf(options, request, body), outerLast);
    ProvenEncounterOfAPart(k, m, SamplesFor(options, request, body), HullSamples(options, one, other, body), reach, from, to,
                           key.branch.oriented.targetDeg, OrbOf(key), key.winding, options.Arc(body), p, q);
  }

  /** `jd` is a grid instant in a run of exact standstills that the span of one window ends in, and the span
      of the other sees the body leave the run backwards. */
  ghost predicate Unseen(options: ScanOptions, one: Request, other: Request, body: TransitingBody, jd: real) {
    LeavesUnseen(options.tracks(body), jd,
                 Earlier(LastOf(options, one, body), LastOf(options, other, body)), HullLast(options, one, other, body))
  }

  /** One pass of an encounter that both windows report. */
  lemma {:induction false} PassIsDirectedAlike(
    options: ScanOptions, one: Request, other: Request, key: Key, m: Motion, reach: real, r: Root, s: Root, h: Root)
    requires TracksAnswer(options) && SkyOver(options, one, other, key.body, m, reach)
    requires VerdictOn(options, one, key).Reported? && VerdictOn(options, other, key).Reported?
    requires r in PassesOn(options, one, key) && s in PassesOn(options, other, key)
    requires h in Recorded(options.tracks(key.body), HullSamples(options, one, other, key.body),
                           key.branch.oriented.targetDeg, key.winding)
    requires Bared(r) == Bared(h) == Bared(s)
    ensures DirectionOf(r) == DirectionOf(s) <==> !Unseen(options, one, other, key.body, r.jd)
  {
    var body := key.body;
    var from1, to1 := WindowAgreesWithTheHull(options, one, other, one, key, m, reach);
    var from2, to2 := WindowAgreesWithTheHull(options, one, other, other, key, m, reach);
    RequestIsOnTheGrid(options, one, body);
    RequestIsOnTheGrid(options, other, body);
    SpansDirectAlikeIff(options.tracks(body), m, reach, HullFirst(options, one, other, body),
                        FirstOf(options, one, body), LastOf(options, one, body), FirstOf(options, other, body), LastOf(options, other, body),
                        from1, to1, from2, to2, key.branch.oriented.targetDeg, key.winding, r, s, h);
  }

  /** Some pass of the encounter is one that one of the windows cannot see leave. */
  ghost predicate SomePassLeavesUnseen(options: ScanOptions, one: Request, other: Request, key: Key) {
    exists r :: r in PassesOn(options, one, key) && Unseen(options, one, other, key.body, r.jd)
  }

  lemma {:induction false} PassesAgreeOnceBared(
    options: ScanOptions, one: Request, other: Request, key: Key, m: Motion, reach: real)
    returns (hull: seq<Root>)
    requires TracksAnswer(options) && SkyOver(options, one, other, key.body, m, reach)
    requires VerdictOn(options, one, key).Reported? && VerdictOn(options, other, key).Reported?
    ensures hull == Recorded(options.tracks(key.body), HullSamples(options, one, other, key.body),
                             key.branch.oriented.targetDeg, key.winding)
    ensures AllBared(PassesOn(options, one, key)) == AllBared(hull) == AllBared(PassesOn(options, other, key))
  {
    hull := Recorded(options.tracks(key.body), HullSamples(options, one, other, key.body),
                     key.branch.oriented.targetDeg, key.winding);
    var from1, to1 := WindowAgreesWithTheHull(options, one, other, one, key, m, reach);
    var from2, to2 := WindowAgreesWithTheHull(options, one, other, other, key, m, reach);
  }

  lemma {:induction false} PassIsDirectedAlikeAt(
    options: ScanOptions, one: Request, other: Request, key: Key, m: Motion, reach: real, i: int)
    requires TracksAnswer(options) && SkyOver(options, one, other, key.body, m, reach)
    requires VerdictOn(options, one, key).Reported? && VerdictOn(options, other, key).Reported?
    requires 0 <= i < |PassesOn(options, one, key)|
    ensures |SortedByTime(PassesOn(options, one, key))| == |PassesOn(options, one, key)| == |SortedByTime(PassesOn(options, other, key))|
    ensures DirectionOf(SortedByTime(PassesOn(options, one, key))[i]) == DirectionOf(SortedByTime(PassesOn(options, other, key))[i])
       <==> !Unseen(options, one, other, key.body, SortedByTime(PassesOn(options, one, key))[i].jd)
  {
    var a, b := PassesOn(options, one, key), PassesOn(options, other, key);
    var hull := PassesAgreeOnceBared(options, one, other, key, m, reach);
    SortedAlike(a, hull);
    SortedAlike(b, hull);
    SortingKeepsTheRoots(a);
    SortingKeepsTheRoots(b);
    SortingKeepsTheRoots(hull);
    PassIsDirectedAlike(options, one, other, key, m, reach, SortedByTime(a)[i], SortedByTime(b)[i], SortedByTime(hull)[i]);
  }

  lemma {:induction false} PassesAreDirectedAlike(
    options: ScanOptions, one: Request, other: Request, key: Key, m: Motion, reach: real)
    requires TracksAnswer(options) && SkyOver(options, one, other, key.body, m, reach)
    requires VerdictOn(options, one, key).Reported? && VerdictOn(options, other, key).Reported?
    ensures AllBared(PassesOn(options, one, key)) == AllBared(PassesOn(options, other, key))
    ensures |SortedByTime(PassesOn(options, one, key))| == |SortedByTime(PassesOn(options, other, key))|
    ensures DirectedAlike(PassesOn(options, one, key), PassesOn(options, other, key)) <==> !SomePassLeavesUnseen(options, one, other, key)
  {
    var a, b := PassesOn(options, one, key), PassesOn(options, other, key);
    var hull := PassesAgreeOnceBared(options, one, other, key, m, reach);
    SortedAlike(a, b);
    SortingKeepsTheRoots(a);
    forall i | 0 <= i < |a|
      ensures DirectionOf(SortedByTime(a)[i]) == DirectionOf(SortedByTime(b)[i])
         <==> !Unseen(options, one, other, key.body, SortedByTime(a)[i].jd)
    {
      PassIsDirectedAlikeAt(options, one, other, key, m, reach, i);
    }
  }

  lemma {:induction false} EnvelopesAgree(options: ScanOptions, one: Request, other: Request, key: Key, m: Motion, reach: real)
    requires TracksAnswer(options) && SkyOver(options, one, other, key.body, m, reach)
    requires VerdictOn(options, one, key).Reported? && VerdictOn(options, other, key).Reported?
    ensures EncounterOn(options, one, key).envelope == EncounterOn(options, other, key).envelope
  {
    var from1, to1 := WindowAgreesWithTheHull(options, one, other, one, key, m, reach);
    var from2, to2 := WindowAgreesWithTheHull(options, one, other, other, key, m, reach);
  }

  /** Two windows that both report an encounter report one cycle: one identity, the same passes at the same
      instants and speeds, one start and one end. Only the direction of a pass can differ, and it does
      exactly when the pass is in a run of standstills that one span ends in and the other sees left backwards. */
  lemma {:induction false} WindowsReportTheSameCycle(
    options: ScanOptions, one: Request, other: Request, key: Key, m: Motion, reach: real)
    requires TracksAnswer(options) && SkyOver(options, one, other, key.body, m, reach)
    requires VerdictOn(options, one, key).Reported? && VerdictOn(options, other, key).Reported?
    ensures SameButDirections(VerdictOn(options, one, key).cycle, VerdictOn(options, other, key).cycle)
    ensures VerdictOn(options, one, key) == VerdictOn(options, other, key) <==> !SomePassLeavesUnseen(options, one, other, key)
  {
    EncounterHoldsItsPasses(options, one, key);
    EncounterHoldsItsPasses(options, other, key);
    PassesAreDirectedAlike(options, one, other, key, m, reach);
    EnvelopesAgree(options, one, other, key, m, reach);
    EncountersAgree(options, key, EncounterOn(options, one, key), EncounterOn(options, other, key));
  }

  /** The key behind a reported cycle. */
  lemma CycleHasAKey(options: ScanOptions, request: Request, keys: seq<Key>, cycles: seq<NormalizedCycle>, c: NormalizedCycle)
    returns (key: Key)
    requires Answered(VerdictsUnder(options, request), options, request, keys, cycles) && c in cycles
    ensures InScope(options, request, key) && VerdictOn(options, request, key) == Reported(c)
    ensures c.id == options.digest(IdentityOf(options, key))
  {
    var verdict := VerdictsUnder(options, request);
    var found :| Collected(verdict, keys, found) && cycles == SortedCycles(found);
    SortedCyclesAreOrdered(found);
    var i :| 0 <= i < |found| && found[i] == c;
    key := keys[i];
    assert JudgesAt(verdict, options, request, key);
    ReportedMeetsPolicy(options, request, key);
  }

  lemma {:induction false} LabelNamesTheBranch(targets: seq<NatalTarget>, a: Branch, b: Branch)
    requires DistinctTargets(targets) && a in BranchList(targets, ASPECTS) && b in BranchList(targets, ASPECTS)
    requires LabelOf(a) == LabelOf(b)
    ensures a == b
  {
    BranchListIsLabelled(targets, ASPECTS);
  }

  lemma OneIdOneKey(options: ScanOptions, one: Request, other: Request, a: Key, b: Key)
    requires Injective(options.digest) && DistinctTargets(one.targets) && one.targets == other.targets
    requires InScope(options, one, a) && InScope(options, other, b)
    requires options.digest(IdentityOf(options, a)) == options.digest(IdentityOf(options, b))
    ensures a == b
  {
    assert IdentityOf(options, a) == IdentityOf(options, b);
    LabelNamesTheBranch(one.targets, a.branch, b.branch);
  }

  /** A cycle is a property of the sky: two scans of one chart, over any two windows, that return a cycle
      under one id return the same cycle, up to the direction of a pass that one of them cannot see leave. */
  lemma OneIdOneCycle(
    options: ScanOptions, one: Request, other: Request, motions: TransitingBody -> Motion, reach: real,
    oneKeys: seq<Key>, oneCycles: seq<NormalizedCycle>, otherKeys: seq<Key>, otherCycles: seq<NormalizedCycle>,
    a: NormalizedCycle, b: NormalizedCycle) returns (key: Key)
    requires TracksAnswer(options) && Injective(options.digest)
    requires DistinctTargets(one.targets) && one.targets == other.targets
    requires forall body :: body in options.bodies ==> SkyOver(options, one, other, body, motions(body), reach)
    requires Answered(VerdictsUnder(options, one), options, one, oneKeys, oneCycles) && a in oneCycles
    requires Answered(VerdictsUnder(options, other), options, other, otherKeys, otherCycles) && b in otherCycles
    requires a.id == b.id
    ensures VerdictOn(options, one, key) == Reported(a) && VerdictOn(options, other, key) == Reported(b)
    ensures SameButDirections(a, b)
    ensures a == b <==> !SomePassLeavesUnseen(options, one, other, key)
  {
    key := CycleHasAKey(options, one, oneKeys, oneCycles, a);
    var otherKey := CycleHasAKey(options, other, otherKeys, otherCycles, b);
    OneIdOneKey(options, one, other, key, otherKey);
    WindowsReportTheSameCycle(options, one, other, key, motions(key.body), reach);
  }

  // ----- Selection -----

  /** An omitted candidate was ruled out by a proven bound or by a solved end. */
  lemma OmissionHasAReason(options: ScanOptions, request: Request, key: Key) returns (encounter: Encounter)
    requires EncounterFrom(options.tracks(key.body), SamplesFor(options, request, key.body), key, options.Arc(key.body)).Some?
    requires VerdictOn(options, request, key) == Omitted
    ensures Some(encounter) == EncounterFrom(options.tracks(key.body), SamplesFor(options, request, key.body), key, options.Arc(key.body))
    ensures var e := encounter.envelope;
      || (e.provenRight.Some? && e.provenRight.value < request.from)
      || (e.provenLeft.Some? && request.to <= e.provenLeft.value)
      || (e.startJd.Some? && e.endJd.Some? && (e.endJd.value < request.from || request.to <= e.startJd.value))
  {
    encounter := EncounterFrom(options.tracks(key.body), SamplesFor(options, request, key.body), key, options.Arc(key.body)).value;
  }

  lemma RequestIsAScene(options: ScanOptions, request: Request, body: TransitingBody, m: Motion, reach: real)
    requires TracksAnswer(options) && SkyOf(options, body, m, reach) && Accepts(options, request, body)
    ensures Scene(options.tracks(body), m, SamplesFor(options, request, body), reach)
  {
    RequestIsOnTheGrid(options, request, body);
    HullIsAScene(options, request, request, body, m, reach);
  }

  ghost predicate RuledOutByABound(e: Envelope, from: real, to: real) {
    || (e.provenRight.Some? && e.provenRight.value < from)
    || (e.provenLeft.Some? && to <= e.provenLeft.value)
  }

  /** An encounter omitted on a proven bound is not in orb at any instant of the half-open window. */
  lemma BoundedAwayIsNeverInOrb(
    k: Track, m: Motion, samples: seq<Sample>, reach: real, targetDeg: real, orbDeg: real, w: int, arcDeg: real,
    from: real, to: real, t: real)
    requires Scene(k, m, samples, reach) && ExcursionAtMost(m, arcDeg)
    requires ANGULAR_ZERO_TOLERANCE <= orbDeg && 0.0 <= arcDeg
    requires LevelsOf(k, samples, targetDeg, orbDeg, w).exact != []
    requires RuledOutByABound(Solved(k, samples, targetDeg, orbDeg, w, arcDeg), from, to)
    requires from <= t < to
    ensures !InOrb(m, t, Level(targetDeg, w), orbDeg)
  {
    var e := Solved(k, samples, targetDeg, orbDeg, w, arcDeg);
    if e.provenRight.Some? && e.provenRight.value < from {
      NeverInOrbAfter(k, m, samples, reach, targetDeg, orbDeg, w, arcDeg, t);
    } else {
      NeverInOrbBefore(k, m, samples, reach, targetDeg, orbDeg, w, arcDeg, t);
    }
  }

  lemma SolvedEndsAreProven(k: Track, samples: seq<Sample>, targetDeg: real, orbDeg: real, w: int, arcDeg: real)
    returns (p: real, q: real)
    requires LevelsOf(k, samples, targetDeg, orbDeg, w).exact != []
    requires Solved(k, samples, targetDeg, orbDeg, w, arcDeg).provenLeft.Some?
    requires Solved(k, samples, targetDeg, orbDeg, w, arcDeg).provenRight.Some?
    ensures ProvenAt(k, samples, targetDeg, orbDeg, w, arcDeg, p, q)
  {
    p := Solved(k, samples, targetDeg, orbDeg, w, arcDeg).provenLeft.value;
    q := Solved(k, samples, targetDeg, orbDeg, w, arcDeg).provenRight.value;
  }

  // ----- The two ends -----

  /** The encounter of this key is proven at `p` and `q`. */
  ghost predicate ProvenOn(options: ScanOptions, request: Request, key: Key, p: real, q: real) {
    ProvenAt(options.tracks(key.body), SamplesFor(options, request, key.body), key.branch.oriented.targetDeg, OrbOf(key),
             key.winding, options.Arc(key.body), p, q)
  }

  /** If the encounter is proven on both sides, its first crossing into orb is recorded in time and probed in orb. */
  ghost predicate EntryIsSeen(options: ScanOptions, request: Request, key: Key, m: Motion) {
    forall p, q :: ProvenOn(options, request, key, p, q) ==>
      EntrySeen(options.tracks(key.body), m, SamplesFor(options, request, key.body),
                key.branch.oriented.targetDeg, OrbOf(key), key.winding, p)
  }

  ghost predicate ExitIsSeen(options: ScanOptions, request: Request, key: Key, m: Motion) {
    forall p, q :: ProvenOn(options, request, key, p, q) ==>
      ExitSeen(options.tracks(key.body), m, SamplesFor(options, request, key.body),
               key.branch.oriented.targetDeg, OrbOf(key), key.winding, q)
  }

  /** The sky of one body over one request. */
  ghost predicate SkyUnder(options: ScanOptions, request: Request, body: TransitingBody, m: Motion, reach: real) {
    SkyOf(options, body, m, reach) && Accepts(options, request, body)
  }

  ghost predicate OutermostBracketsAreSeen(options: ScanOptions, request: Request, key: Key, m: Motion) {
    forall j :: FirstInOrb(m, SamplesFor(options, request, key.body), LevelOf(key), OrbOf(key), j)
             || LastInOrb(m, SamplesFor(options, request, key.body), LevelOf(key), OrbOf(key), j)
      ==> BracketIsSeen(options, request, key.body, m, j)
  }

  /** The outermost crossings of one encounter are clean, as the sky and the samples beside them show. */
  ghost predicate CleanSky(options: ScanOptions, request: Request, key: Key, m: Motion, reach: real) {
    && SkyUnder(options, request, key.body, m, reach)
    && OutermostBracketsAreSeen(options, request, key, m)
    && CleanEntry(m, SamplesFor(options, request, key.body), LevelOf(key), OrbOf(key))
    && CleanExit(m, SamplesFor(options, request, key.body), LevelOf(key), OrbOf(key))
  }

  lemma {:induction false} OutermostBracketsAreTame(options: ScanOptions, request: Request, key: Key, m: Motion, reach: real)
    requires TracksAnswer(options) && SkyUnder(options, request, key.body, m, reach)
    requires OutermostBracketsAreSeen(options, request, key, m)
    ensures EntryIsTame(m, SamplesFor(options, request, key.body), LevelOf(key), OrbOf(key))
    ensures ExitIsTame(m, SamplesFor(options, request, key.body), LevelOf(key), OrbOf(key))
  {
    var samples := SamplesFor(options, request, key.body);
    forall j | FirstInOrb(m, samples, LevelOf(key), OrbOf(key), j) || LastInOrb(m, samples, LevelOf(key), OrbOf(key), j)
      ensures TameAt(m, samples, j)
    {
      RequestBracketIsTame(options, request, key.body, m, reach, j);
    }
  }

  /** Clean outermost crossings are seen. */
  lemma {:induction false} CleanEndsAreSeen(options: ScanOptions, request: Request, key: Key, m: Motion, reach: real)
    requires TracksAnswer(options) && CleanSky(options, request, key, m, reach)
    ensures EntryIsSeen(options, request, key, m) && ExitIsSeen(options, request, key, m)
  {
    var k, samples := options.tracks(key.body), SamplesFor(options, request, key.body);
    var targetDeg, arcDeg := key.branch.oriented.targetDeg, options.Arc(key.body);
    RequestIsAScene(options, request, key.body, m, reach);
    OutermostBracketsAreTame(options, request, key, m, reach);
    EveryOrbIsPositive(key.body, key.branch.aspect);
    forall p, q | ProvenOn(options, request, key, p, q)
      ensures EntrySeen(k, m, samples, targetDeg, OrbOf(key), key.winding, p)
      ensures ExitSeen(k, m, samples, targetDeg, OrbOf(key), key.winding, q)
    {
      CleanEntryIsSeen(k, m, samples, reach, targetDeg, OrbOf(key), key.winding, arcDeg, p, q);
      CleanExitIsSeen(k, m, samples, reach, targetDeg, OrbOf(key), key.winding, arcDeg, p, q);
    }
  }

  /** The solved ends of an encounter proven on both sides, where its outermost crossings are seen: they exist,
      and no instant more than one root tolerance outside them, in the span or out of it, is in orb. */
  lemma {:induction false} SolvedEndsBoundOrbTime(
    options: ScanOptions, request: Request, key: Key, m: Motion, reach: real, encounter: Encounter)
    requires TracksAnswer(options) && SkyUnder(options, request, key.body, m, reach)
    requires Some(encounter) == EncounterFrom(options.tracks(key.body), SamplesFor(options, request, key.body), key, options.Arc(key.body))
    requires encounter.envelope.provenLeft.Some? && encounter.envelope.provenRight.Some?
    ensures EntryIsSeen(options, request, key, m) ==> BoundsFromBelow(m, encounter.envelope.startJd, LevelOf(key), OrbOf(key))
    ensures ExitIsSeen(options, request, key, m) ==> BoundsFromAbove(m, encounter.envelope.endJd, LevelOf(key), OrbOf(key))
  {
    var k, samples := options.tracks(key.body), SamplesFor(options, request, key.body);
    var targetDeg, arcDeg := key.branch.oriented.targetDeg, options.Arc(key.body);
    RequestIsAScene(options, request, key.body, m, reach);
    OrbIsCrossedSlowly(options, key.body, m, reach, key.branch.aspect);
    var p, q := SolvedEndsAreProven(k, samples, targetDeg, OrbOf(key), key.winding, arcDeg);
    assert ProvenOn(options, request, key, p, q);
    if EntryIsSeen(options, request, key, m) {
      SeenEntryBounds(k, m, samples, reach, targetDeg, OrbOf(key), key.winding, arcDeg, p, q);
    }
    if ExitIsSeen(options, request, key, m) {
      SeenExitBounds(k, m, samples, reach, targetDeg, OrbOf(key), key.winding, arcDeg, p, q);
    }
  }

  // ----- Omission -----

  /** The candidate is omitted on a proven bound. */
  ghost predicate BoundedAway(options: ScanOptions, request: Request, key: Key) {
    var encounter := EncounterFrom(options.tracks(key.body), SamplesFor(options, request, key.body), key, options.Arc(key.body));
    encounter.Some? && RuledOutByABound(encounter.value.envelope, request.from, request.to)
  }

  /** The candidate has a solved end, and it lies before the window. */
  ghost predicate EndsBefore(options: ScanOptions, request: Request, key: Key) {
    var encounter := EncounterFrom(options.tracks(key.body), SamplesFor(options, request, key.body), key, options.Arc(key.body));
    encounter.Some? && encounter.value.envelope.endJd.Some? && encounter.value.envelope.endJd.value < request.from
  }

  /** The instants of the window that an omission answers for: all of them if it rests on a bound, and all
      but the second next to the solved end that it rests on otherwise. */
  ghost predicate AnsweredFor(options: ScanOptions, request: Request, key: Key, t: real) {
    && request.from <= t < request.to
    && (|| BoundedAway(options, request, key)
        || (if EndsBefore(options, request, key) then request.from + HALF_ROOT_TOLERANCE <= t
            else t < request.to - HALF_ROOT_TOLERANCE))
  }

  /** Selection is sound: a candidate the window omits is never in orb during the half-open window, up to one
      root tolerance at the solved end that the omission rests on. Only that end has to be seen. */
  lemma {:induction false} OmittedIsNeverInOrb(options: ScanOptions, request: Request, key: Key, m: Motion, reach: real, t: real)
    requires TracksAnswer(options) && SkyUnder(options, request, key.body, m, reach)
    requires EncounterFrom(options.tracks(key.body), SamplesFor(options, request, key.body), key, options.Arc(key.body)).Some?
    requires VerdictOn(options, request, key) == Omitted
    requires || BoundedAway(options, request, key)
             || (if EndsBefore(options, request, key) then ExitIsSeen(options, request, key, m)
                 else EntryIsSeen(options, request, key, m))
    requires AnsweredFor(options, request, key, t)
    ensures !InOrb(m, t, LevelOf(key), OrbOf(key))
  {
    var k, samples := options.tracks(key.body), SamplesFor(options, request, key.body);
    var targetDeg, arcDeg := key.branch.oriented.targetDeg, options.Arc(key.body);
    var encounter := OmissionHasAReason(options, request, key);
    if BoundedAway(options, request, key) {
      RequestIsAScene(options, request, key.body, m, reach);
      EveryOrbIsPositive(key.body, key.branch.aspect);
      BoundedAwayIsNeverInOrb(k, m, samples, reach, targetDeg, OrbOf(key), key.winding, arcDeg, request.from, request.to, t);
    } else {
      SolvedEndsBoundOrbTime(options, request, key, m, reach, encounter);
    }
  }

  /** An undecided candidate was not ruled out by a proven bound and lacks a solved end. */
  lemma UndecidedLacksAnEnd(options: ScanOptions, request: Request, key: Key) returns (encounter: Encounter)
    requires VerdictOn(options, request, key) == Undecided
    ensures Some(encounter) == EncounterFrom(options.tracks(key.body), SamplesFor(options, request, key.body), key, options.Arc(key.body))
    ensures !RuledOutByABound(encounter.envelope, request.from, request.to)
    ensures encounter.envelope.startJd.None? || encounter.envelope.endJd.None?
  {
    encounter := EncounterFrom(options.tracks(key.body), SamplesFor(options, request, key.body), key, options.Arc(key.body)).value;
  }

  /** The scan fails for a missing boundary only where it could matter: where the outermost crossings are
      seen, an undecided candidate lacks the proof itself on some side. */
  lemma {:induction false} UndecidedLacksAProof(options: ScanOptions, request: Request, key: Key, m: Motion, reach: real)
    returns (encounter: Encounter)
    requires TracksAnswer(options) && SkyUnder(options, request, key.body, m, reach)
    requires EntryIsSeen(options, request, key, m) && ExitIsSeen(options, request, key, m)
    requires VerdictOn(options, request, key) == Undecided
    ensures Some(encounter) == EncounterFrom(options.tracks(key.body), SamplesFor(options, request, key.body), key, options.Arc(key.body))
    ensures !RuledOutByABound(encounter.envelope, request.from, request.to)
    ensures encounter.envelope.provenLeft.None? || encounter.envelope.provenRight.None?
  {
    encounter := UndecidedLacksAnEnd(options, request, key);
    if encounter.envelope.provenLeft.Some? && encounter.envelope.provenRight.Some? {
      SolvedEndsBoundOrbTime(options, request, key, m, reach, encounter);
    }
  }
}
