/** The scan: every encounter of every body with every target, selected by the request window. */
module Scan {
  import opened Optional
  import opened Angles
  import opened Aspects
  import opened CyclePolicy
  import opened Sky
  import opened LiftChain
  import opened Stations
  import opened Sampling
  import opened SampleLists
  import opened RootScan
  import opened Envelopes
  import opened EnvelopeTheorems
  import opened Rendering

  const MS_PER_DAY := 86400000.0

  /** The first milliseconds of the years 1800 and 2400, counted from 1970. */
  const MS_1800 := -5364662400000
  const MS_2400 := 13569465600000

  datatype CelestialBody = Moving(body: TransitingBody) | Ascendant | Midheaven

  datatype NatalTarget = NatalTarget(body: CelestialBody, longitude: real)

  datatype IdentityInputs = IdentityInputs(chart: string, contractId: string, contractVersion: string, container: string, ephemeris: string)

  datatype CycleIdentity = CycleIdentity(
    inputs: IdentityInputs, body: TransitingBody, target: CelestialBody, aspect: AspectType, branch: OrientedBranch, winding: int)

  datatype CyclePass = CyclePass(index: nat, direction: PassDirection, exactAt: int, speed: real)

  /** Instants are whole seconds from 1970; their ISO renderings order as they do. */
  datatype NormalizedCycle = NormalizedCycle(
    id: int, body: TransitingBody, target: CelestialBody, aspect: AspectType,
    startAt: int, exactAt: int, endAt: int, passes: seq<CyclePass>, passCount: nat, orbDeg: real)

  function StepOf(liftStep: Option<TransitingBody -> real>, body: TransitingBody): real {
    match liftStep case Some(choose) => choose(body) case None => PolicyOf(body).liftStep
  }

  datatype ScanOptions = ScanOptions(
    source: EphemerisSource,
    bodies: seq<TransitingBody>,
    inputs: IdentityInputs,
    lookaround: Option<TransitingBody -> real>,
    liftStep: Option<TransitingBody -> real>,
    retrogradeArc: Option<TransitingBody -> real>,
    digest: CycleIdentity -> int,
    tracks: TransitingBody -> Track)
  {
    function Lookaround(body: TransitingBody): real {
      match lookaround case Some(choose) => choose(body) case None => PolicyOf(body).lookaround
    }

    function Step(body: TransitingBody): real {
      StepOf(liftStep, body)
    }

    function Arc(body: TransitingBody): real {
      match retrogradeArc case Some(choose) => choose(body) case None => PolicyOf(body).retrogradeArc
    }
  }

  function Positive(step: real): PositiveDays {
    if 0.0 < step then step else 1.0
  }

  function TrackFor(source: EphemerisSource, liftStep: Option<TransitingBody -> real>, body: TransitingBody): (k: Track)
    ensures 0.0 < StepOf(liftStep, body) ==> Answers(k, source, body, StepOf(liftStep, body)) && k.policy == PolicyOf(body)
  {
    TrackOf(source, body, Positive(StepOf(liftStep, body)), PolicyOf(body))
  }

  /** Options over a source, with the tracks that answer for it. */
  function OptionsOver(
    source: EphemerisSource, bodies: seq<TransitingBody>, inputs: IdentityInputs,
    lookaround: Option<TransitingBody -> real>, liftStep: Option<TransitingBody -> real>,
    retrogradeArc: Option<TransitingBody -> real>, digest: CycleIdentity -> int): (options: ScanOptions)
    ensures TracksAnswer(options) && options.source == source && options.liftStep == liftStep
  {
    ScanOptions(source, bodies, inputs, lookaround, liftStep, retrogradeArc, digest,
                body => TrackFor(source, liftStep, body))
  }

  datatype Request = Request(from: real, to: real, targets: seq<NatalTarget>)

  datatype ScanResult = Cycles(cycles: seq<NormalizedCycle>) | EphemerisRange | WindowIncomplete

  /** One oriented target of one aspect with one natal body. */
  datatype Branch = Branch(target: NatalTarget, aspect: AspectType, oriented: OrientedTarget)

  datatype Key = Key(body: TransitingBody, branch: Branch, winding: int)

  const ASPECTS: seq<AspectType> := [Conjunction, Sextile, Square, Trine, Opposition]

  // ----- Rendering -----

  /** A speed to six decimals; zero is kept for a body that stands still. */
  function RoundSpeed(speed: real): real {
    var scaled := (Round(Abs(speed) * 1000000.0) as real) / 1000000.0;
    if scaled == 0.0 && speed != 0.0 then (if speed > 0.0 then 0.000001 else -0.000001)
    else if speed < 0.0 then -scaled else scaled
  }

  function DirectionOf(root: Root): PassDirection {
    match root.direction
    case Some(direction) => direction
    case None => if root.speed < 0.0 then Retrograde else Direct
  }

  function PassOf(root: Root, index: nat): CyclePass {
    CyclePass(index + 1, DirectionOf(root), Seconds1970(root.jd), if root.direction.Some? then 0.0 else RoundSpeed(root.speed))
  }

  function PassesOf(roots: seq<Root>): seq<CyclePass> {
    seq(|roots|, i requires 0 <= i < |roots| => PassOf(roots[i], i))
  }

  function IdentityOf(options: ScanOptions, key: Key): CycleIdentity {
    CycleIdentity(options.inputs, key.body, key.branch.target.body, key.branch.aspect, key.branch.oriented.branch, key.winding)
  }

  function Finalized(options: ScanOptions, key: Key, passes: seq<Root>, start: real, end: real): NormalizedCycle
    requires passes != []
  {
    NormalizedCycle(
      options.digest(IdentityOf(options, key)), key.body, key.branch.target.body, key.branch.aspect,
      Seconds1970(start), Seconds1970(passes[0].jd), Seconds1970(end), PassesOf(passes), |passes|,
      TransitOrbDeg(key.body, key.branch.aspect))
  }

  // ----- What one key amounts to -----

  /** `tracks` gives, for every body, the answers of this source and of a lift chain over it. */
  ghost predicate TracksAnswer(options: ScanOptions) {
    forall body {:trigger options.tracks(body)} :: 0.0 < options.Step(body) ==>
      Answers(options.tracks(body), options.source, body, options.Step(body)) && options.tracks(body).policy == PolicyOf(body)
  }

  function SpanSamples(k: Track, start: real, end: real): seq<Sample> {
    Samples(k, k.gridBelow(start), k.gridAbove(end))
  }

  function SamplesFor(options: ScanOptions, request: Request, body: TransitingBody): seq<Sample> {
    SpanSamples(options.tracks(body), request.from - options.Lookaround(body), request.to + options.Lookaround(body))
  }

  datatype Decision = Omit | Report | Incomplete

  /** Selection, not clipping: the window decides which complete encounters are returned. */
  function Decide(e: Envelope, from: real, to: real): Decision {
    if e.provenRight.Some? && e.provenRight.value < from then Omit
    else if e.provenLeft.Some? && e.provenLeft.value >= to then Omit
    else if e.startJd.None? || e.endJd.None? then Incomplete
    else if e.endJd.value < from then Omit
    else if e.startJd.value >= to then Omit
    else Report
  }

  /** The levels and envelope of one winding, as this track and these samples solve it. */
  datatype Encounter = Encounter(levels: LevelRoots, envelope: Envelope)

  function EncounterFrom(k: Track, samples: seq<Sample>, key: Key, arc: real): (encounter: Option<Encounter>)
    ensures encounter.Some? ==> encounter.value.levels.exact != []
  {
    var targetDeg := key.branch.oriented.targetDeg;
    var orbDeg := TransitOrbDeg(key.body, key.branch.aspect);
    var levels := LevelsOf(k, samples, targetDeg, orbDeg, key.winding);
    if levels.exact == [] then None
    else Some(Encounter(levels, EnvelopeOf(k.lon, samples, levels, Level(targetDeg, key.winding), orbDeg, arc)))
  }

  datatype Verdict = Omitted | Undecided | Reported(cycle: NormalizedCycle)

  function CycleOf(options: ScanOptions, key: Key, encounter: Encounter): NormalizedCycle
    requires encounter.levels.exact != []
    requires encounter.envelope.startJd.Some? && encounter.envelope.endJd.Some?
  {
    SortingKeepsTheRoots(encounter.levels.exact);
    Finalized(options, key, SortedByTime(encounter.levels.exact),
              encounter.envelope.startJd.value, encounter.envelope.endJd.value)
  }

  /** What the window makes of one key, given the body's samples; a winding without an exact pass
      is no candidate. */
  function VerdictFrom(options: ScanOptions, request: Request, k: Track, samples: seq<Sample>, key: Key): Verdict {
    match EncounterFrom(k, samples, key, options.Arc(key.body))
    case None => Omitted
    case Some(encounter) =>
      match Decide(encounter.envelope, request.from, request.to)
      case Omit => Omitted
      case Incomplete => Undecided
      case Report => Reported(CycleOf(options, key, encounter))
  }

  function VerdictOn(options: ScanOptions, request: Request, key: Key): Verdict {
    VerdictFrom(options, request, options.tracks(key.body), SamplesFor(options, request, key.body), key)
  }

  ghost predicate JudgesAt(verdict: Key -> Verdict, options: ScanOptions, request: Request, key: Key) {
    verdict(key) == VerdictOn(options, request, key)
  }

  /** `verdict` gives every key its verdict under this request. */
  ghost predicate Judges(verdict: Key -> Verdict, options: ScanOptions, request: Request) {
    forall key {:trigger JudgesAt(verdict, options, request, key)} :: JudgesAt(verdict, options, request, key)
  }

  ghost predicate JudgesFromAt(
    verdict: Key -> Verdict, options: ScanOptions, request: Request, k: Track, samples: seq<Sample>, key: Key)
  {
    verdict(key) == VerdictFrom(options, request, k, samples, key)
  }

  /** `verdict` judges the keys of one body from these samples. */
  ghost predicate JudgesBody(
    verdict: Key -> Verdict, options: ScanOptions, request: Request, body: TransitingBody, k: Track, samples: seq<Sample>)
  {
    forall key: Key {:trigger JudgesFromAt(verdict, options, request, k, samples, key)} ::
      key.body == body ==> JudgesFromAt(verdict, options, request, k, samples, key)
  }

  lemma JudgesEachBody(
    verdict: Key -> Verdict, options: ScanOptions, request: Request, body: TransitingBody, k: Track, samples: seq<Sample>)
    requires Judges(verdict, options, request)
    requires k == options.tracks(body) && samples == SamplesFor(options, request, body)
    ensures JudgesBody(verdict, options, request, body, k, samples)
  {
    forall key: Key | key.body == body
      ensures JudgesFromAt(verdict, options, request, k, samples, key)
    {
      assert JudgesAt(verdict, options, request, key);
    }
  }

  function BranchesOf(target: NatalTarget, aspect: AspectType): seq<Branch> {
    var oriented := OrientedTargets(target.longitude, AspectAngle(aspect));
    seq(|oriented|, i requires 0 <= i < |oriented| => Branch(target, aspect, oriented[i]))
  }

  // ----- Order -----

  predicate Precedes(a: NormalizedCycle, b: NormalizedCycle) {
    a.exactAt < b.exactAt || (a.exactAt == b.exactAt && a.id <= b.id)
  }

  function InsertedCycle(cycles: seq<NormalizedCycle>, cycle: NormalizedCycle): seq<NormalizedCycle> {
    if cycles == [] then [cycle]
    else if Precedes(cycle, cycles[0]) then [cycle] + cycles
    else [cycles[0]] + InsertedCycle(cycles[1..], cycle)
  }

  function SortedCycles(cycles: seq<NormalizedCycle>): seq<NormalizedCycle> {
    if cycles == [] then [] else InsertedCycle(SortedCycles(cycles[..|cycles| - 1]), cycles[|cycles| - 1])
  }

  // ----- The code -----

  predicate InEphemerisRange(spanStart: real, spanEnd: real) {
    MS_1800 <= Round((spanStart - 1.0 - UNIX_EPOCH_JD) * MS_PER_DAY)
    && Round((spanEnd + 1.0 - UNIX_EPOCH_JD) * MS_PER_DAY) < MS_2400
  }

  /** What has been collected so far: one cycle for each reported key, in the order of the keys. */
  ghost predicate Collected(verdict: Key -> Verdict, keys: seq<Key>, cycles: seq<NormalizedCycle>) {
    && |keys| == |cycles|
    && forall i :: 0 <= i < |keys| ==> verdict(keys[i]) == Reported(cycles[i])
  }

  /** The scan has dealt with this key: it is not undecided, and it is among the keys if it is reported. */
  ghost predicate Settled(verdict: Key -> Verdict, keys: seq<Key>, key: Key) {
    !verdict(key).Undecided? && (verdict(key).Reported? ==> key in keys)
  }

  /** What tells two branches of one body apart in an identity. */
  datatype Label = Label(target: CelestialBody, aspect: AspectType, branch: OrientedBranch)

  function LabelOf(branch: Branch): Label {
    Label(branch.target.body, branch.aspect, branch.oriented.branch)
  }

  ghost predicate DistinctLabels(branches: seq<Branch>) {
    forall i, j :: 0 <= i < j < |branches| ==> LabelOf(branches[i]) != LabelOf(branches[j])
  }

  ghost predicate SameIdentity(a: Key, b: Key) {
    a.body == b.body && LabelOf(a.branch) == LabelOf(b.branch) && a.winding == b.winding
  }

  ghost predicate DistinctKeys(keys: seq<Key>) {
    forall i, j :: 0 <= i < j < |keys| ==> !SameIdentity(keys[i], keys[j])
  }

  function AspectBranches(target: NatalTarget, aspects: seq<AspectType>): seq<Branch> {
    if aspects == [] then [] else BranchesOf(target, aspects[0]) + AspectBranches(target, aspects[1..])
  }

  /** The branches in the order the scan visits them: by target, by aspect, by orientation. */
  function BranchList(targets: seq<NatalTarget>, aspects: seq<AspectType>): seq<Branch> {
    if targets == [] then [] else AspectBranches(targets[0], aspects) + BranchList(targets[1..], aspects)
  }

  /** One winding of one branch: no exact pass, no candidate. */
  method ScanWinding(
    options: ScanOptions, request: Request, ghost verdict: Key -> Verdict,
    k: Track, samples: seq<Sample>, key: Key, targetDeg: real, orbDeg: real, levels: LevelRoots)
    returns (result: Verdict)
    requires 0.0 < options.Step(key.body) && Answers(k, options.source, key.body, options.Step(key.body))
    requires Ascending(samples)
    requires targetDeg == key.branch.oriented.targetDeg && orbDeg == TransitOrbDeg(key.body, key.branch.aspect)
    requires levels == LevelsOf(k, samples, targetDeg, orbDeg, key.winding)
    requires JudgesBody(verdict, options, request, key.body, k, samples)
    ensures result == verdict(key)
  {
    assert JudgesFromAt(verdict, options, request, k, samples, key);
    if levels.exact == [] { return Omitted; }
    var envelope := SolveEnvelope(options.source, key.body, k, options.Step(key.body), samples, levels,
                                  Level(targetDeg, key.winding), orbDeg, options.Arc(key.body));
    var encounter := Encounter(levels, envelope);
    match Decide(envelope, request.from, request.to)
    case Omit => result := Omitted;
    case Incomplete => result := Undecided;
    case Report => result := Reported(CycleOf(options, key, encounter));
  }

  /** A winding for which nothing was recorded is not reported. */
  lemma EmptyWindingIsOmitted(
    options: ScanOptions, request: Request, verdict: Key -> Verdict, k: Track, samples: seq<Sample>, key: Key)
    requires LevelsOf(k, samples, key.branch.oriented.targetDeg, TransitOrbDeg(key.body, key.branch.aspect), key.winding) == NO_ROOTS
    requires JudgesBody(verdict, options, request, key.body, k, samples)
    ensures verdict(key) == Omitted
  {
    assert JudgesFromAt(verdict, options, request, k, samples, key);
  }

  /** Every winding of one branch of one body. */
  method ScanBranch(
    options: ScanOptions, request: Request, ghost verdict: Key -> Verdict,
    body: TransitingBody, k: Track, samples: seq<Sample>, branch: Branch)
    returns (cycles: seq<NormalizedCycle>, complete: bool, ghost keys: seq<Key>)
    requires 0.0 < options.Step(body) && Answers(k, options.source, body, options.Step(body))
    requires Ascending(samples) && JudgesBody(verdict, options, request, body, k, samples)
    ensures Collected(verdict, keys, cycles) && DistinctKeys(keys)
    ensures forall key :: key in keys ==> key.body == body && key.branch == branch
    ensures complete ==> BranchSettled(verdict, keys, body, branch)
    ensures !complete ==> exists w :: verdict(Key(body, branch, w)) == Undecided
  {
    var targetDeg := branch.oriented.targetDeg;
    var orbDeg := TransitOrbDeg(body, branch.aspect);
    var byWinding := ScanTargetBranch(options.source, body, k, options.Step(body), samples, targetDeg, orbDeg);
    forall w
      ensures HoldsLevels(byWinding, k, samples, targetDeg, orbDeg, w)
    {
      BucketsAreLevels(byWinding, k, samples, targetDeg, orbDeg, w);
    }
    cycles, complete, keys := ScanWindings(options, request, verdict, body, k, samples, branch, targetDeg, orbDeg, byWinding);
  }

  ghost predicate HoldsLevels(
    byWinding: map<int, LevelRoots>, k: Track, samples: seq<Sample>, targetDeg: real, orbDeg: real, w: int)
  {
    LevelsOf(k, samples, targetDeg, orbDeg, w) == if w in byWinding then byWinding[w] else NO_ROOTS
  }

  ghost predicate AllLevelsHeld(
    byWinding: map<int, LevelRoots>, k: Track, samples: seq<Sample>, targetDeg: real, orbDeg: real)
  {
    forall w {:trigger HoldsLevels(byWinding, k, samples, targetDeg, orbDeg, w)} ::
      HoldsLevels(byWinding, k, samples, targetDeg, orbDeg, w)
  }

  method PickAny<T>(items: set<T>) returns (item: T)
    requires items != {}
    ensures item in items
  {
    item :| item in items;
  }

  method ScanWindings(
    options: ScanOptions, request: Request, ghost verdict: Key -> Verdict,
    body: TransitingBody, k: Track, samples: seq<Sample>, branch: Branch,
    targetDeg: real, orbDeg: real, byWinding: map<int, LevelRoots>)
    returns (cycles: seq<NormalizedCycle>, complete: bool, ghost keys: seq<Key>)
    requires 0.0 < options.Step(body) && Answers(k, options.source, body, options.Step(body))
    requires Ascending(samples) && JudgesBody(verdict, options, request, body, k, samples)
    requires targetDeg == branch.oriented.targetDeg && orbDeg == TransitOrbDeg(body, branch.aspect)
    requires AllLevelsHeld(byWinding, k, samples, targetDeg, orbDeg)
    ensures Collected(verdict, keys, cycles) && DistinctKeys(keys)
    ensures forall key :: key in keys ==> key.body == body && key.branch == branch
    ensures complete ==> BranchSettled(verdict, keys, body, branch)
    ensures !complete ==> exists w :: verdict(Key(body, branch, w)) == Undecided
  {
    cycles, keys, complete := [], [], true;
    var remaining := byWinding.Keys;
    while remaining != {}
      invariant remaining <= byWinding.Keys
      invariant Collected(verdict, keys, cycles) && DistinctKeys(keys)
      invariant forall key :: key in keys ==> key.body == body && key.branch == branch && key.winding !in remaining
      invariant forall w :: w in byWinding && w !in remaining ==> Settled(verdict, keys, Key(body, branch, w))
      decreases |remaining|
    {
      var w := PickAny(remaining);
      remaining := remaining - {w};
      var result := JudgeWinding(options, request, verdict, body, k, samples, branch, targetDeg, orbDeg, byWinding, w);
      if result == Undecided {
        complete := false;
        return;
      }
      if result.Reported? {
        cycles := cycles + [result.cycle];
        keys := keys + [Key(body, branch, w)];
      }
    }
    AbsentWindingsAreOmitted(options, request, verdict, body, k, samples, branch, targetDeg, orbDeg, byWinding);
  }

  method JudgeWinding(
    options: ScanOptions, request: Request, ghost verdict: Key -> Verdict,
    body: TransitingBody, k: Track, samples: seq<Sample>, branch: Branch,
    targetDeg: real, orbDeg: real, byWinding: map<int, LevelRoots>, w: int)
    returns (result: Verdict)
    requires 0.0 < options.Step(body) && Answers(k, options.source, body, options.Step(body))
    requires Ascending(samples) && JudgesBody(verdict, options, request, body, k, samples)
    requires targetDeg == branch.oriented.targetDeg && orbDeg == TransitOrbDeg(body, branch.aspect)
    requires AllLevelsHeld(byWinding, k, samples, targetDeg, orbDeg) && w in byWinding
    ensures result == verdict(Key(body, branch, w))
  {
    assert HoldsLevels(byWinding, k, samples, targetDeg, orbDeg, w);
    result := ScanWinding(options, request, verdict, k, samples, Key(body, branch, w), targetDeg, orbDeg, byWinding[w]);
  }

  lemma AbsentWindingsAreOmitted(
    options: ScanOptions, request: Request, verdict: Key -> Verdict,
    body: TransitingBody, k: Track, samples: seq<Sample>, branch: Branch,
    targetDeg: real, orbDeg: real, byWinding: map<int, LevelRoots>)
    requires JudgesBody(verdict, options, request, body, k, samples)
    requires targetDeg == branch.oriented.targetDeg && orbDeg == TransitOrbDeg(body, branch.aspect)
    requires AllLevelsHeld(byWinding, k, samples, targetDeg, orbDeg)
    ensures forall w :: w !in byWinding ==> verdict(Key(body, branch, w)) == Omitted
  {
    forall w | w !in byWinding
      ensures verdict(Key(body, branch, w)) == Omitted
    {
      assert HoldsLevels(byWinding, k, samples, targetDeg, orbDeg, w);
      EmptyWindingIsOmitted(options, request, verdict, k, samples, Key(body, branch, w));
    }
  }

  lemma BucketsAreLevels(
    byWinding: map<int, LevelRoots>, k: Track, samples: seq<Sample>, targetDeg: real, orbDeg: real, w: int)
    requires forall v, kind :: Bucket(byWinding, v, kind) == Recorded(k, samples, Base(kind, targetDeg, orbDeg), v)
    ensures HoldsLevels(byWinding, k, samples, targetDeg, orbDeg, w)
  {
    assert Bucket(byWinding, w, Exact) == Recorded(k, samples, Base(Exact, targetDeg, orbDeg), w);
    assert Bucket(byWinding, w, Lower) == Recorded(k, samples, Base(Lower, targetDeg, orbDeg), w);
    assert Bucket(byWinding, w, Upper) == Recorded(k, samples, Base(Upper, targetDeg, orbDeg), w);
  }

  // ----- Collecting over branches and bodies -----

  ghost predicate BranchSettled(verdict: Key -> Verdict, keys: seq<Key>, body: TransitingBody, branch: Branch) {
    forall w :: Settled(verdict, keys, Key(body, branch, w))
  }

  ghost predicate BodySettled(verdict: Key -> Verdict, keys: seq<Key>, body: TransitingBody, branches: seq<Branch>) {
    forall i :: 0 <= i < |branches| ==> BranchSettled(verdict, keys, body, branches[i])
  }

  ghost predicate FromBranches(keys: seq<Key>, body: TransitingBody, branches: seq<Branch>) {
    forall key :: key in keys ==> key.body == body && key.branch in branches
  }

  ghost predicate FromBodies(keys: seq<Key>, bodies: seq<TransitingBody>, branches: seq<Branch>) {
    forall key :: key in keys ==> key.body in bodies && key.branch in branches
  }

  lemma BodySettledGrows(verdict: Key -> Verdict, keys: seq<Key>, more: seq<Key>, body: TransitingBody, branches: seq<Branch>)
    requires BodySettled(verdict, keys, body, branches)
    ensures BodySettled(verdict, keys + more, body, branches)
  {
    forall i | 0 <= i < |branches|
      ensures BranchSettled(verdict, keys + more, body, branches[i])
    {
      assert BranchSettled(verdict, keys, body, branches[i]);
      forall w
        ensures Settled(verdict, keys + more, Key(body, branches[i], w))
      {
        assert Settled(verdict, keys, Key(body, branches[i], w));
      }
    }
  }

  lemma BodySettledShiftsIn(verdict: Key -> Verdict, keys: seq<Key>, more: seq<Key>, body: TransitingBody, branches: seq<Branch>)
    requires BodySettled(verdict, more, body, branches)
    ensures BodySettled(verdict, keys + more, body, branches)
  {
    forall i | 0 <= i < |branches|
      ensures BranchSettled(verdict, keys + more, body, branches[i])
    {
      assert BranchSettled(verdict, more, body, branches[i]);
      forall w
        ensures Settled(verdict, keys + more, Key(body, branches[i], w))
      {
        assert Settled(verdict, more, Key(body, branches[i], w));
      }
    }
  }

  lemma SettledAdvances(
    verdict: Key -> Verdict, keys: seq<Key>, more: seq<Key>, body: TransitingBody, branches: seq<Branch>, j: nat)
    requires j < |branches| && BodySettled(verdict, keys, body, branches[..j])
    requires BranchSettled(verdict, more, body, branches[j])
    ensures BodySettled(verdict, keys + more, body, branches[..j + 1])
  {
    BodySettledGrows(verdict, keys, more, body, branches[..j]);
    BodySettledShiftsIn(verdict, keys, more, body, [branches[j]]);
    assert branches[..j + 1] == branches[..j] + [branches[j]];
    assert BranchSettled(verdict, keys + more, body, [branches[j]][0]);
  }

  lemma KeysJoin(keys: seq<Key>, more: seq<Key>)
    requires DistinctKeys(keys) && DistinctKeys(more)
    requires forall a, b :: a in keys && b in more ==> !SameIdentity(a, b)
    ensures DistinctKeys(keys + more)
  {
    forall x, y | 0 <= x < y < |keys + more|
      ensures !SameIdentity((keys + more)[x], (keys + more)[y])
    {
      if x < |keys| && |keys| <= y {
        assert keys[x] in keys && more[y - |keys|] in more;
      }
    }
  }

  lemma BranchKeysJoin(keys: seq<Key>, more: seq<Key>, body: TransitingBody, branches: seq<Branch>, j: int)
    requires 0 <= j < |branches| && DistinctLabels(branches)
    requires FromBranches(keys, body, branches[..j]) && DistinctKeys(keys) && DistinctKeys(more)
    requires forall key :: key in more ==> key.body == body && key.branch == branches[j]
    ensures DistinctKeys(keys + more) && FromBranches(keys + more, body, branches[..j + 1])
  {
    forall a, b | a in keys && b in more
      ensures !SameIdentity(a, b)
    {
      var i :| 0 <= i < j && branches[..j][i] == a.branch;
      assert LabelOf(branches[i]) != LabelOf(branches[j]);
    }
    KeysJoin(keys, more);
    assert branches[..j + 1] == branches[..j] + [branches[j]];
  }

  lemma CollectedJoin(
    verdict: Key -> Verdict, keys: seq<Key>, cycles: seq<NormalizedCycle>,
    moreKeys: seq<Key>, moreCycles: seq<NormalizedCycle>)
    requires Collected(verdict, keys, cycles) && Collected(verdict, moreKeys, moreCycles)
    ensures Collected(verdict, keys + moreKeys, cycles + moreCycles)
  {
  }

  method ScanBranches(
    options: ScanOptions, request: Request, ghost verdict: Key -> Verdict,
    body: TransitingBody, k: Track, samples: seq<Sample>, branches: seq<Branch>)
    returns (cycles: seq<NormalizedCycle>, complete: bool, ghost keys: seq<Key>)
    requires 0.0 < options.Step(body) && Answers(k, options.source, body, options.Step(body))
    requires Ascending(samples) && JudgesBody(verdict, options, request, body, k, samples)
    requires DistinctLabels(branches)
    ensures Collected(verdict, keys, cycles) && DistinctKeys(keys) && FromBranches(keys, body, branches)
    ensures complete ==> BodySettled(verdict, keys, body, branches)
    ensures !complete ==> exists branch, w :: branch in branches && verdict(Key(body, branch, w)) == Undecided
  {
    cycles, keys, complete := [], [], true;
    var j := 0;
    while j < |branches|
      invariant 0 <= j <= |branches|
      invariant Collected(verdict, keys, cycles) && DistinctKeys(keys) && FromBranches(keys, body, branches[..j])
      invariant BodySettled(verdict, keys, body, branches[..j])
    {
      var found, whole; ghost var moreKeys;
      found, whole, moreKeys := ScanBranch(options, request, verdict, body, k, samples, branches[j]);
      if !whole {
        complete := false;
        FromPrefix(keys, body, branches, j);
        return;
      }
      SettledAdvances(verdict, keys, moreKeys, body, branches, j);
      BranchKeysJoin(keys, moreKeys, body, branches, j);
      CollectedJoin(verdict, keys, cycles, moreKeys, found);
      cycles, keys := cycles + found, keys + moreKeys;
      j := j + 1;
    }
    assert branches[..|branches|] == branches;
  }

  lemma FromPrefix(keys: seq<Key>, body: TransitingBody, branches: seq<Branch>, j: int)
    requires 0 <= j <= |branches| && FromBranches(keys, body, branches[..j])
    ensures FromBranches(keys, body, branches)
  {
  }

  lemma SpanAscends(k: Track, start: real, end: real)
    requires GridSteps(k)
    ensures Ascending(SpanSamples(k, start, end))
  {
    if k.gridBelow(start) <= k.gridAbove(end) {
      SamplesAreOrdered(k, k.gridBelow(start), k.gridAbove(end));
    }
  }

  method TakeSamples(lift: LiftChain, body: TransitingBody, k: Track, start: real, end: real)
    returns (samples: seq<Sample>)
    requires Answers(k, lift.source, body, lift.Step(body)) && k.policy == PolicyOf(body)
    requires lift.Valid()
    modifies lift
    ensures lift.Valid()
    ensures samples == SpanSamples(k, start, end) && Ascending(samples)
  {
    samples := SampleBody(lift, body, PolicyOf(body), k, start, end);
    EveryRowIsUsable(body);
    AnswersStepTheGrid(k, lift.source, body, lift.Step(body));
    SpanAscends(k, start, end);
  }

  lemma SpanOfTheRequest(options: ScanOptions, request: Request, body: TransitingBody, k: Track, start: real, end: real)
    requires k == options.tracks(body)
    requires start == request.from - options.Lookaround(body) && end == request.to + options.Lookaround(body)
    ensures SpanSamples(k, start, end) == SamplesFor(options, request, body)
  {
  }

  method TakeBodySamples(
    options: ScanOptions, request: Request, ghost verdict: Key -> Verdict, lift: LiftChain, body: TransitingBody)
    returns (k: Track, samples: seq<Sample>)
    requires 0.0 < options.Step(body) && TracksAnswer(options)
    requires lift.Valid() && lift.source == options.source && lift.stepOverride == options.liftStep
    requires Judges(verdict, options, request)
    modifies lift
    ensures lift.Valid()
    ensures Answers(k, options.source, body, options.Step(body)) && Ascending(samples)
    ensures JudgesBody(verdict, options, request, body, k, samples)
  {
    k := options.tracks(body);
    var lookaround := options.Lookaround(body);
    var start, end := request.from - lookaround, request.to + lookaround;
    samples := TakeSamples(lift, body, k, start, end);
    SpanOfTheRequest(options, request, body, k, start, end);
    JudgesEachBody(verdict, options, request, body, k, samples);
  }

  /** Every branch of one body; the samples are taken once, when there is anything to compare them with. */
  method ScanBody(
    options: ScanOptions, request: Request, ghost verdict: Key -> Verdict,
    lift: LiftChain, body: TransitingBody, branches: seq<Branch>)
    returns (cycles: seq<NormalizedCycle>, complete: bool, ghost keys: seq<Key>)
    requires 0.0 < options.Step(body) && TracksAnswer(options)
    requires lift.Valid() && lift.source == options.source && lift.stepOverride == options.liftStep
    requires Judges(verdict, options, request) && DistinctLabels(branches)
    modifies lift
    ensures lift.Valid()
    ensures Collected(verdict, keys, cycles) && DistinctKeys(keys) && FromBranches(keys, body, branches)
    ensures complete ==> BodySettled(verdict, keys, body, branches)
    ensures !complete ==> exists branch, w :: branch in branches && verdict(Key(body, branch, w)) == Undecided
  {
    cycles, keys, complete := [], [], true;
    if branches == [] { return; }
    var k, samples := TakeBodySamples(options, request, verdict, lift, body);
    cycles, complete, keys := ScanBranches(options, request, verdict, body, k, samples, branches);
  }

  // ----- The whole scan -----

  predicate DistinctTargets(targets: seq<NatalTarget>) {
    forall i, j :: 0 <= i < j < |targets| ==> targets[i].body != targets[j].body
  }

  lemma BranchesAreLabelled(target: NatalTarget, aspect: AspectType)
    ensures DistinctLabels(BranchesOf(target, aspect))
    ensures forall b :: b in BranchesOf(target, aspect) ==> b.target == target && b.aspect == aspect
  {
  }

  lemma LabelsJoin(a: seq<Branch>, b: seq<Branch>)
    requires DistinctLabels(a) && DistinctLabels(b)
    requires forall x, y :: x in a && y in b ==> LabelOf(x) != LabelOf(y)
    ensures DistinctLabels(a + b)
  {
    forall i, j | 0 <= i < j < |a + b|
      ensures LabelOf((a + b)[i]) != LabelOf((a + b)[j])
    {
      if i < |a| && |a| <= j {
        assert a[i] in a && b[j - |a|] in b;
      }
    }
  }

  ghost predicate DistinctAspects(aspects: seq<AspectType>) {
    forall i, j :: 0 <= i < j < |aspects| ==> aspects[i] != aspects[j]
  }

  lemma {:induction false} AspectBranchesAreLabelled(target: NatalTarget, aspects: seq<AspectType>)
    requires DistinctAspects(aspects)
    ensures DistinctLabels(AspectBranches(target, aspects))
    ensures forall b :: b in AspectBranches(target, aspects) <==> b.aspect in aspects && b in BranchesOf(target, b.aspect)
  {
    if aspects != [] {
      AspectBranchesAreLabelled(target, aspects[1..]);
      forall aspect
        ensures forall b :: b in BranchesOf(target, aspect) ==> b.target == target && b.aspect == aspect
      {
        BranchesAreLabelled(target, aspect);
      }
      BranchesAreLabelled(target, aspects[0]);
      LabelsJoin(BranchesOf(target, aspects[0]), AspectBranches(target, aspects[1..]));
    }
  }

  /** The list of branches holds every oriented target of every aspect with every natal target, once. */
  lemma {:induction false} BranchListIsLabelled(targets: seq<NatalTarget>, aspects: seq<AspectType>)
    requires DistinctTargets(targets) && DistinctAspects(aspects)
    ensures DistinctLabels(BranchList(targets, aspects))
    ensures forall b :: b in BranchList(targets, aspects) <==>
      b.target in targets && b.aspect in aspects && b in BranchesOf(b.target, b.aspect)
    decreases |targets|
  {
    if targets != [] {
      BranchListIsLabelled(targets[1..], aspects);
      AspectBranchesAreLabelled(targets[0], aspects);
      forall target, aspect
        ensures forall b :: b in BranchesOf(target, aspect) ==> b.target == target && b.aspect == aspect
      {
        BranchesAreLabelled(target, aspect);
      }
      LabelsJoin(AspectBranches(targets[0], aspects), BranchList(targets[1..], aspects));
    }
  }

  predicate DistinctBodies(bodies: seq<TransitingBody>) {
    forall i, j :: 0 <= i < j < |bodies| ==> bodies[i] != bodies[j]
  }

  /** What request validation and the policy guarantee before a scan starts. */
  ghost predicate Admitted(options: ScanOptions, request: Request) {
    && DistinctTargets(request.targets)
    && DistinctBodies(options.bodies)
    && TracksAnswer(options)
    && forall body :: body in options.bodies ==> 0.0 < options.Step(body)
  }

  ghost predicate InScope(options: ScanOptions, request: Request, key: Key) {
    key.body in options.bodies && key.branch in BranchList(request.targets, ASPECTS)
  }

  function VerdictsUnder(options: ScanOptions, request: Request): (verdict: Key -> Verdict)
    ensures Judges(verdict, options, request)
  {
    key => VerdictOn(options, request, key)
  }

  /** The answer of a complete scan: the cycles of exactly the keys in scope that are reported, each once, in order. */
  ghost predicate Answered(
    verdict: Key -> Verdict, options: ScanOptions, request: Request, keys: seq<Key>, cycles: seq<NormalizedCycle>) {
    && DistinctKeys(keys)
    && (forall key :: key in keys ==> InScope(options, request, key))
    && (forall key :: InScope(options, request, key) ==> Settled(verdict, keys, key))
    && exists found :: Collected(verdict, keys, found) && cycles == SortedCycles(found)
  }

  predicate SpanInRange(options: ScanOptions, request: Request, body: TransitingBody) {
    InEphemerisRange(request.from - options.Lookaround(body), request.to + options.Lookaround(body))
  }

  lemma BodyKeysJoin(keys: seq<Key>, more: seq<Key>, bodies: seq<TransitingBody>, branches: seq<Branch>, i: int)
    requires 0 <= i < |bodies| && DistinctBodies(bodies)
    requires FromBodies(keys, bodies[..i], branches) && DistinctKeys(keys) && DistinctKeys(more)
    requires FromBranches(more, bodies[i], branches)
    ensures DistinctKeys(keys + more) && FromBodies(keys + more, bodies[..i + 1], branches)
  {
    forall a, b | a in keys && b in more
      ensures !SameIdentity(a, b)
    {
      assert a.body in bodies[..i];
      var n :| 0 <= n < i && bodies[..i][n] == a.body;
      assert bodies[n] != bodies[i];
    }
    KeysJoin(keys, more);
    assert bodies[..i + 1] == bodies[..i] + [bodies[i]];
  }

  ghost predicate AllSettled(verdict: Key -> Verdict, keys: seq<Key>, bodies: seq<TransitingBody>, branches: seq<Branch>) {
    forall i :: 0 <= i < |bodies| ==> BodySettled(verdict, keys, bodies[i], branches)
  }

  lemma AllSettledAdvances(
    verdict: Key -> Verdict, keys: seq<Key>, more: seq<Key>, bodies: seq<TransitingBody>, branches: seq<Branch>, i: nat)
    requires i < |bodies| && AllSettled(verdict, keys, bodies[..i], branches)
    requires BodySettled(verdict, more, bodies[i], branches)
    ensures AllSettled(verdict, keys + more, bodies[..i + 1], branches)
  {
    var now := bodies[..i + 1];
    forall n | 0 <= n < |now|
      ensures BodySettled(verdict, keys + more, now[n], branches)
    {
      if n < i {
        assert bodies[..i][n] == bodies[n];
        BodySettledGrows(verdict, keys, more, bodies[n], branches);
      } else {
        BodySettledShiftsIn(verdict, keys, more, bodies[i], branches);
      }
    }
  }

  method CheckSpans(options: ScanOptions, request: Request) returns (inRange: bool)
    ensures inRange <==> forall body :: body in options.bodies ==> SpanInRange(options, request, body)
  {
    var i := 0;
    while i < |options.bodies|
      invariant 0 <= i <= |options.bodies|
      invariant forall n :: 0 <= n < i ==> SpanInRange(options, request, options.bodies[n])
    {
      if !SpanInRange(options, request, options.bodies[i]) {
        return false;
      }
      i := i + 1;
    }
    inRange := true;
  }

  /** Every body in turn, up to the first undecided encounter. */
  method ScanBodies(options: ScanOptions, request: Request, ghost verdict: Key -> Verdict, branches: seq<Branch>)
    returns (found: seq<NormalizedCycle>, complete: bool, ghost keys: seq<Key>)
    requires Admitted(options, request) && Judges(verdict, options, request)
    requires branches == BranchList(request.targets, ASPECTS) && DistinctLabels(branches)
    ensures Collected(verdict, keys, found) && DistinctKeys(keys)
    ensures complete ==> FromBodies(keys, options.bodies, branches) && AllSettled(verdict, keys, options.bodies, branches)
    ensures !complete ==> exists key :: InScope(options, request, key) && VerdictOn(options, request, key) == Undecided
  {
    var lift := new LiftChain(options.source, options.liftStep);
    found, keys, complete := [], [], true;
    var i := 0;
    while i < |options.bodies|
      invariant 0 <= i <= |options.bodies|
      invariant lift.Valid() && fresh(lift) && lift.source == options.source && lift.stepOverride == options.liftStep
      invariant Collected(verdict, keys, found) && DistinctKeys(keys) && FromBodies(keys, options.bodies[..i], branches)
      invariant AllSettled(verdict, keys, options.bodies[..i], branches)
    {
      var body := options.bodies[i];
      var cycles, whole; ghost var moreKeys;
      cycles, whole, moreKeys := ScanBody(options, request, verdict, lift, body, branches);
      if !whole {
        UndecidedInScope(verdict, options, request, body, branches);
        complete := false;
        return;
      }
      AllSettledAdvances(verdict, keys, moreKeys, options.bodies, branches, i);
      BodyKeysJoin(keys, moreKeys, options.bodies, branches, i);
      CollectedJoin(verdict, keys, found, moreKeys, cycles);
      found, keys := found + cycles, keys + moreKeys;
      i := i + 1;
    }
    assert options.bodies[..|options.bodies|] == options.bodies;
  }

  /** Run the scan. Every span is checked before any scanning, and one undecided encounter fails
      the whole request. */
  method ScanCycles(options: ScanOptions, request: Request) returns (result: ScanResult, ghost keys: seq<Key>)
    requires Admitted(options, request)
    ensures result == EphemerisRange <==> exists body :: body in options.bodies && !SpanInRange(options, request, body)
    ensures result == WindowIncomplete ==> exists key :: InScope(options, request, key) && VerdictOn(options, request, key) == Undecided
    ensures result.Cycles? ==> Answered(VerdictsUnder(options, request), options, request, keys, result.cycles)
  {
    keys := [];
    var inRange := CheckSpans(options, request);
    if !inRange { return EphemerisRange, keys; }
    ghost var verdict := VerdictsUnder(options, request);
    var branches := BranchList(request.targets, ASPECTS);
    BranchListIsLabelled(request.targets, ASPECTS);
    var found, complete;
    found, complete, keys := ScanBodies(options, request, verdict, branches);
    if !complete { return WindowIncomplete, keys; }
    AnsweredInFull(verdict, options, request, keys, found, branches);
    result := Cycles(SortedCycles(found));
  }

  lemma UndecidedInScope(
    verdict: Key -> Verdict, options: ScanOptions, request: Request, body: TransitingBody, branches: seq<Branch>)
    requires body in options.bodies && branches == BranchList(request.targets, ASPECTS) && Judges(verdict, options, request)
    requires exists branch, w :: branch in branches && verdict(Key(body, branch, w)) == Undecided
    ensures exists key :: InScope(options, request, key) && VerdictOn(options, request, key) == Undecided
  {
    var branch, w :| branch in branches && verdict(Key(body, branch, w)) == Undecided;
    assert JudgesAt(verdict, options, request, Key(body, branch, w));
    assert InScope(options, request, Key(body, branch, w));
  }

  lemma {:induction false} AnsweredInFull(
    verdict: Key -> Verdict, options: ScanOptions, request: Request, keys: seq<Key>, found: seq<NormalizedCycle>, branches: seq<Branch>)
    requires branches == BranchList(request.targets, ASPECTS)
    requires Collected(verdict, keys, found) && DistinctKeys(keys) && FromBodies(keys, options.bodies, branches)
    requires AllSettled(verdict, keys, options.bodies, branches)
    ensures Answered(verdict, options, request, keys, SortedCycles(found))
  {
    forall key | InScope(options, request, key)
      ensures Settled(verdict, keys, key)
    {
      var i :| 0 <= i < |options.bodies| && options.bodies[i] == key.body;
      assert BodySettled(verdict, keys, options.bodies[i], branches);
      var j :| 0 <= j < |branches| && branches[j] == key.branch;
      assert BranchSettled(verdict, keys, key.body, branches[j]);
      assert Settled(verdict, keys, Key(key.body, key.branch, key.winding));
    }
  }
}
