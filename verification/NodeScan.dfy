/** A scan of the true node alone, with the policy's own steps and lookaround, under any motion of the node. */
module NodeScan {
  import opened Optional
  import opened Angles
  import opened Aspects
  import opened CyclePolicy
  import opened Sky
  import opened LiftChain
  import opened Stations
  import opened Scan
  import opened ScanSky
  import opened ScanTheorems

  const NODE := TrueNode

  /** Wider than the node's lift step by as much as a sample can lie outside the files. */
  const REACH := 402.0

  function SourceOf(m: Motion): EphemerisSource {
    EphemerisSource((body, t) => BodyState(Norm360(m.lift(t)), m.speed(t)))
  }

  /** Nothing overridden. */
  function OptionsFor(m: Motion, inputs: IdentityInputs, digest: CycleIdentity -> int): ScanOptions {
    OptionsOver(SourceOf(m), [NODE], inputs, None, None, None, digest)
  }

  lemma NodeRow() returns (row: BodyScanPolicy)
    ensures row == PolicyOf(NODE)
    ensures row.scanStep == 0.25 && row.speedSlope == 2.5 && row.stationSeparation == 0.005 && row.retrogradeArc == 2.0
    ensures row.liftStep == 400.0 && row.lookaround == 250.0
  {
    row := PolicyOf(NODE);
  }

  /** A motion that is as the node's row of the policy describes it. */
  ghost predicate NodeMotion(m: Motion) {
    && 0.0 <= m.lift(EPOCH) < 360.0
    && Smooth(m) && Lipschitz(m.speed, 2.5) && SpacedReversals(m, 0.005)
    && SlowerThanHalfTurn(m, REACH)
    && ExcursionAtMost(m, 2.0)
  }

  /** What a scan over this motion is like. */
  ghost predicate ScansNode(options: ScanOptions, m: Motion) {
    && TracksAnswer(options) && options.bodies == [NODE]
    && options.liftStep == None && options.lookaround == None && options.retrogradeArc == None
    && SkyOf(options, NODE, m, REACH)
  }

  lemma NodeIsScanned(m: Motion, inputs: IdentityInputs, digest: CycleIdentity -> int) returns (options: ScanOptions)
    requires NodeMotion(m)
    ensures options == OptionsFor(m, inputs, digest) && ScansNode(options, m)
  {
    options := OptionsFor(m, inputs, digest);
    var row := NodeRow();
    SkyFromItsParts(options, m, row);
  }

  lemma SkyFromItsParts(options: ScanOptions, m: Motion, row: BodyScanPolicy)
    requires NodeMotion(m) && row == PolicyOf(NODE)
    requires row.speedSlope == 2.5 && row.stationSeparation == 0.005 && row.retrogradeArc == 2.0 && row.liftStep == 400.0
    requires options.source == SourceOf(m) && options.liftStep == None && options.retrogradeArc == None
    ensures SkyOf(options, NODE, m, REACH)
  {
    forall t
      ensures ObservesAt(options.source, NODE, m, t)
    {
    }
  }

  lemma NodeGridAt(options: ScanOptions, m: Motion, index: int)
    requires ScansNode(options, m)
    ensures options.tracks(NODE).grid(index) == EPOCH + 0.25 * (index as real)
  {
    assert GridAt(options.tracks(NODE), index);
  }

  lemma NodeSpeedAt(options: ScanOptions, m: Motion, t: real)
    requires ScansNode(options, m)
    ensures options.tracks(NODE).speed(t) == m.speed(t)
  {
    assert AnswersAt(options.tracks(NODE), options.source, NODE, options.Step(NODE), t);
    assert ObservesAt(options.source, NODE, m, t);
  }

  /** A request whose window lies within three years of the epoch is accepted. */
  lemma NodeRequestIsAccepted(options: ScanOptions, m: Motion, request: Request)
    requires ScansNode(options, m) && EPOCH - 1000.0 <= request.from <= request.to <= EPOCH + 1000.0
    ensures Accepts(options, request, NODE)
  {
    var row := NodeRow();
  }

  /** The grid of a request whose span starts and ends on it. */
  lemma NodeSpanAt(options: ScanOptions, m: Motion, request: Request, first: int, last: int)
    requires ScansNode(options, m)
    requires request.from == EPOCH + 0.25 * (first as real) + 250.0 && request.to == EPOCH + 0.25 * (last as real) - 250.0
    ensures FirstOf(options, request, NODE) == first && LastOf(options, request, NODE) == last
  {
    var row := NodeRow();
    var k := options.tracks(NODE);
    assert SpanAt(k, SpanStart(options, request, NODE)) && SpanAt(k, SpanEnd(options, request, NODE));
    assert (SpanStart(options, request, NODE) - EPOCH) / 0.25 == first as real;
    assert (SpanEnd(options, request, NODE) - EPOCH) / 0.25 == last as real;
  }

  // ----- Keys -----

  function TargetAt(longitude: real): NatalTarget {
    NatalTarget(Moving(Sun), longitude)
  }

  /** The node on a natal longitude. */
  function ConjunctionKey(longitude: real): Key {
    Key(NODE, Branch(TargetAt(longitude), Conjunction, OrientedTarget(Single, longitude)), 0)
  }

  /** The node sixty degrees past a natal longitude. */
  function SextileKey(longitude: real): Key {
    Key(NODE, Branch(TargetAt(longitude), Sextile, OrientedTarget(Plus, longitude + 60.0)), 0)
  }

  lemma ConjunctionKeyIsInScope(options: ScanOptions, request: Request, longitude: real)
    requires options.bodies == [NODE] && request.targets == [TargetAt(longitude)] && 0.0 <= longitude < 360.0
    ensures InScope(options, request, ConjunctionKey(longitude))
    ensures LevelOf(ConjunctionKey(longitude)) == longitude && OrbOf(ConjunctionKey(longitude)) == 3.0
  {
    var key := ConjunctionKey(longitude);
    NormIsItself(longitude);
    MergedExactlyWhenClose(longitude, 0.0);
    assert OrientedTargets(longitude, 0.0) == [OrientedTarget(Single, longitude)];
    assert BranchesOf(TargetAt(longitude), Conjunction)[0] == key.branch;
    BranchListIsLabelled(request.targets, ASPECTS);
  }

  lemma NormIsItself(x: real)
    requires 0.0 <= x < 360.0
    ensures Norm360(x) == x
  {
    SameDirectionIsEquivalence(x, x, x);
    NormIsUnique(x, x);
  }

  lemma SextileKeyIsInScope(options: ScanOptions, request: Request, longitude: real)
    requires options.bodies == [NODE] && request.targets == [TargetAt(longitude)] && 0.0 <= longitude + 60.0 < 360.0
    ensures InScope(options, request, SextileKey(longitude))
    ensures LevelOf(SextileKey(longitude)) == longitude + 60.0 && OrbOf(SextileKey(longitude)) == 1.5
  {
    var key := SextileKey(longitude);
    NormIsItself(longitude + 60.0);
    MergedExactlyWhenClose(longitude, 60.0);
    assert OrientedTargets(longitude, 60.0)[0] == OrientedTarget(Plus, longitude + 60.0);
    assert BranchesOf(TargetAt(longitude), Sextile)[0] == key.branch;
    BranchListIsLabelled(request.targets, ASPECTS);
  }
}
