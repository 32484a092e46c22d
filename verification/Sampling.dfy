/** Sampling a span: the epoch-anchored grid with every refined station spliced in. */
module Sampling {
  import opened Optional
  import opened Angles
  import opened CyclePolicy
  import opened Sky
  import opened LiftChain
  import opened Stations

  // ----- The list -----

  /** The direction of the first grid sample from `i` on that moves at all. */
  function Following(k: Track, i: int, last: int): Option<PassDirection>
    decreases last - i
  {
    if last < i then None
    else if k.speed(k.grid(i)) != 0.0 then Some(if k.speed(k.grid(i)) > 0.0 then Direct else Retrograde)
    else Following(k, i + 1, last)
  }

  function GridSample(k: Track, i: int): Sample {
    k.Take(k.grid(i), false)
  }

  /** A grid sample that lands exactly on zero speed is itself the station. */
  function Marked(k: Track, i: int, last: int): Sample {
    if k.speed(k.grid(i)) == 0.0 then
      GridSample(k, i).(station := true, direction := Following(k, i + 1, last))
    else GridSample(k, i)
  }

  /** The stations between grid indices `i` and `i + 1`. */
  function Gap(k: Track, i: int): seq<Sample> {
    k.Spliced(GridSample(k, i), GridSample(k, i + 1), k.probeDepth)
  }

  /** What one grid index contributes: its own sample and the stations up to the next one. */
  function Piece(k: Track, i: int, last: int): seq<Sample> {
    [Marked(k, i, last)]
    + (if i < last && k.speed(k.grid(i)) != 0.0 && k.speed(k.grid(i + 1)) != 0.0 then Gap(k, i) else [])
  }

  /** The samples from grid index `first` to grid index `last`. */
  function Samples(k: Track, first: int, last: int): seq<Sample>
    decreases last - first
  {
    if last < first then []
    else Piece(k, first, last) + Samples(k, first + 1, last)
  }

  // ----- The code that builds it -----

  method TakeSample(lift: LiftChain, body: TransitingBody, ghost k: Track, jd: real, station: bool)
    returns (sample: Sample)
    requires lift.Valid() && Answers(k, lift.source, body, lift.Step(body))
    modifies lift
    ensures lift.Valid()
    ensures sample == k.Take(jd, station)
  {
    assert AnswersAt(k, lift.source, body, lift.Step(body), jd);
    var state := lift.source.stateAt(body, jd);
    var lifted := lift.LiftedLongitude(body, jd, state.lon);
    sample := Sample(jd, state.lon, state.speed, lifted, station, None);
  }

  /** Refine one speed-sign change to an instant. */
  method RefineStation(
    source: EphemerisSource, body: TransitingBody, ghost k: Track, ghost liftStep: real, loJd: real, loSpeed: real, hiJd: real)
    returns (jd: real)
    requires Answers(k, source, body, liftStep)
    ensures jd == k.Refined(loJd, hiJd, Sign(loSpeed))
  {
    var lo, hi, sign := loJd, hiJd, Sign(loSpeed);
    while hi - lo > STATION_TIME_TOLERANCE
      invariant k.Refined(lo, hi, sign) == k.Refined(loJd, hiJd, Sign(loSpeed))
      decreases Seconds(hi - lo)
    {
      var mid := (lo + hi) / 2.0;
      var midSpeed := source.stateAt(body, mid).speed;
      assert AnswersAt(k, source, body, liftStep, mid);
      if midSpeed == 0.0 { return mid; }
      if Sign(midSpeed) == sign {
        lo := mid;
        sign := Sign(midSpeed);
      } else {
        hi := mid;
      }
    }
    jd := (lo + hi) / 2.0;
  }

  method TooSlowToRuleOut(policy: BodyScanPolicy, ghost k: Track, a: Sample, b: Sample) returns (couldHoldZero: bool)
    requires k.policy == policy && ShedsAt(k, b.jd - a.jd)
    ensures couldHoldZero == k.CouldHoldZero(a, b)
  {
    couldHoldZero := Min(Abs(a.speed), Abs(b.speed)) <= policy.speedSlope * (b.jd - a.jd) / 2.0;
  }

  method StationAt(
    lift: LiftChain, body: TransitingBody, ghost k: Track, a: Sample, b: Sample)
    returns (station: Sample)
    requires lift.Valid() && Answers(k, lift.source, body, lift.Step(body))
    modifies lift
    ensures lift.Valid()
    ensures station == k.StationBetween(a, b)
  {
    var at := RefineStation(lift.source, body, k, lift.Step(body), a.jd, a.speed, b.jd);
    station := TakeSample(lift, body, k, at, true);
    station := station.(direction := Some(if b.speed > 0.0 then Direct else Retrograde));
  }

  /** An interval too narrow for two stations: one sign change, one station. */
  method SpliceNarrow(lift: LiftChain, body: TransitingBody, ghost k: Track, a: Sample, b: Sample, sameSign: bool)
    returns (found: seq<Sample>)
    requires lift.Valid() && Answers(k, lift.source, body, lift.Step(body)) && sameSign == k.SameSign(a, b)
    modifies lift
    ensures lift.Valid()
    ensures found == if k.SameSign(a, b) then [] else [k.StationBetween(a, b)]
  {
    if sameSign { return []; }
    var station := StationAt(lift, body, k, a, b);
    found := [station];
  }

  /** Every station between `a` and `b`, in ascending order. */
  method SpliceStations(
    lift: LiftChain, body: TransitingBody, policy: BodyScanPolicy, ghost k: Track, a: Sample, b: Sample, depth: nat)
    returns (found: seq<Sample>)
    requires lift.Valid() && Answers(k, lift.source, body, lift.Step(body)) && k.policy == policy
    modifies lift
    ensures lift.Valid()
    ensures found == k.Spliced(a, b, depth)
    decreases depth, 1
  {
    var width := b.jd - a.jd;
    if width <= STATION_TIME_TOLERANCE { return []; }
    var sameSign := Sign(a.speed) == Sign(b.speed);
    var couldHoldZero := TooSlowToRuleOut(policy, k, a, b);
    if sameSign && !couldHoldZero { return []; }
    if depth == 0 || width <= policy.stationSeparation {
      found := SpliceNarrow(lift, body, k, a, b, sameSign);
      return;
    }
    found := SpliceHalves(lift, body, policy, k, a, b, depth);
  }

  /** The stations on either side of the midpoint. */
  method SpliceHalves(
    lift: LiftChain, body: TransitingBody, policy: BodyScanPolicy, ghost k: Track, a: Sample, b: Sample, depth: nat)
    returns (found: seq<Sample>)
    requires lift.Valid() && Answers(k, lift.source, body, lift.Step(body)) && k.policy == policy
    requires !k.Closed(a, b) && 0 < depth && k.policy.stationSeparation < b.jd - a.jd
    modifies lift
    ensures lift.Valid()
    ensures found == k.Spliced(a, b, depth)
    decreases depth, 0
  {
    var mid := TakeSample(lift, body, k, (a.jd + b.jd) / 2.0, false);
    HalvesJoin(k, a, mid, b, depth);
    var left := SpliceStations(lift, body, policy, k, a, mid, depth - 1);
    var right := SpliceStations(lift, body, policy, k, mid, b, depth - 1);
    found := left + right;
  }

  lemma HalvesJoin(k: Track, a: Sample, mid: Sample, b: Sample, depth: nat)
    requires !k.Closed(a, b) && 0 < depth && k.policy.stationSeparation < b.jd - a.jd && mid == k.Middle(a, b)
    ensures k.Spliced(a, mid, depth - 1) + k.Spliced(mid, b, depth - 1) == k.Spliced(a, b, depth)
  {
  }

  /** The direction a body standing still on a grid sample leaves in, when a later one moves. */
  method DirectionAfter(grid: seq<Sample>, start: nat, ghost k: Track, ghost first: int)
    returns (direction: Option<PassDirection>)
    requires start <= |grid|
    requires forall j :: 0 <= j < |grid| ==> grid[j] == GridSample(k, first + j)
    ensures direction == Following(k, first + start, first + |grid| - 1)
  {
    var j := start;
    while j < |grid|
      invariant start <= j <= |grid|
      invariant Following(k, first + j, first + |grid| - 1) == Following(k, first + start, first + |grid| - 1)
    {
      if grid[j].speed != 0.0 {
        return Some(if grid[j].speed > 0.0 then Direct else Retrograde);
      }
      j := j + 1;
    }
    direction := None;
  }

  method GridOf(lift: LiftChain, body: TransitingBody, policy: BodyScanPolicy, ghost k: Track, first: int, last: int)
    returns (grid: seq<Sample>)
    requires lift.Valid() && Answers(k, lift.source, body, lift.Step(body)) && k.policy == policy
    modifies lift
    ensures lift.Valid()
    ensures |grid| == if last < first then 0 else last - first + 1
    ensures forall j :: 0 <= j < |grid| ==> grid[j] == GridSample(k, first + j)
  {
    grid := [];
    var i := first;
    while i <= last
      invariant lift.Valid()
      invariant |grid| == i - first && (i <= last + 1 || i == first)
      invariant forall j :: 0 <= j < |grid| ==> grid[j] == GridSample(k, first + j)
      decreases last - i
    {
      assert GridAt(k, i);
      var sample := TakeSample(lift, body, k, Instant(policy.scanStep, i), false);
      grid := grid + [sample];
      i := i + 1;
    }
  }

  /** Sample the body across the span, then splice in every refined station. */
  method SampleBody(
    lift: LiftChain, body: TransitingBody, policy: BodyScanPolicy, ghost k: Track, spanStart: real, spanEnd: real)
    returns (samples: seq<Sample>)
    requires lift.Valid() && Answers(k, lift.source, body, lift.Step(body)) && k.policy == policy
    modifies lift
    ensures lift.Valid()
    ensures samples == Samples(k, k.gridBelow(spanStart), k.gridAbove(spanEnd))
  {
    assert SpanAt(k, spanStart) && SpanAt(k, spanEnd);
    var first := FirstIndex(policy, spanStart);
    var last := LastIndex(policy, spanEnd);
    samples := SampleIndices(lift, body, policy, k, first, last);
  }

  method SampleIndices(
    lift: LiftChain, body: TransitingBody, policy: BodyScanPolicy, ghost k: Track, first: int, last: int)
    returns (samples: seq<Sample>)
    requires lift.Valid() && Answers(k, lift.source, body, lift.Step(body)) && k.policy == policy
    modifies lift
    ensures lift.Valid()
    ensures samples == Samples(k, first, last)
  {
    var grid := GridOf(lift, body, policy, k, first, last);
    samples := [];
    var i := 0;
    while i < |grid|
      invariant 0 <= i <= |grid|
      invariant lift.Valid()
      invariant samples == Pieces(k, first, i, last)
    {
      var piece := PieceAt(lift, body, policy, k, grid, i, first, last);
      PiecesAdvance(k, first, i, last, samples, piece);
      samples := samples + piece;
      i := i + 1;
    }
    PiecesMakeTheSamples(k, first, last, |grid|);
  }

  /** What the first `n` grid indices contribute. */
  function Pieces(k: Track, first: int, n: nat, last: int): seq<Sample> {
    if n == 0 then [] else Pieces(k, first, n - 1, last) + Piece(k, first + n - 1, last)
  }

  lemma PiecesAdvance(k: Track, first: int, n: nat, last: int, samples: seq<Sample>, piece: seq<Sample>)
    requires samples == Pieces(k, first, n, last) && piece == Piece(k, first + n, last)
    ensures samples + piece == Pieces(k, first, n + 1, last)
  {
  }

  lemma {:induction false} PiecesShift(k: Track, first: int, n: nat, last: int)
    ensures Pieces(k, first, n + 1, last) == Piece(k, first, last) + Pieces(k, first + 1, n, last)
  {
    if n > 0 {
      PiecesShift(k, first, n - 1, last);
    }
  }

  lemma {:induction false} PiecesMakeTheSamples(k: Track, first: int, last: int, n: nat)
    requires n == if last < first then 0 else last - first + 1
    ensures Pieces(k, first, n, last) == Samples(k, first, last)
    decreases n
  {
    if n > 0 {
      PiecesShift(k, first, n - 1, last);
      PiecesMakeTheSamples(k, first + 1, last, n - 1);
    }
  }

  method PieceAt(
    lift: LiftChain, body: TransitingBody, policy: BodyScanPolicy, ghost k: Track,
    grid: seq<Sample>, i: nat, ghost first: int, ghost last: int)
    returns (piece: seq<Sample>)
    requires lift.Valid() && Answers(k, lift.source, body, lift.Step(body))
    requires k.policy == policy && i < |grid| && |grid| == last - first + 1
    requires forall j :: 0 <= j < |grid| ==> grid[j] == GridSample(k, first + j)
    modifies lift
    ensures lift.Valid()
    ensures piece == Piece(k, first + i, last)
  {
    var next := if i + 1 < |grid| then Some(grid[i + 1]) else None;
    var direction := None;
    if grid[i].speed == 0.0 {
      direction := DirectionAfter(grid, i + 1, k, first);
    }
    piece := PieceFrom(lift, body, policy, k, grid[i], next, direction, first + i, last, MAX_STATION_PROBE_DEPTH);
  }

  method PieceFrom(
    lift: LiftChain, body: TransitingBody, policy: BodyScanPolicy, ghost k: Track,
    current: Sample, next: Option<Sample>, direction: Option<PassDirection>, ghost i: int, ghost last: int, depth: nat)
    returns (piece: seq<Sample>)
    requires lift.Valid() && Answers(k, lift.source, body, lift.Step(body))
    requires k.policy == policy && depth == k.probeDepth && i <= last
    requires current == GridSample(k, i)
    requires next == if i < last then Some(GridSample(k, i + 1)) else None
    requires current.speed == 0.0 ==> direction == Following(k, i + 1, last)
    modifies lift
    ensures lift.Valid()
    ensures piece == Piece(k, i, last)
  {
    if current.speed == 0.0 {
      return [current.(station := true, direction := direction)];
    }
    if next.None? || next.value.speed == 0.0 {
      return [current];
    }
    var found := SpliceStations(lift, body, policy, k, current, next.value, depth);
    piece := [current] + found;
  }
}
