/** Solving one winding's orb envelope. */
module Envelopes {
  import opened Optional
  import opened Angles
  import opened CyclePolicy
  import opened Sky
  import opened LiftChain
  import opened Stations
  import opened RootScan

  datatype Envelope = Envelope(
    startJd: Option<real>,
    endJd: Option<real>,
    provenLeft: Option<real>,
    provenRight: Option<real>)

  // ----- Sorting by time -----

  function Inserted(roots: seq<Root>, root: Root): seq<Root> {
    if roots == [] then [root]
    else if root.jd < roots[0].jd then [root] + roots
    else [roots[0]] + Inserted(roots[1..], root)
  }

  /** The roots in ascending time, equal times in their original order. */
  function SortedByTime(roots: seq<Root>): seq<Root> {
    if roots == [] then [] else Inserted(SortedByTime(roots[..|roots| - 1]), roots[|roots| - 1])
  }

  ghost predicate InOrder(roots: seq<Root>) {
    forall i, j :: 0 <= i < j < |roots| ==> roots[i].jd <= roots[j].jd
  }

  lemma {:induction false} InsertedContents(roots: seq<Root>, root: Root)
    ensures multiset(Inserted(roots, root)) == multiset(roots) + multiset{root}
  {
    if roots != [] && !(root.jd < roots[0].jd) {
      InsertedContents(roots[1..], root);
      assert roots == [roots[0]] + roots[1..];
    }
  }

  lemma {:induction false} InsertedIsInOrder(roots: seq<Root>, root: Root)
    requires InOrder(roots)
    ensures InOrder(Inserted(roots, root))
    ensures roots != [] && roots[0].jd <= root.jd ==> roots[0].jd <= Inserted(roots, root)[0].jd
    ensures Inserted(roots, root) != []
  {
    if roots != [] && !(root.jd < roots[0].jd) {
      InsertedIsInOrder(roots[1..], root);
      var rest := Inserted(roots[1..], root);
      assert roots[0].jd <= rest[0].jd;
      assert forall j :: 0 < j < |rest| ==> rest[0].jd <= rest[j].jd;
    }
  }

  /** Sorting is a permutation into ascending time. */
  lemma {:induction false} SortingSorts(roots: seq<Root>)
    ensures InOrder(SortedByTime(roots)) && multiset(SortedByTime(roots)) == multiset(roots)
  {
    if roots != [] {
      var init := roots[..|roots| - 1];
      SortingSorts(init);
      InsertedIsInOrder(SortedByTime(init), roots[|roots| - 1]);
      InsertedContents(SortedByTime(init), roots[|roots| - 1]);
      assert roots == init + [roots[|roots| - 1]];
    }
  }

  lemma {:induction false} SortingKeepsTheRoots(roots: seq<Root>)
    ensures |SortedByTime(roots)| == |roots|
    ensures forall r :: r in SortedByTime(roots) <==> r in roots
  {
    SortingSorts(roots);
    assert |multiset(SortedByTime(roots))| == |multiset(roots)|;
    assert forall r :: r in SortedByTime(roots) <==> r in multiset(SortedByTime(roots));
    assert forall r :: r in roots <==> r in multiset(roots);
  }

  // ----- The proven bounds -----

  predicate Beyond(sample: Sample, level: real, beyondReturn: real) {
    beyondReturn < Abs(sample.lift - level)
  }

  /** The last sample before the first pass from which the body cannot have returned. */
  function ProvenLeft(samples: seq<Sample>, level: real, beyondReturn: real, first: real): Option<real> {
    if samples == [] then None
    else
      var sample := samples[|samples| - 1];
      if Beyond(sample, level, beyondReturn) && sample.jd < first then Some(sample.jd)
      else ProvenLeft(samples[..|samples| - 1], level, beyondReturn, first)
  }

  /** The first sample after the last pass from which the body cannot return. */
  function ProvenRight(samples: seq<Sample>, level: real, beyondReturn: real, first: real, last: real): Option<real> {
    if samples == [] then None
    else
      var sample := samples[|samples| - 1];
      var earlier := ProvenRight(samples[..|samples| - 1], level, beyondReturn, first, last);
      if earlier.None? && Beyond(sample, level, beyondReturn) && !(sample.jd < first) && last < sample.jd
      then Some(sample.jd) else earlier
  }

  // ----- Inside or outside the orb -----

  /** The first index whose sample is not before `jd`, or the last index. */
  function LowerBound(samples: seq<Sample>, jd: real): nat
    requires samples != []
    ensures LowerBound(samples, jd) < |samples|
  {
    if |samples| == 1 || jd <= samples[0].jd then 0 else 1 + LowerBound(samples[1..], jd)
  }

  function Nearest(samples: seq<Sample>, jd: real): Sample
    requires samples != []
  {
    var at := LowerBound(samples, jd);
    if 0 < at && Abs(samples[at - 1].jd - jd) < Abs(samples[at].jd - jd) then samples[at - 1] else samples[at]
  }

  predicate InsideOrb(lon: real -> real, samples: seq<Sample>, jd: real, level: real, orbDeg: real)
    requires samples != []
  {
    Abs(LiftedFrom(Nearest(samples, jd), lon(jd)) - level) <= orbDeg
  }

  lemma {:induction false} LowerBoundSeparates(samples: seq<Sample>, jd: real)
    requires samples != []
    ensures forall i :: 0 <= i < LowerBound(samples, jd) ==> samples[i].jd < jd
    ensures jd <= samples[LowerBound(samples, jd)].jd || LowerBound(samples, jd) == |samples| - 1
  {
    if |samples| > 1 && samples[0].jd < jd {
      LowerBoundSeparates(samples[1..], jd);
    }
  }

  /** In ascending samples the sample chosen is a nearest one. */
  lemma NearestIsNearest(samples: seq<Sample>, jd: real, i: int)
    requires samples != [] && Ascending(samples) && 0 <= i < |samples|
    ensures Nearest(samples, jd) in samples
    ensures Abs(Nearest(samples, jd).jd - jd) <= Abs(samples[i].jd - jd)
  {
    LowerBoundSeparates(samples, jd);
    var at := LowerBound(samples, jd);
    assert i < at - 1 ==> samples[i].jd < samples[at - 1].jd;
    assert at < i ==> samples[at].jd < samples[i].jd;
  }

  // ----- Entries and exits -----

  datatype Turning = Entry | Exit | Touch

  function TurningOf(before: bool, after: bool): Turning {
    if !before && after then Entry else if before && !after then Exit else Touch
  }

  /** What the inside-orb predicate on both sides makes of a boundary. */
  function TurningAt(lon: real -> real, samples: seq<Sample>, jd: real, level: real, orbDeg: real): Turning
    requires samples != []
  {
    TurningOf(InsideOrb(lon, samples, jd - BOUNDARY_PROBE, level, orbDeg),
              InsideOrb(lon, samples, jd + BOUNDARY_PROBE, level, orbDeg))
  }

  /** The times in `[lo, hi]` of the boundaries that turn as asked. */
  function Classified(
    lon: real -> real, samples: seq<Sample>, boundaries: seq<Root>, level: real, orbDeg: real,
    turning: Turning, lo: real, hi: real): seq<real>
    requires samples != []
  {
    if boundaries == [] then []
    else
      var jd := boundaries[|boundaries| - 1].jd;
      Classified(lon, samples, boundaries[..|boundaries| - 1], level, orbDeg, turning, lo, hi)
      + (if TurningAt(lon, samples, jd, level, orbDeg) == turning && lo <= jd <= hi then [jd] else [])
  }

  lemma {:induction false} ClassifiedGrows(
    lon: real -> real, samples: seq<Sample>, boundaries: seq<Root>, i: nat, level: real, orbDeg: real,
    turning: Turning, lo: real, hi: real)
    requires samples != [] && i < |boundaries|
    ensures Classified(lon, samples, boundaries[..i + 1], level, orbDeg, turning, lo, hi)
         == Classified(lon, samples, boundaries[..i], level, orbDeg, turning, lo, hi)
          + (if TurningAt(lon, samples, boundaries[i].jd, level, orbDeg) == turning && lo <= boundaries[i].jd <= hi
             then [boundaries[i].jd] else [])
  {
    assert boundaries[..i + 1][..i] == boundaries[..i];
  }

  function Least(times: seq<real>): Option<real> {
    if times == [] then None
    else match Least(times[..|times| - 1])
      case None => Some(times[|times| - 1])
      case Some(t) => Some(Min(t, times[|times| - 1]))
  }

  function Greatest(times: seq<real>): Option<real> {
    if times == [] then None
    else match Greatest(times[..|times| - 1])
      case None => Some(times[|times| - 1])
      case Some(t) => Some(Max(t, times[|times| - 1]))
  }

  function EnvelopeOf(
    lon: real -> real, samples: seq<Sample>, levels: LevelRoots, level: real, orbDeg: real, arcDeg: real): Envelope
    requires levels.exact != []
  {
    SortingKeepsTheRoots(levels.exact);
    var passes := SortedByTime(levels.exact);
    var first, last := passes[0].jd, passes[|passes| - 1].jd;
    var left := ProvenLeft(samples, level, orbDeg + arcDeg, first);
    var right := ProvenRight(samples, level, orbDeg + arcDeg, first, last);
    if left.None? || right.None? then Envelope(None, None, left, right)
    else
      assert samples != [];
      var boundaries := SortedByTime(levels.lower + levels.upper);
      Envelope(
        Least(Classified(lon, samples, boundaries, level, orbDeg, Entry, left.value, first)),
        Greatest(Classified(lon, samples, boundaries, level, orbDeg, Exit, last, right.value)),
        left, right)
  }

  // ----- The code -----

  /** Binary search: the samples ascend. */
  method NearestSample(samples: seq<Sample>, jd: real) returns (sample: Sample)
    requires samples != [] && Ascending(samples)
    ensures sample == Nearest(samples, jd)
  {
    var lo, hi := 0, |samples| - 1;
    while lo < hi
      invariant 0 <= lo <= hi < |samples|
      invariant forall i :: 0 <= i < lo ==> samples[i].jd < jd
      invariant hi < |samples| - 1 ==> jd <= samples[hi].jd
    {
      var mid := (lo + hi) / 2;
      if samples[mid].jd < jd {
        assert forall i :: 0 <= i < mid ==> samples[i].jd < samples[mid].jd;
        lo := mid + 1;
      } else {
        hi := mid;
      }
    }
    LowerBoundSeparates(samples, jd);
    if 0 < lo && Abs(samples[lo - 1].jd - jd) < Abs(samples[lo].jd - jd) {
      return samples[lo - 1];
    }
    sample := samples[lo];
  }

  method IsInsideOrb(
    source: EphemerisSource, body: TransitingBody, ghost k: Track, ghost liftStep: real,
    samples: seq<Sample>, jd: real, level: real, orbDeg: real)
    returns (inside: bool)
    requires Answers(k, source, body, liftStep) && samples != [] && Ascending(samples)
    ensures inside == InsideOrb(k.lon, samples, jd, level, orbDeg)
  {
    var anchor := NearestSample(samples, jd);
    assert AnswersAt(k, source, body, liftStep, jd);
    inside := Abs(LiftedFrom(anchor, source.stateAt(body, jd).lon) - level) <= orbDeg;
  }

  method ProvenBounds(samples: seq<Sample>, level: real, beyondReturn: real, first: real, last: real)
    returns (left: Option<real>, right: Option<real>)
    ensures left == ProvenLeft(samples, level, beyondReturn, first)
    ensures right == ProvenRight(samples, level, beyondReturn, first, last)
  {
    left, right := None, None;
    var i := 0;
    while i < |samples|
      invariant 0 <= i <= |samples|
      invariant left == ProvenLeft(samples[..i], level, beyondReturn, first)
      invariant right == ProvenRight(samples[..i], level, beyondReturn, first, last)
    {
      var sample := samples[i];
      assert samples[..i + 1][..i] == samples[..i];
      if Abs(sample.lift - level) > beyondReturn {
        if sample.jd < first {
          left := Some(sample.jd);
        } else if sample.jd > last && right.None? {
          right := Some(sample.jd);
        }
      }
      i := i + 1;
    }
    assert samples[..|samples|] == samples;
  }

  /** A tangent touch that leaves the predicate unchanged is neither an entry nor an exit. */
  method ClassifyBoundary(
    source: EphemerisSource, body: TransitingBody, ghost k: Track, ghost liftStep: real,
    samples: seq<Sample>, jd: real, level: real, orbDeg: real)
    returns (turning: Turning)
    requires Answers(k, source, body, liftStep) && samples != [] && Ascending(samples)
    ensures turning == TurningAt(k.lon, samples, jd, level, orbDeg)
  {
    var before := IsInsideOrb(source, body, k, liftStep, samples, jd - BOUNDARY_PROBE, level, orbDeg);
    var after := IsInsideOrb(source, body, k, liftStep, samples, jd + BOUNDARY_PROBE, level, orbDeg);
    turning := TurningOf(before, after);
  }

  method ClassifyBoundaries(
    source: EphemerisSource, body: TransitingBody, ghost k: Track, ghost liftStep: real,
    samples: seq<Sample>, boundaries: seq<Root>, level: real, orbDeg: real,
    left: real, first: real, last: real, right: real)
    returns (entries: seq<real>, exits: seq<real>)
    requires Answers(k, source, body, liftStep) && samples != [] && Ascending(samples)
    ensures entries == Classified(k.lon, samples, boundaries, level, orbDeg, Entry, left, first)
    ensures exits == Classified(k.lon, samples, boundaries, level, orbDeg, Exit, last, right)
  {
    entries, exits := [], [];
    var i := 0;
    while i < |boundaries|
      invariant 0 <= i <= |boundaries|
      invariant entries == Classified(k.lon, samples, boundaries[..i], level, orbDeg, Entry, left, first)
      invariant exits == Classified(k.lon, samples, boundaries[..i], level, orbDeg, Exit, last, right)
    {
      var jd := boundaries[i].jd;
      ClassifiedGrows(k.lon, samples, boundaries, i, level, orbDeg, Entry, left, first);
      ClassifiedGrows(k.lon, samples, boundaries, i, level, orbDeg, Exit, last, right);
      var turning := ClassifyBoundary(source, body, k, liftStep, samples, jd, level, orbDeg);
      if turning == Entry {
        if left <= jd <= first { entries := entries + [jd]; }
      } else if turning == Exit {
        if last <= jd <= right { exits := exits + [jd]; }
      }
      i := i + 1;
    }
    assert boundaries[..|boundaries|] == boundaries;
  }

  method SolveEnvelope(
    source: EphemerisSource, body: TransitingBody, ghost k: Track, ghost liftStep: real,
    samples: seq<Sample>, levels: LevelRoots, level: real, orbDeg: real, arcDeg: real)
    returns (envelope: Envelope)
    requires Answers(k, source, body, liftStep) && Ascending(samples) && levels.exact != []
    ensures envelope == EnvelopeOf(k.lon, samples, levels, level, orbDeg, arcDeg)
  {
    SortingKeepsTheRoots(levels.exact);
    var passes := SortedByTime(levels.exact);
    var first, last := passes[0].jd, passes[|passes| - 1].jd;
    var left, right := ProvenBounds(samples, level, orbDeg + arcDeg, first, last);
    if left.None? || right.None? {
      return Envelope(None, None, left, right);
    }
    assert samples != [];
    var boundaries := SortedByTime(levels.lower + levels.upper);
    var entries, exits := ClassifyBoundaries(source, body, k, liftStep, samples, boundaries, level, orbDeg,
                                             left.value, first, last, right.value);
    envelope := Envelope(Least(entries), Greatest(exits), left, right);
  }
}
