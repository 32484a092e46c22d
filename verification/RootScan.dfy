/** Root finding: three level families solved in one pass over the samples, keyed by winding. */
module RootScan {
  import opened Optional
  import opened Angles
  import opened CyclePolicy
  import opened Sky
  import opened LiftChain
  import opened Stations

  datatype Root = Root(jd: real, speed: real, direction: Option<PassDirection>)

  datatype LevelKind = Exact | Lower | Upper

  datatype LevelRoots = LevelRoots(exact: seq<Root>, lower: seq<Root>, upper: seq<Root>) {
    function Of(kind: LevelKind): seq<Root> {
      match kind
      case Exact => exact
      case Lower => lower
      case Upper => upper
    }

    function With(kind: LevelKind, roots: seq<Root>): LevelRoots {
      match kind
      case Exact => this.(exact := roots)
      case Lower => this.(lower := roots)
      case Upper => this.(upper := roots)
    }
  }

  const NO_ROOTS := LevelRoots([], [], [])

  function Base(kind: LevelKind, targetDeg: real, orbDeg: real): real {
    match kind
    case Exact => targetDeg
    case Lower => targetDeg - orbDeg
    case Upper => targetDeg + orbDeg
  }

  function Bucket(byWinding: map<int, LevelRoots>, w: int, kind: LevelKind): seq<Root> {
    if w in byWinding then byWinding[w].Of(kind) else []
  }

  /** The lift of a longitude, measured from one fixed sample. */
  function LiftedFrom(anchor: Sample, lon: real): real {
    anchor.lift + Wrap180(lon - anchor.lon)
  }

  predicate SamePhysicalEvent(a: Root, b: Root) {
    Abs(a.jd - b.jd) <= ROOT_DEDUPE_TOLERANCE
  }

  /** A root too close to a recorded one is the same event seen from another bracket. */
  function Pushed(into: seq<Root>, root: Root): seq<Root> {
    if exists r :: r in into && SamePhysicalEvent(r, root) then into else into + [root]
  }

  function PushedAll(into: seq<Root>, events: seq<Root>): seq<Root>
    decreases |events|
  {
    if events == [] then into else PushedAll(Pushed(into, events[0]), events[1..])
  }

  // ----- What one sample and the bracket after it contribute -----

  function NearestWinding(lift: real, base: real): int {
    Round((lift - base) / 360.0)
  }

  function Level(base: real, w: int): real {
    base + 360.0 * (w as real)
  }

  predicate OnLevel(lift: real, level: real) {
    Abs(lift - level) <= ANGULAR_ZERO_TOLERANCE
  }

  function SampleRoot(sample: Sample): Root {
    Root(sample.jd, sample.speed, if sample.station then sample.direction else None)
  }

  function LowestWinding(lift: real, liftNext: real, base: real): int {
    Ceil(Min((lift - base) / 360.0, (liftNext - base) / 360.0))
  }

  function HighestWinding(lift: real, liftNext: real, base: real): int {
    Max((lift - base) / 360.0, (liftNext - base) / 360.0).Floor
  }

  /** The bracket changes sides of the level, and neither end counts as being on it. */
  predicate ChangesSides(lift: real, liftNext: real, level: real) {
    && !OnLevel(lift, level)
    && !OnLevel(liftNext, level)
    && Sign(lift - level) != Sign(liftNext - level)
  }

  function Bisected(lon: real -> real, anchor: Sample, lo: real, hi: real, level: real, sign: int): real
    decreases Seconds(hi - lo)
  {
    if hi - lo <= ROOT_TIME_TOLERANCE then (lo + hi) / 2.0
    else
      var mid := (lo + hi) / 2.0;
      var f := LiftedFrom(anchor, lon(mid)) - level;
      if f == 0.0 then mid
      else if Sign(f) == sign then Bisected(lon, anchor, mid, hi, level, sign)
      else Bisected(lon, anchor, lo, mid, level, sign)
  }

  function BracketRoot(k: Track, anchor: Sample, next: Sample, level: real): Root {
    var jd := Bisected(k.lon, anchor, anchor.jd, next.jd, level, Sign(anchor.lift - level));
    Root(jd, k.speed(jd), None)
  }

  function OnSample(sample: Sample, base: real, w: int): seq<Root> {
    if w == NearestWinding(sample.lift, base) && OnLevel(sample.lift, Level(base, w))
    then [SampleRoot(sample)] else []
  }

  function InBracket(k: Track, anchor: Sample, next: Sample, base: real, w: int): seq<Root> {
    var liftNext := LiftedFrom(anchor, next.lon);
    if && LowestWinding(anchor.lift, liftNext, base) <= w <= HighestWinding(anchor.lift, liftNext, base)
       && ChangesSides(anchor.lift, liftNext, Level(base, w))
    then [BracketRoot(k, anchor, next, Level(base, w))] else []
  }

  function EventsAt(k: Track, samples: seq<Sample>, i: nat, base: real, w: int): seq<Root>
    requires i < |samples|
  {
    OnSample(samples[i], base, w)
    + (if i + 1 < |samples| then InBracket(k, samples[i], samples[i + 1], base, w) else [])
  }

  /** Everything the first `n` samples contribute to one winding of one family, in scan order. */
  function Events(k: Track, samples: seq<Sample>, n: nat, base: real, w: int): seq<Root>
    requires n <= |samples|
  {
    if n == 0 then [] else Events(k, samples, n - 1, base, w) + EventsAt(k, samples, n - 1, base, w)
  }

  /** The roots recorded for one winding of one family. */
  function Recorded(k: Track, samples: seq<Sample>, base: real, w: int): seq<Root> {
    PushedAll([], Events(k, samples, |samples|, base, w))
  }

  lemma {:induction false} PushedAllJoin(into: seq<Root>, a: seq<Root>, b: seq<Root>)
    ensures PushedAll(into, a + b) == PushedAll(PushedAll(into, a), b)
    decreases |a|
  {
    if a == [] {
      assert a + b == b;
    } else {
      assert (a + b)[1..] == a[1..] + b;
      PushedAllJoin(Pushed(into, a[0]), a[1..], b);
    }
  }

  // ----- The scan -----

  /** The buckets of one family took in exactly what sample `i` and the bracket after it contribute. */
  ghost predicate Grew(
    before: map<int, LevelRoots>, after: map<int, LevelRoots>,
    k: Track, samples: seq<Sample>, i: nat, kind: LevelKind, base: real)
    requires i < |samples|
  {
    forall w :: Bucket(after, w, kind) == PushedAll(Bucket(before, w, kind), EventsAt(k, samples, i, base, w))
  }

  ghost predicate Kept(before: map<int, LevelRoots>, after: map<int, LevelRoots>, kind: LevelKind) {
    forall w :: Bucket(after, w, kind) == Bucket(before, w, kind)
  }

  method PushRoot(into: seq<Root>, root: Root) returns (roots: seq<Root>)
    ensures roots == Pushed(into, root)
  {
    var i := 0;
    while i < |into|
      invariant 0 <= i <= |into|
      invariant forall j :: 0 <= j < i ==> !SamePhysicalEvent(into[j], root)
    {
      if Abs(into[i].jd - root.jd) <= ROOT_DEDUPE_TOLERANCE {
        assert into[i] in into && SamePhysicalEvent(into[i], root);
        return into;
      }
      i := i + 1;
    }
    roots := into + [root];
  }

  method PushInto(byWinding: map<int, LevelRoots>, w: int, kind: LevelKind, root: Root)
    returns (grown: map<int, LevelRoots>)
    ensures grown.Keys == byWinding.Keys + {w}
    ensures Bucket(grown, w, kind) == Pushed(Bucket(byWinding, w, kind), root)
    ensures forall v, other :: v != w || other != kind ==> Bucket(grown, v, other) == Bucket(byWinding, v, other)
  {
    var entry := if w in byWinding then byWinding[w] else NO_ROOTS;
    var roots := PushRoot(entry.Of(kind), root);
    grown := byWinding[w := entry.With(kind, roots)];
  }

  method BisectRoot(
    source: EphemerisSource, body: TransitingBody, ghost k: Track, ghost liftStep: real,
    anchor: Sample, hiJd: real, level: real, loSign: int)
    returns (jd: real)
    requires Answers(k, source, body, liftStep)
    ensures jd == Bisected(k.lon, anchor, anchor.jd, hiJd, level, loSign)
  {
    var lo, hi, sign := anchor.jd, hiJd, loSign;
    while hi - lo > ROOT_TIME_TOLERANCE
      invariant Bisected(k.lon, anchor, lo, hi, level, sign) == Bisected(k.lon, anchor, anchor.jd, hiJd, level, loSign)
      decreases Seconds(hi - lo)
    {
      var mid := (lo + hi) / 2.0;
      assert AnswersAt(k, source, body, liftStep, mid);
      var f := LiftedFrom(anchor, source.stateAt(body, mid).lon) - level;
      if f == 0.0 { return mid; }
      if Sign(f) == sign {
        lo := mid;
        sign := Sign(f);
      } else {
        hi := mid;
      }
    }
    jd := (lo + hi) / 2.0;
  }

  /** Every winding of one family, at one sample and the bracket that follows it. */
  method ScanFamily(
    source: EphemerisSource, body: TransitingBody, ghost k: Track, ghost liftStep: real,
    samples: seq<Sample>, i: nat, kind: LevelKind, base: real, byWinding: map<int, LevelRoots>)
    returns (grown: map<int, LevelRoots>)
    requires Answers(k, source, body, liftStep) && i < |samples|
    ensures Grew(byWinding, grown, k, samples, i, kind, base)
    ensures forall other :: other != kind ==> Kept(byWinding, grown, other)
  {
    grown := byWinding;
    var anchor := samples[i];
    var nearest := NearestWinding(anchor.lift, base);
    if OnLevel(anchor.lift, Level(base, nearest)) {
      grown := PushInto(grown, nearest, kind, SampleRoot(anchor));
    }
    assert forall w :: Bucket(grown, w, kind) == PushedAll(Bucket(byWinding, w, kind), OnSample(anchor, base, w));
    if i + 1 < |samples| {
      grown := ScanBracket(source, body, k, liftStep, anchor, samples[i + 1], kind, base, grown);
      forall w
        ensures Bucket(grown, w, kind) == PushedAll(Bucket(byWinding, w, kind), EventsAt(k, samples, i, base, w))
      {
        PushedAllJoin(Bucket(byWinding, w, kind), OnSample(anchor, base, w), InBracket(k, anchor, samples[i + 1], base, w));
      }
    } else {
      forall w
        ensures EventsAt(k, samples, i, base, w) == OnSample(anchor, base, w)
      {
      }
    }
  }

  method ScanBracket(
    source: EphemerisSource, body: TransitingBody, ghost k: Track, ghost liftStep: real,
    anchor: Sample, next: Sample, kind: LevelKind, base: real, byWinding: map<int, LevelRoots>)
    returns (grown: map<int, LevelRoots>)
    requires Answers(k, source, body, liftStep)
    ensures forall w :: Bucket(grown, w, kind) == PushedAll(Bucket(byWinding, w, kind), InBracket(k, anchor, next, base, w))
    ensures forall w, other :: other != kind ==> Bucket(grown, w, other) == Bucket(byWinding, w, other)
  {
    grown := byWinding;
    var liftNext := LiftedFrom(anchor, next.lon);
    var w := LowestWinding(anchor.lift, liftNext, base);
    var highest := HighestWinding(anchor.lift, liftNext, base);
    ghost var lowest := w;
    while w <= highest
      invariant lowest <= w
      invariant forall v :: v < w ==> Bucket(grown, v, kind) == PushedAll(Bucket(byWinding, v, kind), InBracket(k, anchor, next, base, v))
      invariant forall v :: w <= v ==> Bucket(grown, v, kind) == Bucket(byWinding, v, kind)
      invariant forall v, other :: other != kind ==> Bucket(grown, v, other) == Bucket(byWinding, v, other)
      decreases highest - w
    {
      var level := Level(base, w);
      var fA := anchor.lift - level;
      var fB := liftNext - level;
      if !(Abs(fA) <= ANGULAR_ZERO_TOLERANCE) && !(Abs(fB) <= ANGULAR_ZERO_TOLERANCE) && Sign(fA) != Sign(fB) {
        var jd := BisectRoot(source, body, k, liftStep, anchor, next.jd, level, Sign(fA));
        assert AnswersAt(k, source, body, liftStep, jd);
        var root := Root(jd, source.stateAt(body, jd).speed, None);
        assert InBracket(k, anchor, next, base, w) == [root];
        grown := PushInto(grown, w, kind, root);
      } else {
        assert InBracket(k, anchor, next, base, w) == [];
      }
      w := w + 1;
    }
  }

  /** All three families, at one sample and the bracket that follows it. */
  method ScanSample(
    source: EphemerisSource, body: TransitingBody, ghost k: Track, ghost liftStep: real,
    samples: seq<Sample>, i: nat, exact: real, lower: real, upper: real, byWinding: map<int, LevelRoots>)
    returns (grown: map<int, LevelRoots>)
    requires Answers(k, source, body, liftStep) && i < |samples|
    ensures Grew(byWinding, grown, k, samples, i, Exact, exact)
    ensures Grew(byWinding, grown, k, samples, i, Lower, lower)
    ensures Grew(byWinding, grown, k, samples, i, Upper, upper)
  {
    var one := ScanFamily(source, body, k, liftStep, samples, i, Exact, exact, byWinding);
    var two := ScanFamily(source, body, k, liftStep, samples, i, Lower, lower, one);
    grown := ScanFamily(source, body, k, liftStep, samples, i, Upper, upper, two);
    GrewThenKept(byWinding, one, two, k, samples, i, Exact, exact);
    GrewThenKept(byWinding, two, grown, k, samples, i, Exact, exact);
    KeptThenGrew(byWinding, one, two, k, samples, i, Lower, lower);
    GrewThenKept(byWinding, two, grown, k, samples, i, Lower, lower);
    KeptThenKept(byWinding, one, two, Upper);
    KeptThenGrew(byWinding, two, grown, k, samples, i, Upper, upper);
  }

  lemma KeptThenKept(a: map<int, LevelRoots>, b: map<int, LevelRoots>, c: map<int, LevelRoots>, kind: LevelKind)
    requires Kept(a, b, kind) && Kept(b, c, kind)
    ensures Kept(a, c, kind)
  {
  }

  lemma GrewThenKept(
    a: map<int, LevelRoots>, b: map<int, LevelRoots>, c: map<int, LevelRoots>,
    k: Track, samples: seq<Sample>, i: nat, kind: LevelKind, base: real)
    requires i < |samples| && Grew(a, b, k, samples, i, kind, base) && Kept(b, c, kind)
    ensures Grew(a, c, k, samples, i, kind, base)
  {
  }

  lemma KeptThenGrew(
    a: map<int, LevelRoots>, b: map<int, LevelRoots>, c: map<int, LevelRoots>,
    k: Track, samples: seq<Sample>, i: nat, kind: LevelKind, base: real)
    requires i < |samples| && Kept(a, b, kind) && Grew(b, c, k, samples, i, kind, base)
    ensures Grew(a, c, k, samples, i, kind, base)
  {
  }

  /** All three families over all samples. */
  method ScanTargetBranch(
    source: EphemerisSource, body: TransitingBody, ghost k: Track, ghost liftStep: real,
    samples: seq<Sample>, targetDeg: real, orbDeg: real)
    returns (byWinding: map<int, LevelRoots>)
    requires Answers(k, source, body, liftStep)
    ensures forall w, kind :: Bucket(byWinding, w, kind) == Recorded(k, samples, Base(kind, targetDeg, orbDeg), w)
  {
    byWinding := map[];
    var lower, upper := targetDeg - orbDeg, targetDeg + orbDeg;
    var i := 0;
    while i < |samples|
      invariant 0 <= i <= |samples|
      invariant Holds(byWinding, k, samples, i, Exact, targetDeg)
      invariant Holds(byWinding, k, samples, i, Lower, lower)
      invariant Holds(byWinding, k, samples, i, Upper, upper)
    {
      ghost var before := byWinding;
      byWinding := ScanSample(source, body, k, liftStep, samples, i, targetDeg, lower, upper, byWinding);
      FamilyAdvances(before, byWinding, k, samples, i, Exact, targetDeg);
      FamilyAdvances(before, byWinding, k, samples, i, Lower, lower);
      FamilyAdvances(before, byWinding, k, samples, i, Upper, upper);
      i := i + 1;
    }
    FamiliesAreRecorded(byWinding, k, samples, targetDeg, orbDeg, lower, upper);
  }

  /** The buckets of one family hold what the first `n` samples contribute. */
  ghost predicate Holds(byWinding: map<int, LevelRoots>, k: Track, samples: seq<Sample>, n: nat, kind: LevelKind, base: real)
    requires n <= |samples|
  {
    forall w :: Bucket(byWinding, w, kind) == PushedAll([], Events(k, samples, n, base, w))
  }

  lemma FamilyIsRecorded(
    byWinding: map<int, LevelRoots>, k: Track, samples: seq<Sample>, kind: LevelKind, base: real, w: int)
    requires Holds(byWinding, k, samples, |samples|, kind, base)
    ensures Bucket(byWinding, w, kind) == Recorded(k, samples, base, w)
  {
  }

  lemma FamiliesAreRecorded(
    byWinding: map<int, LevelRoots>, k: Track, samples: seq<Sample>,
    targetDeg: real, orbDeg: real, lower: real, upper: real)
    requires lower == targetDeg - orbDeg && upper == targetDeg + orbDeg
    requires Holds(byWinding, k, samples, |samples|, Exact, targetDeg)
    requires Holds(byWinding, k, samples, |samples|, Lower, lower)
    requires Holds(byWinding, k, samples, |samples|, Upper, upper)
    ensures forall w, kind :: Bucket(byWinding, w, kind) == Recorded(k, samples, Base(kind, targetDeg, orbDeg), w)
  {
    forall w, kind
      ensures Bucket(byWinding, w, kind) == Recorded(k, samples, Base(kind, targetDeg, orbDeg), w)
    {
      match kind
      case Exact => FamilyIsRecorded(byWinding, k, samples, Exact, targetDeg, w);
      case Lower => FamilyIsRecorded(byWinding, k, samples, Lower, lower, w);
      case Upper => FamilyIsRecorded(byWinding, k, samples, Upper, upper, w);
    }
  }

  lemma FamilyAdvances(
    before: map<int, LevelRoots>, after: map<int, LevelRoots>,
    k: Track, samples: seq<Sample>, i: nat, kind: LevelKind, base: real)
    requires i < |samples| && Grew(before, after, k, samples, i, kind, base)
    requires Holds(before, k, samples, i, kind, base)
    ensures Holds(after, k, samples, i + 1, kind, base)
  {
    forall w
      ensures Bucket(after, w, kind) == PushedAll([], Events(k, samples, i + 1, base, w))
    {
      ScanAdvances(k, samples, i, base, w);
    }
  }

  lemma ScanAdvances(k: Track, samples: seq<Sample>, i: nat, base: real, w: int)
    requires i < |samples|
    ensures PushedAll([], Events(k, samples, i + 1, base, w))
         == PushedAll(PushedAll([], Events(k, samples, i, base, w)), EventsAt(k, samples, i, base, w))
  {
    PushedAllJoin([], Events(k, samples, i, base, w), EventsAt(k, samples, i, base, w));
  }
}
