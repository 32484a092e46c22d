/** What the list of samples guarantees: order, truth, completeness, and that two spans see one list. */
module SampleLists {
  import opened Optional
  import opened CyclePolicy
  import opened Sky
  import opened LiftChain
  import opened Stations
  import opened Sampling

  /** Neighbouring grid instants are one scan step apart. */
  ghost predicate GridSteps(k: Track) {
    && 0.0 < k.policy.scanStep
    && forall i, j {:trigger k.grid(i), k.grid(j)} :: j == i + 1 ==> k.grid(j) == k.grid(i) + k.policy.scanStep
  }

  lemma AnswersStepTheGrid(k: Track, source: EphemerisSource, body: TransitingBody, liftStep: real)
    requires Answers(k, source, body, liftStep) && 0.0 < k.policy.scanStep
    ensures GridSteps(k)
  {
    forall i, j | j == i + 1
      ensures k.grid(j) == k.grid(i) + k.policy.scanStep
    {
      assert GridAt(k, i) && GridAt(k, j);
      InstantsAdvance(k.policy.scanStep, i);
    }
  }

  lemma {:induction false} GridAscends(k: Track, i: int, j: int)
    requires GridSteps(k) && i <= j
    ensures k.grid(i) <= k.grid(j)
    ensures i < j ==> k.grid(i) + k.policy.scanStep <= k.grid(j)
    decreases j - i
  {
    if i < j {
      GridAscends(k, i, j - 1);
    }
  }

  // ----- Order -----

  /** No two neighbours are further apart than `step`. */
  ghost predicate Dense(samples: seq<Sample>, step: real) {
    forall i :: 0 <= i < |samples| - 1 ==> samples[i + 1].jd - samples[i].jd <= step
  }

  ghost predicate Spans(samples: seq<Sample>, lo: real, hi: real) {
    samples != [] && samples[0].jd == lo && samples[|samples| - 1].jd == hi
  }

  lemma PieceIsOrdered(k: Track, i: int, last: int)
    requires GridSteps(k) && i <= last
    ensures Ascending(Piece(k, i, last)) && Piece(k, i, last) != [] && Piece(k, i, last)[0].jd == k.grid(i)
    ensures i < last ==> forall j :: 0 <= j < |Piece(k, i, last)| ==> k.grid(i) <= Piece(k, i, last)[j].jd < k.grid(i + 1)
    ensures i == last ==> |Piece(k, i, last)| == 1
  {
    assert k.grid(i + 1) == k.grid(i) + k.policy.scanStep;
    SplicedIsOrdered(k, GridSample(k, i), GridSample(k, i + 1), k.probeDepth);
  }

  /** Whatever the ephemeris answers, the samples ascend strictly from the first grid instant to
      the last and leave no gap wider than a scan step. */
  lemma {:induction false} SamplesAreOrdered(k: Track, first: int, last: int)
    requires GridSteps(k) && first <= last
    ensures Ascending(Samples(k, first, last)) && Dense(Samples(k, first, last), k.policy.scanStep)
    ensures Spans(Samples(k, first, last), k.grid(first), k.grid(last))
    decreases last - first
  {
    var piece := Piece(k, first, last);
    PieceIsOrdered(k, first, last);
    if first == last {
      assert Samples(k, first + 1, last) == [];
      assert Samples(k, first, last) == piece;
    } else {
      var rest := Samples(k, first + 1, last);
      SamplesAreOrdered(k, first + 1, last);
      assert k.grid(first + 1) == k.grid(first) + k.policy.scanStep;
      AscendingJoin(piece, rest);
      DenseJoin(piece, rest, k.grid(first), k.policy.scanStep);
      assert Samples(k, first, last) == piece + rest;
    }
  }

  lemma AscendingJoin(front: seq<Sample>, back: seq<Sample>)
    requires Ascending(front) && Ascending(back) && back != []
    requires forall i :: 0 <= i < |front| ==> front[i].jd < back[0].jd
    ensures Ascending(front + back)
  {
    var all := front + back;
    forall i, j | 0 <= i < j < |all|
      ensures all[i].jd < all[j].jd
    {
      if i < |front| && |front| <= j {
        assert back[0].jd <= back[j - |front|].jd;
      }
    }
  }

  lemma DenseJoin(front: seq<Sample>, back: seq<Sample>, start: real, step: real)
    requires front != [] && back != [] && Dense(back, step) && back[0].jd == start + step
    requires forall i :: 0 <= i < |front| ==> start <= front[i].jd < start + step
    ensures Dense(front + back, step)
  {
    var all := front + back;
    forall i | 0 <= i < |all| - 1
      ensures all[i + 1].jd - all[i].jd <= step
    {
      if i + 1 < |front| {
        assert all[i] == front[i] && all[i + 1] == front[i + 1];
      } else if i + 1 == |front| {
        assert all[i] == front[i] && all[i + 1] == back[0];
      } else {
        assert all[i] == back[i - |front|] && all[i + 1] == back[i - |front| + 1];
      }
    }
  }

  // ----- Truth -----

  ghost predicate Faithful(k: Track, sample: Sample) {
    sample.lon == k.lon(sample.jd) && sample.speed == k.speed(sample.jd) && sample.lift == k.lift(sample.jd)
  }

  ghost predicate AllFaithful(k: Track, samples: seq<Sample>) {
    forall i :: 0 <= i < |samples| ==> Faithful(k, samples[i])
  }

  lemma {:induction false} SplicedIsFaithful(k: Track, a: Sample, b: Sample, depth: nat)
    ensures AllFaithful(k, k.Spliced(a, b, depth))
    ensures forall i :: 0 <= i < |k.Spliced(a, b, depth)| ==> k.Spliced(a, b, depth)[i].station
    decreases depth
  {
    if !k.Closed(a, b) && depth != 0 && k.policy.stationSeparation < b.jd - a.jd {
      SplicedIsFaithful(k, a, k.Middle(a, b), depth - 1);
      SplicedIsFaithful(k, k.Middle(a, b), b, depth - 1);
    }
  }

  lemma {:induction false} SamplesAreFaithful(k: Track, first: int, last: int)
    ensures AllFaithful(k, Samples(k, first, last))
    decreases last - first
  {
    if first <= last {
      SplicedIsFaithful(k, GridSample(k, first), GridSample(k, first + 1), k.probeDepth);
      SamplesAreFaithful(k, first + 1, last);
      assert AllFaithful(k, Piece(k, first, last));
    }
  }

  // ----- One list behind every span -----

  /** Equal, but for the direction in which an exact standstill is left. */
  ghost predicate SameMoment(a: Sample, b: Sample) {
    a == b || (a.speed == 0.0 && a.(direction := None) == b.(direction := None))
  }

  ghost predicate Alike(a: seq<Sample>, b: seq<Sample>) {
    |a| == |b| && forall i :: 0 <= i < |a| ==> SameMoment(a[i], b[i])
  }

  /** Looking further ahead does not change the direction a standstill is left in. */
  ghost predicate LooksAhead(k: Track, i: int, last: int, outerLast: int) {
    Following(k, i, last) == Following(k, i, outerLast)
  }

  lemma {:induction false} FollowingLooksOn(k: Track, i: int, last: int, outerLast: int)
    requires i <= last + 1 && last <= outerLast
    ensures Following(k, i, last).Some? ==> LooksAhead(k, i, last, outerLast)
    ensures Following(k, i, last).None? ==> Following(k, i, outerLast) == Following(k, last + 1, outerLast)
    decreases last - i
  {
    if i <= last && k.speed(k.grid(i)) == 0.0 {
      FollowingLooksOn(k, i + 1, last, outerLast);
    }
  }

  /** What the grid indices from `first` up to `middle` contribute to a list that ends at `last`. */
  function Front(k: Track, first: int, middle: int, last: int): seq<Sample>
    decreases middle - first
  {
    if middle <= first then [] else Piece(k, first, last) + Front(k, first + 1, middle, last)
  }

  lemma Regroup<T>(a: seq<T>, b: seq<T>, c: seq<T>)
    ensures a + (b + c) == (a + b) + c
  {
  }

  lemma {:induction false} SamplesSplit(k: Track, first: int, middle: int, last: int)
    requires first <= middle <= last
    ensures Samples(k, first, last) == Front(k, first, middle, last) + Samples(k, middle, last)
    decreases middle - first
  {
    if first < middle {
      SamplesSplit(k, first + 1, middle, last);
      var here, front, back := Piece(k, first, last), Front(k, first + 1, middle, last), Samples(k, middle, last);
      Regroup(here, front, back);
      assert Samples(k, first, last) == here + (front + back);
      assert Front(k, first, middle, last) == here + front;
    } else {
      assert Front(k, first, middle, last) == [];
    }
  }

  lemma {:induction false} LastSample(k: Track, last: int)
    ensures Samples(k, last, last) == [Marked(k, last, last)]
  {
    assert Samples(k, last + 1, last) == [];
  }

  lemma PiecesAlike(k: Track, i: int, last: int, outerLast: int)
    requires i < last <= outerLast
    ensures Alike(Piece(k, i, last), Piece(k, i, outerLast))
    ensures (k.speed(k.grid(i)) == 0.0 ==> LooksAhead(k, i + 1, last, outerLast)) ==> Piece(k, i, last) == Piece(k, i, outerLast)
  {
    assert SameMoment(Marked(k, i, last), Marked(k, i, outerLast));
  }

  lemma AlikeJoin(a: seq<Sample>, b: seq<Sample>, c: seq<Sample>, d: seq<Sample>)
    requires Alike(a, b) && Alike(c, d)
    ensures Alike(a + c, b + d)
  {
  }

  /** Every standstill from `first` up to `middle` is left in the direction a longer look gives it. */
  ghost predicate AllLookAhead(k: Track, first: int, middle: int, last: int, outerLast: int) {
    forall i :: first <= i < middle && k.speed(k.grid(i)) == 0.0 ==> LooksAhead(k, i + 1, last, outerLast)
  }

  lemma {:induction false} FrontsAlike(k: Track, first: int, middle: int, last: int, outerLast: int)
    requires middle <= last <= outerLast
    ensures Alike(Front(k, first, middle, last), Front(k, first, middle, outerLast))
    ensures AllLookAhead(k, first, middle, last, outerLast) ==>
      Front(k, first, middle, last) == Front(k, first, middle, outerLast)
    decreases middle - first
  {
    if first < middle {
      PiecesAlike(k, first, last, outerLast);
      FrontsAlike(k, first + 1, middle, last, outerLast);
      AlikeJoin(Piece(k, first, last), Piece(k, first, outerLast),
                Front(k, first + 1, middle, last), Front(k, first + 1, middle, outerLast));
      assert AllLookAhead(k, first, middle, last, outerLast) && k.speed(k.grid(first)) == 0.0 ==>
        LooksAhead(k, first + 1, last, outerLast);
    }
  }

  /** The span does not end in a standstill whose direction only a longer look gives. */
  ghost predicate EndsSettled(k: Track, last: int, outerLast: int) {
    k.speed(k.grid(last)) != 0.0 || Following(k, last + 1, outerLast) == None
  }

  lemma {:induction false} MovingIsFollowed(k: Track, i: int, last: int)
    requires i <= last && k.speed(k.grid(last)) != 0.0
    ensures Following(k, i, last).Some?
    decreases last - i
  {
    if k.speed(k.grid(i)) == 0.0 {
      MovingIsFollowed(k, i + 1, last);
    }
  }

  lemma {:induction false} SettledLooksAhead(k: Track, first: int, last: int, outerLast: int)
    requires last <= outerLast && EndsSettled(k, last, outerLast)
    ensures AllLookAhead(k, first, last, last, outerLast)
  {
    forall i | first <= i < last && k.speed(k.grid(i)) == 0.0
      ensures LooksAhead(k, i + 1, last, outerLast)
    {
      FollowingLooksOn(k, i + 1, last, outerLast);
      if k.speed(k.grid(last)) != 0.0 {
        MovingIsFollowed(k, i + 1, last);
      }
    }
  }

  /** Where the samples of a span lie among those of a wider one. */
  ghost predicate Located(k: Track, outerFirst: int, first: int, last: int, outerLast: int, from: nat, to: nat) {
    && outerFirst <= first <= last <= outerLast
    && from == |Front(k, outerFirst, first, outerLast)|
    && to == from + |Front(k, first, last, outerLast)| + 1 <= |Samples(k, outerFirst, outerLast)|
    && Samples(k, outerFirst, outerLast)[from..to] == Front(k, first, last, outerLast) + [Marked(k, last, outerLast)]
    && Samples(k, first, last) == Front(k, first, last, last) + [Marked(k, last, last)]
  }

  lemma {:induction false} Locate(k: Track, outerFirst: int, first: int, last: int, outerLast: int) returns (from: nat, to: nat)
    requires outerFirst <= first <= last <= outerLast
    ensures Located(k, outerFirst, first, last, outerLast, from, to)
  {
    SamplesSplit(k, outerFirst, first, outerLast);
    SamplesSplit(k, first, last, outerLast);
    SamplesSplit(k, first, last, last);
    LastSample(k, last);
    var tail := Samples(k, last, outerLast);
    assert tail[0] == Marked(k, last, outerLast);
    from := |Front(k, outerFirst, first, outerLast)|;
    to := from + |Front(k, first, last, outerLast)| + 1;
    SliceBeforeTheTail(Front(k, outerFirst, first, outerLast), Front(k, first, last, outerLast), tail);
  }

  lemma SliceBeforeTheTail<T>(a: seq<T>, b: seq<T>, c: seq<T>)
    requires c != []
    ensures (a + (b + c))[|a|..|a| + |b| + 1] == b + [c[0]]
  {
  }

  /** The samples of a span are a contiguous part of the samples of every wider span, up to the
      directions of its last standstills; these agree as well if and only if the span does not end
      in a standstill whose direction only the wider one sees. */
  lemma {:induction false} SpanIsASlice(k: Track, outerFirst: int, first: int, last: int, outerLast: int)
    returns (from: nat, to: nat)
    requires outerFirst <= first <= last <= outerLast
    ensures from < to <= |Samples(k, outerFirst, outerLast)|
    ensures Alike(Samples(k, first, last), Samples(k, outerFirst, outerLast)[from..to])
    ensures Samples(k, first, last) == Samples(k, outerFirst, outerLast)[from..to] <==> EndsSettled(k, last, outerLast)
  {
    from, to := Locate(k, outerFirst, first, last, outerLast);
    FrontsAlike(k, first, last, last, outerLast);
    AlikeJoin(Front(k, first, last, last), Front(k, first, last, outerLast), [Marked(k, last, last)], [Marked(k, last, outerLast)]);
    LastMark(k, last, outerLast);
    if EndsSettled(k, last, outerLast) {
      SettledLooksAhead(k, first, last, outerLast);
    } else {
      LastsDiffer(Front(k, first, last, last), Marked(k, last, last), Front(k, first, last, outerLast), Marked(k, last, outerLast));
    }
  }

  lemma LastsDiffer<T>(a: seq<T>, x: T, b: seq<T>, y: T)
    requires |a| == |b| && x != y
    ensures a + [x] != b + [y]
  {
    assert (a + [x])[|a|] != (b + [y])[|a|];
  }

  lemma {:induction false} LastMark(k: Track, last: int, outerLast: int)
    requires last <= outerLast
    ensures SameMoment(Marked(k, last, last), Marked(k, last, outerLast))
    ensures Marked(k, last, last) == Marked(k, last, outerLast) <==> EndsSettled(k, last, outerLast)
  {
  }

  // ----- Completeness over a span -----

  ghost predicate DepthReaches(k: Track) {
    STATION_TIME_TOLERANCE < k.policy.scanStep <= Doubled(k.policy.stationSeparation, k.probeDepth)
  }

  /** The gap after grid index `i` is not searched, because the grid stands still at one of its ends. */
  ghost predicate Skipped(k: Track, i: int) {
    k.speed(k.grid(i)) == 0.0 || k.speed(k.grid(i + 1)) == 0.0
  }

  /** Every subdivision midpoint visited in a searched gap moves. */
  ghost predicate ProbesMove(k: Track, first: int, last: int) {
    forall i :: first <= i < last && !Skipped(k, i) ==> k.NoZeroProbe(GridSample(k, i), GridSample(k, i + 1), k.probeDepth)
  }

  /** The gap after grid index `i` is searched, or holds no reversal. */
  ghost predicate GapIsSeen(k: Track, m: Motion, i: int) {
    Skipped(k, i) ==> !ReversalBetween(m, k.grid(i), k.grid(i + 1))
  }

  /** No gap beside a grid standstill holds a reversal. */
  ghost predicate NothingSkipped(k: Track, m: Motion, first: int, last: int) {
    forall i :: first <= i < last ==> GapIsSeen(k, m, i)
  }

  /** The gap that holds the stretch from `a` to `b` is searched, or holds no reversal. */
  ghost predicate SeenAround(k: Track, m: Motion, first: int, last: int, a: real, b: real) {
    forall i :: first <= i < last && k.grid(i) <= a && b <= k.grid(i + 1) ==> GapIsSeen(k, m, i)
  }

  ghost predicate InASkippedGap(k: Track, first: int, last: int, z: real) {
    exists i :: first <= i < last && Skipped(k, i) && k.grid(i) < z < k.grid(i + 1)
  }

  /** The instants of a span that the search looks at. */
  ghost function Searched(k: Track, first: int, last: int): real -> bool {
    z => k.grid(first) <= z <= k.grid(last) && !InASkippedGap(k, first, last, z)
  }

  /** The instants that the first grid index of a span answers for. */
  ghost function SearchedAt(k: Track, i: int): real -> bool {
    z => z == k.grid(i) || (!Skipped(k, i) && k.grid(i) < z < k.grid(i + 1))
  }

  ghost function Spanned(k: Track, first: int, last: int): real -> bool {
    z => k.grid(first) <= z <= k.grid(last)
  }

  function StationsOnly(samples: seq<Sample>): seq<Sample> {
    if samples == [] then []
    else (if samples[0].station then [samples[0]] else []) + StationsOnly(samples[1..])
  }

  lemma {:induction false} StationsOnlyJoin(a: seq<Sample>, b: seq<Sample>)
    ensures StationsOnly(a + b) == StationsOnly(a) + StationsOnly(b)
  {
    if a == [] {
      assert a + b == b;
    } else {
      assert (a + b)[0] == a[0] && (a + b)[1..] == a[1..] + b;
      StationsOnlyJoin(a[1..], b);
      assert [a[0]] + (StationsOnly(a[1..]) + StationsOnly(b)) == ([a[0]] + StationsOnly(a[1..])) + StationsOnly(b);
    }
  }

  lemma {:induction false} StationsOnlyOfStations(a: seq<Sample>)
    requires forall i :: 0 <= i < |a| ==> a[i].station
    ensures StationsOnly(a) == a
  {
    if a != [] {
      StationsOnlyOfStations(a[1..]);
    }
  }

  /** The stations that one grid index contributes. */
  function StationsAt(k: Track, i: int, last: int): seq<Sample> {
    if k.speed(k.grid(i)) == 0.0 then [Marked(k, i, last)]
    else if i < last && k.speed(k.grid(i + 1)) != 0.0 then Gap(k, i)
    else []
  }

  lemma {:induction false} PieceStations(k: Track, i: int, last: int)
    ensures StationsOnly(Piece(k, i, last)) == StationsAt(k, i, last)
  {
    var mark := [Marked(k, i, last)];
    assert StationsOnly(mark) == if mark[0].station then mark else [];
    if i < last && k.speed(k.grid(i)) != 0.0 && k.speed(k.grid(i + 1)) != 0.0 {
      SplicedIsFaithful(k, GridSample(k, i), GridSample(k, i + 1), k.probeDepth);
      StationsOnlyOfStations(Gap(k, i));
      StationsOnlyJoin(mark, Gap(k, i));
      assert Piece(k, i, last) == mark + Gap(k, i);
    } else {
      assert Piece(k, i, last) == mark;
    }
  }

  lemma {:induction false} SpanStations(k: Track, first: int, last: int)
    requires first <= last
    ensures StationsOnly(Samples(k, first, last)) == StationsAt(k, first, last) + StationsOnly(Samples(k, first + 1, last))
  {
    PieceStations(k, first, last);
    StationsOnlyJoin(Piece(k, first, last), Samples(k, first + 1, last));
  }

  lemma {:induction false} IndexIsSearched(k: Track, m: Motion, i: int, last: int)
    requires Searchable(k, m) && GridSteps(k) && DepthReaches(k) && i < last
    requires !Skipped(k, i) ==> k.NoZeroProbe(GridSample(k, i), GridSample(k, i + 1), k.probeDepth)
    ensures OnePerReversal(StationsAt(k, i, last), m, SearchedAt(k, i))
  {
    var a, b := GridSample(k, i), GridSample(k, i + 1);
    assert k.grid(i + 1) == k.grid(i) + k.policy.scanStep;
    if !Skipped(k, i) {
      SearchIsComplete(k, m, a, b, k.probeDepth);
      SameRegion(m, Gap(k, i), Between(a.jd, b.jd), SearchedAt(k, i));
    } else if k.speed(k.grid(i)) == 0.0 {
      StandstillIsItsStation(m, Marked(k, i, last), SearchedAt(k, i));
    }
  }

  lemma StandstillIsItsStation(m: Motion, mark: Sample, inside: real -> bool)
    requires Reversal(m, mark.jd) && forall z :: inside(z) <==> z == mark.jd
    ensures OnePerReversal([mark], m, inside)
  {
    assert inside(mark.jd);
    assert Near([mark][0], mark.jd);
  }

  lemma SameRegion(m: Motion, stations: seq<Sample>, a: real -> bool, b: real -> bool)
    requires OnePerReversal(stations, m, a)
    requires forall z :: Reversal(m, z) ==> (a(z) <==> b(z))
    ensures OnePerReversal(stations, m, b)
  {
    forall i | 0 <= i < |stations|
      ensures NearReversal(stations[i], m, b)
    {
      assert NearReversal(stations[i], m, a);
    }
  }

  lemma {:induction false} SkippedRest(k: Track, first: int, last: int, z: real)
    requires GridSteps(k) && first < last && k.grid(first + 1) <= z
    ensures InASkippedGap(k, first, last, z) <==> InASkippedGap(k, first + 1, last, z)
  {
    if InASkippedGap(k, first, last, z) {
      var i :| first <= i < last && Skipped(k, i) && k.grid(i) < z < k.grid(i + 1);
      assert i != first;
    }
  }

  lemma {:induction false} SkippedFirst(k: Track, first: int, last: int, z: real)
    requires GridSteps(k) && first < last && k.grid(first) <= z < k.grid(first + 1)
    ensures InASkippedGap(k, first, last, z) <==> Skipped(k, first) && k.grid(first) < z
  {
    if InASkippedGap(k, first, last, z) {
      var i :| first <= i < last && Skipped(k, i) && k.grid(i) < z < k.grid(i + 1);
      GridAscends(k, first + 1, if i <= first then first + 1 else i);
      assert i == first;
    }
  }

  lemma {:induction false} RegionsSplit(k: Track, m: Motion, first: int, last: int)
    requires GridSteps(k) && first < last
    ensures Apart(SearchedAt(k, first), Searched(k, first + 1, last))
    ensures Cover(m, Searched(k, first, last), SearchedAt(k, first), Searched(k, first + 1, last))
  {
    assert k.grid(first + 1) == k.grid(first) + k.policy.scanStep;
    GridAscends(k, first + 1, last);
    forall z
      ensures Searched(k, first, last)(z) <==> SearchedAt(k, first)(z) || Searched(k, first + 1, last)(z)
    {
      if k.grid(first + 1) <= z {
        SkippedRest(k, first, last, z);
      } else if k.grid(first) <= z {
        SkippedFirst(k, first, last, z);
      }
    }
  }

  /** Where every visited midpoint moves, the stations of a span are in one-to-one correspondence
      with the reversals outside the skipped gaps, standstills of the grid included. */
  lemma {:induction false} SpanIsSearched(k: Track, m: Motion, first: int, last: int)
    requires Searchable(k, m) && GridSteps(k) && DepthReaches(k) && first <= last && ProbesMove(k, first, last)
    ensures OnePerReversal(StationsOnly(Samples(k, first, last)), m, Searched(k, first, last))
    decreases last - first
  {
    SpanStations(k, first, last);
    if first < last {
      IndexIsSearched(k, m, first, last);
      SpanIsSearched(k, m, first + 1, last);
      RegionsSplit(k, m, first, last);
      SearchesJoin(m, k.policy.stationSeparation, StationsAt(k, first, last), StationsOnly(Samples(k, first + 1, last)),
                   Searched(k, first, last), SearchedAt(k, first), Searched(k, first + 1, last));
    } else {
      LastIndexIsSearched(k, m, last);
      assert StationsOnly(Samples(k, first + 1, last)) == [];
      assert StationsOnly(Samples(k, first, last)) == StationsAt(k, first, last);
    }
  }

  lemma {:induction false} LastIndexIsSearched(k: Track, m: Motion, last: int)
    requires Searchable(k, m)
    ensures OnePerReversal(StationsAt(k, last, last), m, Searched(k, last, last))
  {
    if k.speed(k.grid(last)) == 0.0 {
      StandstillIsItsStation(m, Marked(k, last, last), Searched(k, last, last));
    }
  }

  lemma {:induction false} IndexSearchIsKept(k: Track, first: int, i: int, last: int, z: real)
    requires first <= i <= last
    ensures Found(StationsAt(k, i, last), z) ==> Found(StationsOnly(Samples(k, first, last)), z)
    ensures FoundTwice(StationsAt(k, i, last), z) ==> FoundTwice(StationsOnly(Samples(k, first, last)), z)
    decreases i - first
  {
    SpanStations(k, first, last);
    if first < i {
      IndexSearchIsKept(k, first + 1, i, last, z);
      FoundOnTheRight(StationsAt(k, first, last), StationsOnly(Samples(k, first + 1, last)), z);
    } else {
      FoundOnTheLeft(StationsAt(k, first, last), StationsOnly(Samples(k, first + 1, last)), z);
    }
  }

  /** A midpoint that stands still makes the span hold a reversal twice. */
  lemma {:induction false} ZeroProbeSpoilsTheSpan(k: Track, m: Motion, first: int, last: int)
    requires Searchable(k, m) && GridSteps(k) && DepthReaches(k) && first <= last && !ProbesMove(k, first, last)
    ensures !OnePerReversal(StationsOnly(Samples(k, first, last)), m, Spanned(k, first, last))
  {
    var i :| first <= i < last && !Skipped(k, i) && !k.NoZeroProbe(GridSample(k, i), GridSample(k, i + 1), k.probeDepth);
    assert k.grid(i + 1) == k.grid(i) + k.policy.scanStep;
    var z := ZeroProbeIsFoundTwice(k, m, GridSample(k, i), GridSample(k, i + 1), k.probeDepth);
    IndexSearchIsKept(k, first, i, last, z);
    GridAscends(k, first, i);
    GridAscends(k, i + 1, last);
    assert Spanned(k, first, last)(z);
  }

  /** A reversal in a gap beside a grid standstill has no station. */
  lemma {:induction false} SkippedReversalIsLost(k: Track, m: Motion, first: int, last: int, i: int, z: real)
    requires Searchable(k, m) && GridSteps(k) && DepthReaches(k) && ProbesMove(k, first, last)
    requires first <= i < last && Skipped(k, i) && k.grid(i) < z < k.grid(i + 1) && Reversal(m, z)
    ensures !Found(StationsOnly(Samples(k, first, last)), z)
  {
    SpanIsSearched(k, m, first, last);
    var stations := StationsOnly(Samples(k, first, last));
    assert !Searched(k, first, last)(z);
    forall n | 0 <= n < |stations|
      ensures !Near(stations[n], z)
    {
      assert NearReversal(stations[n], m, Searched(k, first, last));
      var y :| Searched(k, first, last)(y) && Reversal(m, y) && Near(stations[n], y);
      assert y != z;
    }
  }

  /** The search over a span finds every reversal of the span exactly once, and nothing else, if and
      only if no visited midpoint stands still and no gap beside a grid standstill holds a reversal. */
  lemma {:induction false} SpanIsExactIff(k: Track, m: Motion, first: int, last: int)
    requires Searchable(k, m) && GridSteps(k) && DepthReaches(k) && first <= last
    ensures OnePerReversal(StationsOnly(Samples(k, first, last)), m, Spanned(k, first, last))
       <==> ProbesMove(k, first, last) && NothingSkipped(k, m, first, last)
  {
    if !ProbesMove(k, first, last) {
      ZeroProbeSpoilsTheSpan(k, m, first, last);
    } else if !NothingSkipped(k, m, first, last) {
      SkippedSpoilsTheSpan(k, m, first, last);
    } else {
      SpanIsSearched(k, m, first, last);
      forall z | Reversal(m, z)
        ensures Searched(k, first, last)(z) <==> Spanned(k, first, last)(z)
      {
        NotSkipped(k, m, first, last, z);
      }
      SameRegion(m, StationsOnly(Samples(k, first, last)), Searched(k, first, last), Spanned(k, first, last));
    }
  }

  lemma NotSkipped(k: Track, m: Motion, first: int, last: int, z: real)
    requires NothingSkipped(k, m, first, last) && Reversal(m, z)
    ensures !InASkippedGap(k, first, last, z)
  {
    forall i | first <= i < last && Skipped(k, i)
      ensures !(k.grid(i) < z < k.grid(i + 1))
    {
      assert GapIsSeen(k, m, i);
      assert k.grid(i) < z < k.grid(i + 1) ==> ReversalBetween(m, k.grid(i), k.grid(i + 1));
    }
  }

  lemma {:induction false} SkippedSpoilsTheSpan(k: Track, m: Motion, first: int, last: int)
    requires Searchable(k, m) && GridSteps(k) && DepthReaches(k) && first <= last
    requires ProbesMove(k, first, last) && !NothingSkipped(k, m, first, last)
    ensures !OnePerReversal(StationsOnly(Samples(k, first, last)), m, Spanned(k, first, last))
  {
    var i :| first <= i < last && !GapIsSeen(k, m, i);
    var z :| k.grid(i) < z < k.grid(i + 1) && Reversal(m, z);
    SkippedReversalIsLost(k, m, first, last, i, z);
    GridAscends(k, first, i);
    GridAscends(k, i + 1, last);
    assert Spanned(k, first, last)(z);
  }

  // ----- Where a sample comes from -----

  /** The sample is grid index `i`, or a station found in the gap after it. */
  ghost predicate ComesFrom(k: Track, sample: Sample, i: int, last: int) {
    sample == Marked(k, i, last) || (i < last && !Skipped(k, i) && sample in Gap(k, i))
  }

  lemma {:induction false} SampleHasASource(k: Track, first: int, last: int, n: int) returns (i: int)
    requires 0 <= n < |Samples(k, first, last)|
    ensures first <= i <= last && ComesFrom(k, Samples(k, first, last)[n], i, last)
    decreases last - first
  {
    var piece := Piece(k, first, last);
    if n < |piece| {
      i := first;
      assert Samples(k, first, last)[n] == piece[n];
    } else {
      i := SampleHasASource(k, first + 1, last, n - |piece|);
      assert Samples(k, first, last)[n] == Samples(k, first + 1, last)[n - |piece|];
    }
  }

  lemma SourceIsInItsPiece(k: Track, i: int, last: int, sample: Sample)
    requires ComesFrom(k, sample, i, last)
    ensures sample in Piece(k, i, last)
  {
    assert Piece(k, i, last)[0] == Marked(k, i, last);
  }

  lemma {:induction false} SourceIsSampled(k: Track, first: int, last: int, i: int, sample: Sample)
    requires first <= i <= last && ComesFrom(k, sample, i, last)
    ensures sample in Samples(k, first, last)
    decreases i - first
  {
    assert Samples(k, first, last) == Piece(k, first, last) + Samples(k, first + 1, last);
    if first < i {
      SourceIsSampled(k, first + 1, last, i, sample);
    } else {
      SourceIsInItsPiece(k, first, last, sample);
    }
  }

  lemma {:induction false} GridInstantIsASample(k: Track, first: int, last: int, i: int) returns (n: int)
    requires first <= i <= last
    ensures 0 <= n < |Samples(k, first, last)| && Samples(k, first, last)[n].jd == k.grid(i)
  {
    SourceIsSampled(k, first, last, i, Marked(k, i, last));
    n :| 0 <= n < |Samples(k, first, last)| && Samples(k, first, last)[n] == Marked(k, i, last);
  }

  lemma {:induction false} NoSampleInside(k: Track, first: int, last: int, i: int, n: int)
    requires GridSteps(k) && first <= i < last && Skipped(k, i) && 0 <= n < |Samples(k, first, last)|
    ensures !(k.grid(i) < Samples(k, first, last)[n].jd < k.grid(i + 1))
  {
    var j := SampleHasASource(k, first, last, n);
    assert k.grid(i + 1) == k.grid(i) + k.policy.scanStep && k.grid(j + 1) == k.grid(j) + k.policy.scanStep;
    SplicedIsOrdered(k, GridSample(k, j), GridSample(k, j + 1), k.probeDepth);
    if j < i {
      GridAscends(k, j + 1, i);
    } else if i < j {
      GridAscends(k, i + 1, j);
    }
  }

  /** A skipped gap is one bracket. */
  lemma {:induction false} SkippedGapIsOneBracket(k: Track, first: int, last: int, i: int, n: int)
    requires GridSteps(k) && first <= i < last && Skipped(k, i) && 0 <= n < |Samples(k, first, last)| - 1
    requires k.grid(i) <= Samples(k, first, last)[n].jd && Samples(k, first, last)[n + 1].jd <= k.grid(i + 1)
    ensures Samples(k, first, last)[n].jd == k.grid(i) && Samples(k, first, last)[n + 1].jd == k.grid(i + 1)
  {
    SamplesAreOrdered(k, first, last);
    NoSampleInside(k, first, last, i, n);
    NoSampleInside(k, first, last, i, n + 1);
  }

  // ----- Nothing is missed outside the skipped gaps -----

  lemma {:induction false} GridGapOf(k: Track, first: int, last: int, z: real) returns (i: int)
    requires GridSteps(k) && first <= last && k.grid(first) <= z <= k.grid(last)
    ensures first <= i <= last && k.grid(i) <= z
    ensures z != k.grid(i) ==> i < last && z < k.grid(i + 1)
    decreases last - first
  {
    if first < last && k.grid(first + 1) <= z {
      i := GridGapOf(k, first + 1, last, z);
    } else {
      i := first;
    }
  }

  lemma {:induction false} SearchedReversalIsFound(k: Track, m: Motion, first: int, last: int, i: int, z: real)
    requires Searchable(k, m) && GridSteps(k) && DepthReaches(k) && first <= i < last
    requires !Skipped(k, i) && k.grid(i) < z < k.grid(i + 1) && Reversal(m, z)
    ensures Found(StationsOnly(Samples(k, first, last)), z)
  {
    IndexSearchIsKept(k, first, i, last, z);
    assert k.grid(i + 1) == k.grid(i) + k.policy.scanStep;
    SearchMissesNothing(k, m, GridSample(k, i), GridSample(k, i + 1), k.probeDepth, z);
  }

  /** Whatever the midpoints do, a span misses no reversal but those in a gap beside a grid standstill. */
  lemma {:induction false} SpanMissesNothing(k: Track, m: Motion, first: int, last: int, z: real)
    requires Searchable(k, m) && GridSteps(k) && DepthReaches(k) && first <= last && NothingSkipped(k, m, first, last)
    requires k.grid(first) <= z <= k.grid(last) && Reversal(m, z)
    ensures Found(StationsOnly(Samples(k, first, last)), z)
  {
    var i := GridGapOf(k, first, last, z);
    if z == k.grid(i) {
      IndexSearchIsKept(k, first, i, last, z);
      assert Near(StationsAt(k, i, last)[0], z);
    } else {
      assert GapIsSeen(k, m, i) && ReversalBetween(m, k.grid(i), k.grid(i + 1));
      SearchedReversalIsFound(k, m, first, last, i, z);
    }
  }

  /** Where reversals lie further apart than the grid, no gap beside a standstill holds another. */
  lemma {:induction false} WideReversalsAreNotSkipped(k: Track, m: Motion, first: int, last: int)
    requires GridSteps(k) && SpacedReversals(m, k.policy.stationSeparation) && k.policy.scanStep <= k.policy.stationSeparation
    requires forall t :: k.speed(t) == m.speed(t)
    ensures NothingSkipped(k, m, first, last)
  {
    forall i | first <= i < last
      ensures Skipped(k, i) ==> !ReversalBetween(m, k.grid(i), k.grid(i + 1))
    {
      assert k.grid(i + 1) == k.grid(i) + k.policy.scanStep;
      assert k.speed(k.grid(i)) == 0.0 ==> Reversal(m, k.grid(i));
      assert k.speed(k.grid(i + 1)) == 0.0 ==> Reversal(m, k.grid(i + 1));
    }
  }
}
