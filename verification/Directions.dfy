/** The one thing a window can change: the direction in which a pass leaves an exact standstill. */
module Directions {
  import opened Optional
  import opened Sky
  import opened Stations
  import opened Sampling
  import opened SampleLists
  import opened RootScan
  import opened RootTheorems
  import opened Envelopes
  import opened EnvelopeTheorems
  import opened Slices
  import opened WindowIndependence
  import opened Scan

  // ----- One sample for every instant -----

  lemma {:induction false} OneSampleAnInstant(samples: seq<Sample>, a: Sample, b: Sample)
    requires Ascending(samples) && a in samples && b in samples && a.jd == b.jd
    ensures a == b
  {
    var i :| 0 <= i < |samples| && samples[i] == a;
    var j :| 0 <= j < |samples| && samples[j] == b;
    assert i == j;
  }

  /** The sample of a grid instant, whatever else the span holds. */
  lemma {:induction false} GridInstantIsMarked(k: Track, first: int, last: int, i: int, n: int)
    requires GridSteps(k) && first <= i <= last && 0 <= n < |Samples(k, first, last)|
    requires Samples(k, first, last)[n].jd == k.grid(i)
    ensures Samples(k, first, last)[n] == Marked(k, i, last)
  {
    SamplesAreOrdered(k, first, last);
    SourceIsSampled(k, first, last, i, Marked(k, i, last));
    OneSampleAnInstant(Samples(k, first, last), Samples(k, first, last)[n], Marked(k, i, last));
  }

  lemma {:induction false} IndexIsInSpan(k: Track, first: int, last: int, i: int)
    requires GridSteps(k) && first <= last && k.grid(first) <= k.grid(i) <= k.grid(last)
    ensures first <= i <= last
  {
    if i < first {
      GridAscends(k, i, first);
    } else if last < i {
      GridAscends(k, last, i);
    }
  }

  /** A sample off the grid is the same in every span that takes it. */
  lemma {:induction false} OffTheGridIsShared(
    k: Track, outerFirst: int, first: int, last: int, outerLast: int, a: Sample, b: Sample)
    requires GridSteps(k) && outerFirst <= first <= last <= outerLast && a.jd == b.jd
    requires a in Samples(k, first, last) && b in Samples(k, outerFirst, outerLast)
    requires forall i :: first <= i <= last ==> a.jd != k.grid(i)
    ensures a == b
  {
    var n :| 0 <= n < |Samples(k, first, last)| && Samples(k, first, last)[n] == a;
    var i := SampleHasASource(k, first, last, n);
    SourceIsSampled(k, outerFirst, outerLast, i, a);
    SamplesAreOrdered(k, outerFirst, outerLast);
    OneSampleAnInstant(Samples(k, outerFirst, outerLast), a, b);
  }

  // ----- Where a recorded pass comes from -----

  ghost predicate Between(samples: seq<Sample>, jd: real) {
    exists n :: 0 <= n < |samples| - 1 && samples[n].jd < jd < samples[n + 1].jd
  }

  lemma {:induction false} RecordedComesFrom(
    k: Track, m: Motion, samples: seq<Sample>, reach: real, base: real, w: int, r: Root) returns (n: int)
    requires Scene(k, m, samples, reach) && r in Recorded(k, samples, base, w)
    ensures (0 <= n < |samples| && r == SampleRoot(samples[n])) || (Between(samples, r.jd) && r.direction == None)
  {
    n := RecordedIsContributed(k, samples, base, w, r);
    if r !in OnSample(samples[n], base, w) {
      BracketEventIsGenuine(k, m, samples, reach, n, base, w, r);
    }
  }

  lemma NotBetween(samples: seq<Sample>, n: int)
    requires Ascending(samples) && 0 <= n < |samples|
    ensures !Between(samples, samples[n].jd)
  {
    forall i | 0 <= i < |samples| - 1
      ensures samples[n].jd <= samples[i].jd || samples[i + 1].jd <= samples[n].jd
    {
      TimesAscend(samples, if n <= i then n else i + 1, if n <= i then i else n);
    }
  }

  lemma {:induction false} BetweenInAPart(part: seq<Sample>, whole: seq<Sample>, from: nat, to: nat, jd: real)
    requires PartOf(part, whole, from, to) && Between(part, jd)
    ensures Between(whole, jd)
  {
    var n :| 0 <= n < |part| - 1 && part[n].jd < jd < part[n + 1].jd;
    MomentInAPart(part, whole, from, to, n);
    MomentInAPart(part, whole, from, to, n + 1);
    assert whole[from + n].jd < jd < whole[from + n + 1].jd;
  }

  // ----- The direction of one pass -----

  /** Every grid instant from `i` to `last` stands still. */
  ghost predicate StandsThrough(k: Track, i: int, last: int) {
    forall j :: i <= j <= last ==> k.speed(k.grid(j)) == 0.0
  }

  lemma {:induction false} NothingFollowsIff(k: Track, i: int, last: int)
    ensures Following(k, i, last).None? <==> StandsThrough(k, i, last)
    decreases last - i
  {
    if i <= last && k.speed(k.grid(i)) == 0.0 {
      NothingFollowsIff(k, i + 1, last);
    }
  }

  /** `jd` is a grid instant from which the body stands still at every grid instant to the end of the
      span, and beyond the end a wider span sees it leave backwards. */
  ghost predicate LeavesUnseen(k: Track, jd: real, last: int, wider: int) {
    Following(k, last + 1, wider) == Some(Retrograde)
    && exists i :: i <= last && k.grid(i) == jd && StandsThrough(k, i, last)
  }

  lemma {:induction false} MarkedDirection(k: Track, i: int, last: int, outerLast: int)
    requires i <= last <= outerLast
    ensures DirectionOf(SampleRoot(Marked(k, i, last))) == DirectionOf(SampleRoot(Marked(k, i, outerLast)))
       <==> !(StandsThrough(k, i, last) && Following(k, last + 1, outerLast) == Some(Retrograde))
  {
    NothingFollowsIff(k, i + 1, last);
    FollowingLooksOn(k, i + 1, last, outerLast);
    assert StandsThrough(k, i, last) <==> k.speed(k.grid(i)) == 0.0 && StandsThrough(k, i + 1, last);
  }

  lemma GridIsInjective(k: Track, i: int, j: int)
    requires GridSteps(k) && k.grid(i) == k.grid(j)
    ensures i == j
  {
    if i < j {
      GridAscends(k, i, j);
    } else if j < i {
      GridAscends(k, j, i);
    }
  }

  lemma UnseenAtItsIndex(k: Track, i: int, last: int, wider: int)
    requires GridSteps(k) && i <= last
    ensures LeavesUnseen(k, k.grid(i), last, wider)
       <==> StandsThrough(k, i, last) && Following(k, last + 1, wider) == Some(Retrograde)
  {
    if LeavesUnseen(k, k.grid(i), last, wider) {
      var j :| j <= last && k.grid(j) == k.grid(i) && StandsThrough(k, j, last);
      GridIsInjective(k, i, j);
    }
  }

  /** Where the samples of one span lie among those of a wider one. */
  ghost predicate Hulled(
    k: Track, m: Motion, reach: real, outerFirst: int, first: int, last: int, outerLast: int, from: nat, to: nat)
  {
    && GridSteps(k) && outerFirst <= first <= last <= outerLast
    && Scene(k, m, Samples(k, outerFirst, outerLast), reach)
    && PartOf(Samples(k, first, last), Samples(k, outerFirst, outerLast), from, to)
  }

  lemma {:induction false} InSpan(
    k: Track, m: Motion, reach: real, outerFirst: int, first: int, last: int, outerLast: int, from: nat, to: nat)
    requires Hulled(k, m, reach, outerFirst, first, last, outerLast, from, to)
    ensures Ascending(Samples(k, first, last)) && Ascending(Samples(k, outerFirst, outerLast))
    ensures Spans(Samples(k, first, last), k.grid(first), k.grid(last))
    ensures Scene(k, m, Samples(k, first, last), reach)
  {
    SamplesAreOrdered(k, first, last);
    PartIsAScene(k, m, Samples(k, first, last), Samples(k, outerFirst, outerLast), reach, from, to);
  }

  lemma {:induction false} UnseenOnlyOnASample(k: Track, first: int, last: int, wider: int, jd: real)
    requires GridSteps(k) && first <= last && k.grid(first) <= jd <= k.grid(last) && LeavesUnseen(k, jd, last, wider)
    ensures exists i :: first <= i <= last && k.grid(i) == jd
  {
    var i :| i <= last && k.grid(i) == jd && StandsThrough(k, i, last);
    IndexIsInSpan(k, first, last, i);
  }

  lemma {:induction false} DirectionOnASample(
    k: Track, m: Motion, reach: real, outerFirst: int, first: int, last: int, outerLast: int, from: nat, to: nat, n: int)
    requires Hulled(k, m, reach, outerFirst, first, last, outerLast, from, to) && 0 <= n < |Samples(k, first, last)|
    ensures DirectionOf(SampleRoot(Samples(k, first, last)[n])) == DirectionOf(SampleRoot(Samples(k, outerFirst, outerLast)[from + n]))
       <==> !LeavesUnseen(k, Samples(k, first, last)[n].jd, last, outerLast)
  {
    var part, whole := Samples(k, first, last), Samples(k, outerFirst, outerLast);
    InSpan(k, m, reach, outerFirst, first, last, outerLast, from, to);
    MomentInAPart(part, whole, from, to, n);
    if i :| first <= i <= last && part[n].jd == k.grid(i) {
      GridInstantIsMarked(k, first, last, i, n);
      GridInstantIsMarked(k, outerFirst, outerLast, i, from + n);
      MarkedDirection(k, i, last, outerLast);
      UnseenAtItsIndex(k, i, last, outerLast);
    } else {
      OffTheGridIsShared(k, outerFirst, first, last, outerLast, part[n], whole[from + n]);
      if LeavesUnseen(k, part[n].jd, last, outerLast) {
        assert part[0].jd <= part[n].jd <= part[|part| - 1].jd;
        UnseenOnlyOnASample(k, first, last, outerLast, part[n].jd);
      }
    }
  }

  lemma {:induction false} NotUnseenBetween(k: Track, first: int, last: int, wider: int, jd: real)
    requires GridSteps(k) && first <= last && Between(Samples(k, first, last), jd)
    ensures !LeavesUnseen(k, jd, last, wider)
  {
    SamplesAreOrdered(k, first, last);
    var samples := Samples(k, first, last);
    if LeavesUnseen(k, jd, last, wider) {
      var n :| 0 <= n < |samples| - 1 && samples[n].jd < jd < samples[n + 1].jd;
      assert samples[0].jd <= samples[n].jd && samples[n + 1].jd <= samples[|samples| - 1].jd;
      UnseenOnlyOnASample(k, first, last, wider, jd);
      var i :| first <= i <= last && k.grid(i) == jd;
      var l := GridInstantIsASample(k, first, last, i);
      NotBetween(samples, l);
    }
  }

  /** A pass has one direction in both spans exactly when the narrower span does not end in the standstill
      it leaves and the wider one does not see it leave backwards. */
  lemma {:induction false} DirectionsAgreeIff(
    k: Track, m: Motion, reach: real, outerFirst: int, first: int, last: int, outerLast: int, from: nat, to: nat,
    base: real, w: int, r: Root, s: Root)
    requires Hulled(k, m, reach, outerFirst, first, last, outerLast, from, to)
    requires r in Recorded(k, Samples(k, first, last), base, w) && s in Recorded(k, Samples(k, outerFirst, outerLast), base, w)
    requires Bared(r) == Bared(s)
    ensures DirectionOf(r) == DirectionOf(s) <==> !LeavesUnseen(k, r.jd, last, outerLast)
  {
    var part, whole := Samples(k, first, last), Samples(k, outerFirst, outerLast);
    InSpan(k, m, reach, outerFirst, first, last, outerLast, from, to);
    var n := RecordedComesFrom(k, m, part, reach, base, w, r);
    var l := RecordedComesFrom(k, m, whole, reach, base, w, s);
    if Between(part, r.jd) {
      BetweenInAPart(part, whole, from, to, r.jd);
      NotUnseenBetween(k, first, last, outerLast, r.jd);
      BothBetween(part, whole, r, s, n, l);
    } else {
      OneSampleInBoth(part, whole, from, to, r, s, n, l);
      DirectionOnASample(k, m, reach, outerFirst, first, last, outerLast, from, to, n);
    }
  }

  lemma OneSampleInBoth(part: seq<Sample>, whole: seq<Sample>, from: nat, to: nat, r: Root, s: Root, n: int, l: int)
    requires PartOf(part, whole, from, to) && Ascending(whole) && Bared(r) == Bared(s)
    requires 0 <= n < |part| && r == SampleRoot(part[n])
    requires (0 <= l < |whole| && s == SampleRoot(whole[l])) || Between(whole, s.jd)
    ensures s == SampleRoot(whole[from + n])
  {
    MomentInAPart(part, whole, from, to, n);
    NotBetween(whole, from + n);
    assert whole[l].jd == whole[from + n].jd;
    OneSampleAnInstant(whole, whole[l], whole[from + n]);
  }

  lemma BothBetween(part: seq<Sample>, whole: seq<Sample>, r: Root, s: Root, n: int, l: int)
    requires Ascending(part) && Ascending(whole) && Between(part, r.jd) && Between(whole, s.jd) && Bared(r) == Bared(s)
    requires (0 <= n < |part| && r == SampleRoot(part[n])) || r.direction == None
    requires (0 <= l < |whole| && s == SampleRoot(whole[l])) || s.direction == None
    ensures DirectionOf(r) == DirectionOf(s)
  {
    if 0 <= n < |part| && r == SampleRoot(part[n]) {
      NotBetween(part, n);
    }
    if 0 <= l < |whole| && s == SampleRoot(whole[l]) {
      NotBetween(whole, l);
    }
  }

  lemma NothingIsUnseenAtTheEnd(k: Track, jd: real, last: int)
    ensures !LeavesUnseen(k, jd, last, last)
  {
    assert Following(k, last + 1, last) == None;
  }

  function Earlier(one: int, other: int): int {
    if one <= other then one else other
  }

  function Later(one: int, other: int): int {
    if one <= other then other else one
  }

  /** Two spans of one body give a pass they share one direction exactly when the one that ends first does
      not end in the standstill that the pass leaves, with the other seeing it leave backwards. */
  lemma {:induction false} SpansDirectAlikeIff(
    k: Track, m: Motion, reach: real, outerFirst: int, first1: int, last1: int, first2: int, last2: int,
    from1: nat, to1: nat, from2: nat, to2: nat, base: real, w: int, r: Root, s: Root, h: Root)
    requires Hulled(k, m, reach, outerFirst, first1, last1, Later(last1, last2), from1, to1)
    requires Hulled(k, m, reach, outerFirst, first2, last2, Later(last1, last2), from2, to2)
    requires r in Recorded(k, Samples(k, first1, last1), base, w) && s in Recorded(k, Samples(k, first2, last2), base, w)
    requires h in Recorded(k, Samples(k, outerFirst, Later(last1, last2)), base, w)
    requires Bared(r) == Bared(h) == Bared(s)
    ensures DirectionOf(r) == DirectionOf(s) <==> !LeavesUnseen(k, r.jd, Earlier(last1, last2), Later(last1, last2))
  {
    DirectionsAgreeIff(k, m, reach, outerFirst, first1, last1, Later(last1, last2), from1, to1, base, w, r, h);
    DirectionsAgreeIff(k, m, reach, outerFirst, first2, last2, Later(last1, last2), from2, to2, base, w, s, h);
    NothingIsUnseenAtTheEnd(k, r.jd, Later(last1, last2));
  }

  // ----- The passes of a cycle -----

  /** One encounter, reported alike but for the directions of its passes. */
  ghost predicate SameButDirections(a: NormalizedCycle, b: NormalizedCycle) {
    && a.(passes := []) == b.(passes := [])
    && |a.passes| == |b.passes|
    && forall i :: 0 <= i < |a.passes| ==> a.passes[i].(direction := Direct) == b.passes[i].(direction := Direct)
  }

  /** Roots that agree once bared are rendered alike, but for their directions. */
  lemma BaredPass(r: Root, s: Root, i: nat)
    requires Bared(r) == Bared(s)
    ensures PassOf(r, i).(direction := Direct) == PassOf(s, i).(direction := Direct)
    ensures PassOf(r, i) == PassOf(s, i) <==> DirectionOf(r) == DirectionOf(s)
  {
  }

  lemma {:induction false} PassAgrees(a: seq<Root>, b: seq<Root>, i: int)
    requires AllBared(a) == AllBared(b) && 0 <= i < |a|
    ensures |SortedByTime(a)| == |a| == |b| == |SortedByTime(b)|
    ensures Bared(SortedByTime(a)[i]) == Bared(SortedByTime(b)[i])
    ensures PassesOf(SortedByTime(a))[i].(direction := Direct) == PassesOf(SortedByTime(b))[i].(direction := Direct)
    ensures PassesOf(SortedByTime(a))[i] == PassesOf(SortedByTime(b))[i]
       <==> DirectionOf(SortedByTime(a)[i]) == DirectionOf(SortedByTime(b)[i])
  {
    SortedAlike(a, b);
    BaredPass(SortedByTime(a)[i], SortedByTime(b)[i], i);
  }

  ghost predicate DirectedAlike(a: seq<Root>, b: seq<Root>)
    requires |SortedByTime(a)| == |SortedByTime(b)|
  {
    forall i :: 0 <= i < |SortedByTime(a)| ==> DirectionOf(SortedByTime(a)[i]) == DirectionOf(SortedByTime(b)[i])
  }

  lemma {:induction false} PassesAgree(a: seq<Root>, b: seq<Root>)
    requires AllBared(a) == AllBared(b) && a != []
    ensures |SortedByTime(a)| == |SortedByTime(b)| == |a| && SortedByTime(a)[0].jd == SortedByTime(b)[0].jd
    ensures |PassesOf(SortedByTime(a))| == |PassesOf(SortedByTime(b))|
    ensures forall i :: 0 <= i < |PassesOf(SortedByTime(a))| ==>
      PassesOf(SortedByTime(a))[i].(direction := Direct) == PassesOf(SortedByTime(b))[i].(direction := Direct)
    ensures PassesOf(SortedByTime(a)) == PassesOf(SortedByTime(b)) <==> DirectedAlike(a, b)
  {
    PassAgrees(a, b, 0);
    forall i | 0 <= i < |a|
      ensures PassesOf(SortedByTime(a))[i].(direction := Direct) == PassesOf(SortedByTime(b))[i].(direction := Direct)
      ensures PassesOf(SortedByTime(a))[i] == PassesOf(SortedByTime(b))[i]
         <==> DirectionOf(SortedByTime(a)[i]) == DirectionOf(SortedByTime(b)[i])
    {
      PassAgrees(a, b, i);
    }
  }

  /** Encounters that agree once bared are reported alike but for directions, and as one cycle exactly when
      the directions agree too. */
  lemma {:induction false} EncountersAgree(options: ScanOptions, key: Key, a: Encounter, b: Encounter)
    requires a.levels.exact != [] && AllBared(a.levels.exact) == AllBared(b.levels.exact) && b.levels.exact != []
    requires a.envelope == b.envelope && a.envelope.startJd.Some? && a.envelope.endJd.Some?
    ensures |SortedByTime(a.levels.exact)| == |SortedByTime(b.levels.exact)|
    ensures SameButDirections(CycleOf(options, key, a), CycleOf(options, key, b))
    ensures CycleOf(options, key, a) == CycleOf(options, key, b) <==> DirectedAlike(a.levels.exact, b.levels.exact)
  {
    PassesAgree(a.levels.exact, b.levels.exact);
  }
}
