/** The solved envelope of a proven encounter does not depend on the span that observed it. */
module WindowIndependence {
  import opened Optional
  import opened CyclePolicy
  import opened Sky
  import opened Stations
  import opened Sampling
  import opened SampleLists
  import opened RootScan
  import opened Envelopes
  import opened EnvelopeTheorems
  import opened Slices

  // ----- The bounds -----

  lemma PartIsBeyond(part: seq<Sample>, whole: seq<Sample>, from: nat, to: nat, level: real, beyondReturn: real, j: int)
    requires PartOf(part, whole, from, to) && from <= j < to
    ensures part[j - from].jd == whole[j].jd
    ensures Beyond(part[j - from], level, beyondReturn) <==> Beyond(whole[j], level, beyondReturn)
  {
    MomentInAPart(part, whole, from, to, j - from);
  }

  lemma {:induction false} LeftBoundOfAPart(
    part: seq<Sample>, whole: seq<Sample>, from: nat, to: nat, level: real, beyondReturn: real, first: real, last: real)
    requires Ascending(whole) && PartOf(part, whole, from, to) && first <= last
    requires ProvenLeft(part, level, beyondReturn, first).Some?
    requires ProvenRight(part, level, beyondReturn, first, last).Some?
    ensures ProvenLeft(whole, level, beyondReturn, first) == ProvenLeft(part, level, beyondReturn, first)
  {
    var i := ProvenLeftIsASample(part, level, beyondReturn, first);
    var q := ProvenRightIsASample(part, level, beyondReturn, first, last);
    PartIsBeyond(part, whole, from, to, level, beyondReturn, from + i);
    PartIsBeyond(part, whole, from, to, level, beyondReturn, from + q);
    forall j | from + i < j < |whole| && whole[j].jd < first
      ensures !Beyond(whole[j], level, beyondReturn)
    {
      if j < to {
        PartIsBeyond(part, whole, from, to, level, beyondReturn, j);
      }
    }
    ProvenLeftIsTheLast(whole, level, beyondReturn, first, from + i);
  }

  lemma {:induction false} RightBoundOfAPart(
    part: seq<Sample>, whole: seq<Sample>, from: nat, to: nat, level: real, beyondReturn: real, first: real, last: real)
    requires Ascending(whole) && PartOf(part, whole, from, to) && first <= last
    requires ProvenLeft(part, level, beyondReturn, first).Some?
    requires ProvenRight(part, level, beyondReturn, first, last).Some?
    ensures ProvenRight(whole, level, beyondReturn, first, last) == ProvenRight(part, level, beyondReturn, first, last)
  {
    var p := ProvenLeftIsASample(part, level, beyondReturn, first);
    var i := ProvenRightIsASample(part, level, beyondReturn, first, last);
    PartIsBeyond(part, whole, from, to, level, beyondReturn, from + p);
    PartIsBeyond(part, whole, from, to, level, beyondReturn, from + i);
    forall j | 0 <= j < from + i && last < whole[j].jd
      ensures !Beyond(whole[j], level, beyondReturn)
    {
      if from <= j {
        PartIsBeyond(part, whole, from, to, level, beyondReturn, j);
      }
    }
    ProvenRightIsTheFirst(whole, level, beyondReturn, first, last, from + i);
  }

  // ----- The classification -----

  /** What the sky does around an instant decides how a boundary there is classified. */
  lemma TurningIsTrue(k: Track, m: Motion, samples: seq<Sample>, reach: real, jd: real, level: real, orbDeg: real)
    requires Scene(k, m, samples, reach) && samples != []
    requires samples[0].jd <= jd <= samples[|samples| - 1].jd
    ensures TurningAt(k.lon, samples, jd, level, orbDeg)
         == TurningOf(InOrb(m, jd - BOUNDARY_PROBE, level, orbDeg), InOrb(m, jd + BOUNDARY_PROBE, level, orbDeg))
  {
    var before, after := jd - BOUNDARY_PROBE, jd + BOUNDARY_PROBE;
    InsideOrbIsTrue(k, m, samples, reach, before, level, orbDeg);
    InsideOrbIsTrue(k, m, samples, reach, after, level, orbDeg);
  }

  lemma PartSpans(part: seq<Sample>, whole: seq<Sample>, from: nat, to: nat)
    requires Ascending(whole) && PartOf(part, whole, from, to)
    ensures whole[0].jd <= whole[from].jd == part[0].jd
    ensures part[|part| - 1].jd == whole[to - 1].jd <= whole[|whole| - 1].jd
  {
    TimesAscend(whole, 0, from);
    TimesAscend(whole, to - 1, |whole| - 1);
    MomentInAPart(part, whole, from, to, 0);
    MomentInAPart(part, whole, from, to, |part| - 1);
  }

  lemma TurnsAlikeInside(
    k: Track, m: Motion, part: seq<Sample>, whole: seq<Sample>, reach: real, from: nat, to: nat,
    level: real, orbDeg: real, jd: real)
    requires Scene(k, m, whole, reach) && PartOf(part, whole, from, to)
    requires whole[from].jd <= jd <= whole[to - 1].jd
    ensures TurningAt(k.lon, whole, jd, level, orbDeg) == TurningAt(k.lon, part, jd, level, orbDeg)
  {
    PartIsAScene(k, m, part, whole, reach, from, to);
    PartSpans(part, whole, from, to);
    TurningIsTrue(k, m, whole, reach, jd, level, orbDeg);
    TurningIsTrue(k, m, part, reach, jd, level, orbDeg);
  }

  /** The boundary roots of the two sides, taken together, agree between the bounds. */
  ghost predicate BoundariesAgree(a: LevelRoots, b: LevelRoots, p: real, q: real) {
    && During(a.lower, p, q) == During(b.lower, p, q)
    && During(a.upper, p, q) == During(b.upper, p, q)
  }

  lemma {:induction false} RootAgrees(a: seq<Root>, b: seq<Root>, p: real, q: real, r: Root) returns (r': Root)
    requires During(a, p, q) == During(b, p, q) && r in a && p <= r.jd <= q
    ensures r' in b && r'.jd == r.jd
  {
    DuringMembers(a, p, q);
    DuringMembers(b, p, q);
    assert Bared(r) in During(b, p, q);
    r' :| r' in b && p <= r'.jd <= q && Bared(r) == Bared(r');
  }

  lemma {:induction false} BoundaryAgrees(a: LevelRoots, b: LevelRoots, p: real, q: real, r: Root) returns (r': Root)
    requires BoundariesAgree(a, b, p, q) && r in SortedByTime(a.lower + a.upper) && p <= r.jd <= q
    ensures r' in SortedByTime(b.lower + b.upper) && r'.jd == r.jd
  {
    SortingKeepsTheRoots(a.lower + a.upper);
    SortingKeepsTheRoots(b.lower + b.upper);
    if r in a.lower {
      r' := RootAgrees(a.lower, b.lower, p, q, r);
    } else {
      r' := RootAgrees(a.upper, b.upper, p, q, r);
    }
  }

  ghost predicate TurnsAlike(
    lon: real -> real, a: seq<Sample>, b: seq<Sample>, level: real, orbDeg: real, p: real, q: real)
    requires a != [] && b != []
  {
    forall t :: p <= t <= q ==> TurningAt(lon, a, t, level, orbDeg) == TurningAt(lon, b, t, level, orbDeg)
  }

  lemma {:induction false} ClassifiedTimesAgree(
    lon: real -> real, a: seq<Sample>, b: seq<Sample>, x: LevelRoots, y: LevelRoots, level: real, orbDeg: real,
    turning: Turning, lo: real, hi: real, p: real, q: real, t: real)
    requires a != [] && b != [] && TurnsAlike(lon, a, b, level, orbDeg, p, q) && BoundariesAgree(x, y, p, q)
    requires p <= lo && hi <= q
    requires t in Classified(lon, a, SortedByTime(x.lower + x.upper), level, orbDeg, turning, lo, hi)
    ensures t in Classified(lon, b, SortedByTime(y.lower + y.upper), level, orbDeg, turning, lo, hi)
  {
    var r := ClassifiedComesFrom(lon, a, SortedByTime(x.lower + x.upper), level, orbDeg, turning, lo, hi, t);
    var r' := BoundaryAgrees(x, y, p, q, r);
    ClassifiedTakesIn(lon, b, SortedByTime(y.lower + y.upper), level, orbDeg, turning, lo, hi, r');
  }

  lemma {:induction false} SameLeast(a: seq<real>, b: seq<real>)
    requires forall t :: t in a <==> t in b
    ensures Least(a) == Least(b)
  {
    LeastIsLeast(a);
    LeastIsLeast(b);
  }

  lemma {:induction false} SameGreatest(a: seq<real>, b: seq<real>)
    requires forall t :: t in a <==> t in b
    ensures Greatest(a) == Greatest(b)
  {
    GreatestIsGreatest(a);
    GreatestIsGreatest(b);
  }

  lemma {:induction false} ClassifiedAlike(
    lon: real -> real, a: seq<Sample>, b: seq<Sample>, x: LevelRoots, y: LevelRoots, level: real, orbDeg: real,
    turning: Turning, lo: real, hi: real, p: real, q: real)
    requires a != [] && b != [] && TurnsAlike(lon, a, b, level, orbDeg, p, q) && BoundariesAgree(x, y, p, q)
    requires p <= lo && hi <= q
    ensures forall t :: t in Classified(lon, a, SortedByTime(x.lower + x.upper), level, orbDeg, turning, lo, hi)
                   <==> t in Classified(lon, b, SortedByTime(y.lower + y.upper), level, orbDeg, turning, lo, hi)
  {
    var one := Classified(lon, a, SortedByTime(x.lower + x.upper), level, orbDeg, turning, lo, hi);
    var two := Classified(lon, b, SortedByTime(y.lower + y.upper), level, orbDeg, turning, lo, hi);
    forall t
      ensures t in one <==> t in two
    {
      if t in one {
        ClassifiedTimesAgree(lon, a, b, x, y, level, orbDeg, turning, lo, hi, p, q, t);
      }
      if t in two {
        ClassifiedTimesAgree(lon, b, a, y, x, level, orbDeg, turning, lo, hi, p, q, t);
      }
    }
  }

  // ----- The envelope -----

  lemma {:induction false} InsertedBared(roots: seq<Root>, root: Root)
    ensures AllBared(Inserted(roots, root)) == Inserted(AllBared(roots), Bared(root))
  {
    if roots == [] {
    } else if root.jd < roots[0].jd {
      assert AllBared([root] + roots) == [Bared(root)] + AllBared(roots);
    } else {
      InsertedBared(roots[1..], root);
      assert AllBared(roots)[1..] == AllBared(roots[1..]);
      assert AllBared([roots[0]] + Inserted(roots[1..], root)) == [Bared(roots[0])] + AllBared(Inserted(roots[1..], root));
    }
  }

  /** Sorting looks at times alone. */
  lemma {:induction false} SortedBared(roots: seq<Root>)
    ensures AllBared(SortedByTime(roots)) == SortedByTime(AllBared(roots))
  {
    if roots != [] {
      var n := |roots| - 1;
      SortedBared(roots[..n]);
      assert AllBared(roots)[..n] == AllBared(roots[..n]);
      InsertedBared(SortedByTime(roots[..n]), roots[n]);
    }
  }

  /** Roots that agree once bared are sorted into the same times. */
  lemma {:induction false} SortedAlike(a: seq<Root>, b: seq<Root>)
    requires AllBared(a) == AllBared(b)
    ensures |SortedByTime(a)| == |a| == |b| == |SortedByTime(b)|
    ensures forall i :: 0 <= i < |a| ==> Bared(SortedByTime(a)[i]) == Bared(SortedByTime(b)[i])
  {
    SortingKeepsTheRoots(a);
    SortingKeepsTheRoots(b);
    SortedBared(a);
    SortedBared(b);
    assert |AllBared(a)| == |AllBared(b)|;
    forall i | 0 <= i < |a|
      ensures Bared(SortedByTime(a)[i]) == Bared(SortedByTime(b)[i])
    {
      assert AllBared(SortedByTime(a))[i] == AllBared(SortedByTime(b))[i];
    }
  }

  lemma {:induction false} EnvelopeFromItsParts(
    lon: real -> real, a: seq<Sample>, b: seq<Sample>, x: LevelRoots, y: LevelRoots, level: real, orbDeg: real, arcDeg: real,
    first: real, last: real, p: real, q: real)
    requires a != [] && b != [] && x.exact != [] && AllBared(x.exact) == AllBared(y.exact)
    requires |SortedByTime(x.exact)| == |x.exact| && p <= first <= last <= q
    requires first == SortedByTime(x.exact)[0].jd && last == SortedByTime(x.exact)[|x.exact| - 1].jd
    requires ProvenLeft(a, level, orbDeg + arcDeg, first) == Some(p) == ProvenLeft(b, level, orbDeg + arcDeg, first)
    requires ProvenRight(a, level, orbDeg + arcDeg, first, last) == Some(q) == ProvenRight(b, level, orbDeg + arcDeg, first, last)
    requires TurnsAlike(lon, a, b, level, orbDeg, p, q) && BoundariesAgree(x, y, p, q)
    ensures EnvelopeOf(lon, a, x, level, orbDeg, arcDeg) == EnvelopeOf(lon, b, y, level, orbDeg, arcDeg)
  {
    SortedAlike(x.exact, y.exact);
    assert SortedByTime(y.exact)[0].jd == first && SortedByTime(y.exact)[|y.exact| - 1].jd == last;
    ClassifiedAlike(lon, a, b, x, y, level, orbDeg, Entry, p, first, p, q);
    ClassifiedAlike(lon, a, b, x, y, level, orbDeg, Exit, last, q, p, q);
    SameLeast(Classified(lon, a, SortedByTime(x.lower + x.upper), level, orbDeg, Entry, p, first),
              Classified(lon, b, SortedByTime(y.lower + y.upper), level, orbDeg, Entry, p, first));
    SameGreatest(Classified(lon, a, SortedByTime(x.lower + x.upper), level, orbDeg, Exit, last, q),
                 Classified(lon, b, SortedByTime(y.lower + y.upper), level, orbDeg, Exit, last, q));
  }

  /** Two sample lists record the same passes of one winding, but for the directions in which exact
      standstills are left, and solve the same envelope. */
  ghost predicate SameEncounter(
    k: Track, a: seq<Sample>, b: seq<Sample>, targetDeg: real, orbDeg: real, w: int, arcDeg: real)
  {
    var x, y := LevelsOf(k, a, targetDeg, orbDeg, w), LevelsOf(k, b, targetDeg, orbDeg, w);
    && x.exact != [] && AllBared(x.exact) == AllBared(y.exact)
    && EnvelopeOf(k.lon, a, x, Level(targetDeg, w), orbDeg, arcDeg)
    == EnvelopeOf(k.lon, b, y, Level(targetDeg, w), orbDeg, arcDeg)
  }

  lemma PartTurnsAlike(
    k: Track, m: Motion, part: seq<Sample>, whole: seq<Sample>, reach: real, from: nat, to: nat,
    level: real, orbDeg: real, p: real, q: real)
    requires Scene(k, m, whole, reach) && PartOf(part, whole, from, to)
    requires whole[from].jd <= p && q <= whole[to - 1].jd
    ensures TurnsAlike(k.lon, part, whole, level, orbDeg, p, q)
  {
    forall t | p <= t <= q
      ensures TurningAt(k.lon, part, t, level, orbDeg) == TurningAt(k.lon, whole, t, level, orbDeg)
    {
      TurnsAlikeInside(k, m, part, whole, reach, from, to, level, orbDeg, t);
    }
  }

  lemma BoundaryBases(targetDeg: real, orbDeg: real, w: int, level: real, lower: real, upper: real)
    requires level == Level(targetDeg, w) && lower == targetDeg - orbDeg && upper == targetDeg + orbDeg
    ensures BoundaryBase(level, orbDeg, lower, w) && BoundaryBase(level, orbDeg, upper, w)
  {
  }

  lemma PartsOfTheLevels(
    k: Track, samples: seq<Sample>, targetDeg: real, orbDeg: real, w: int, lower: real, upper: real, levels: LevelRoots)
    requires lower == targetDeg - orbDeg && upper == targetDeg + orbDeg
    requires levels == LevelsOf(k, samples, targetDeg, orbDeg, w)
    ensures levels.exact == Recorded(k, samples, targetDeg, w)
    ensures levels.lower == Recorded(k, samples, lower, w) && levels.upper == Recorded(k, samples, upper, w)
  {
  }

  lemma {:induction false} BoundariesOfAPart(
    k: Track, m: Motion, part: seq<Sample>, whole: seq<Sample>, reach: real, from: nat, to: nat,
    targetDeg: real, orbDeg: real, w: int, arcDeg: real, p: real, q: real, level: real, x: LevelRoots, y: LevelRoots)
    requires Scene(k, m, whole, reach) && PartOf(part, whole, from, to) && 0.0 <= orbDeg && level == Level(targetDeg, w)
    requires Encloses(m, part, level, orbDeg, arcDeg, p, q) && BoundsDivide(m, whole, arcDeg)
    requires x == LevelsOf(k, part, targetDeg, orbDeg, w) && y == LevelsOf(k, whole, targetDeg, orbDeg, w)
    ensures BoundariesAgree(x, y, p, q)
    ensures x.exact == Recorded(k, part, targetDeg, w) && y.exact == Recorded(k, whole, targetDeg, w)
  {
    var lower, upper := targetDeg - orbDeg, targetDeg + orbDeg;
    BoundaryBases(targetDeg, orbDeg, w, level, lower, upper);
    SameBoundaries(k, m, part, whole, reach, from, to, level, orbDeg, arcDeg, p, q, lower, w);
    SameBoundaries(k, m, part, whole, reach, from, to, level, orbDeg, arcDeg, p, q, upper, w);
    PartsOfTheLevels(k, part, targetDeg, orbDeg, w, lower, upper, x);
    PartsOfTheLevels(k, whole, targetDeg, orbDeg, w, lower, upper, y);
  }

  lemma {:induction false} EncounterFromItsParts(
    k: Track, part: seq<Sample>, whole: seq<Sample>, targetDeg: real, orbDeg: real, w: int, arcDeg: real,
    level: real, x: LevelRoots, y: LevelRoots)
    requires level == Level(targetDeg, w) && x.exact != [] && AllBared(x.exact) == AllBared(y.exact)
    requires x == LevelsOf(k, part, targetDeg, orbDeg, w) && y == LevelsOf(k, whole, targetDeg, orbDeg, w)
    requires EnvelopeOf(k.lon, part, x, level, orbDeg, arcDeg) == EnvelopeOf(k.lon, whole, y, level, orbDeg, arcDeg)
    ensures SameEncounter(k, part, whole, targetDeg, orbDeg, w, arcDeg)
  {
  }

  lemma {:induction false} EnvelopeOfAPart(
    k: Track, m: Motion, part: seq<Sample>, whole: seq<Sample>, reach: real, from: nat, to: nat,
    orbDeg: real, arcDeg: real, p: real, q: real, level: real, first: real, last: real, x: LevelRoots, y: LevelRoots)
    requires Scene(k, m, whole, reach) && PartOf(part, whole, from, to)
    requires x.exact != [] && AllBared(x.exact) == AllBared(y.exact) && BoundariesAgree(x, y, p, q)
    requires |SortedByTime(x.exact)| == |x.exact| && p <= first <= last <= q
    requires first == SortedByTime(x.exact)[0].jd && last == SortedByTime(x.exact)[|x.exact| - 1].jd
    requires ProvenLeft(part, level, orbDeg + arcDeg, first) == Some(p)
    requires ProvenRight(part, level, orbDeg + arcDeg, first, last) == Some(q)
    requires whole[from].jd <= p && q <= whole[to - 1].jd
    ensures EnvelopeOf(k.lon, part, x, level, orbDeg, arcDeg) == EnvelopeOf(k.lon, whole, y, level, orbDeg, arcDeg)
  {
    LeftBoundOfAPart(part, whole, from, to, level, orbDeg + arcDeg, first, last);
    RightBoundOfAPart(part, whole, from, to, level, orbDeg + arcDeg, first, last);
    PartTurnsAlike(k, m, part, whole, reach, from, to, level, orbDeg, p, q);
    EnvelopeFromItsParts(k.lon, part, whole, x, y, level, orbDeg, arcDeg, first, last, p, q);
  }

  /** An encounter whose two bounds are proven inside a span has the same passes and the same
      envelope in every wider span, but for the directions in which exact standstills are left. */
  lemma {:induction false} ProvenEncounterOfAPart(
    k: Track, m: Motion, part: seq<Sample>, whole: seq<Sample>, reach: real, from: nat, to: nat,
    targetDeg: real, orbDeg: real, w: int, arcDeg: real, p: real, q: real)
    requires Scene(k, m, whole, reach) && PartOf(part, whole, from, to) && ExcursionAtMost(m, arcDeg)
    requires ANGULAR_ZERO_TOLERANCE <= orbDeg && 0.0 <= arcDeg && BoundsDivide(m, whole, arcDeg)
    requires ProvenAt(k, part, targetDeg, orbDeg, w, arcDeg, p, q)
    ensures SameEncounter(k, part, whole, targetDeg, orbDeg, w, arcDeg)
  {
    var level := Level(targetDeg, w);
    PartIsAScene(k, m, part, whole, reach, from, to);
    ProofEncloses(k, m, part, reach, targetDeg, orbDeg, w, arcDeg, p, q);
    PartCoversItsProof(m, part, whole, from, to, level, orbDeg, arcDeg, p, q);
    SamePasses(k, m, part, whole, reach, from, to, targetDeg, w, orbDeg, arcDeg, p, q);
    var x, y := LevelsOf(k, part, targetDeg, orbDeg, w), LevelsOf(k, whole, targetDeg, orbDeg, w);
    BoundariesOfAPart(k, m, part, whole, reach, from, to, targetDeg, orbDeg, w, arcDeg, p, q, level, x, y);
    var first, last := ProofIsAround(k, part, targetDeg, orbDeg, w, arcDeg, p, q, x.exact, level);
    EnvelopeOfAPart(k, m, part, whole, reach, from, to, orbDeg, arcDeg, p, q, level, first, last, x, y);
    EncounterFromItsParts(k, part, whole, targetDeg, orbDeg, w, arcDeg, level, x, y);
  }

  /** The samples of a span are a part of those of every wider one. */
  lemma {:induction false} SpanIsAPart(
    k: Track, outerFirst: int, first: int, last: int, outerLast: int) returns (from: nat, to: nat)
    requires outerFirst <= first <= last <= outerLast
    ensures PartOf(Samples(k, first, last), Samples(k, outerFirst, outerLast), from, to)
  {
    from, to := SpanIsASlice(k, outerFirst, first, last, outerLast);
    AlikeIsAPart(Samples(k, first, last), Samples(k, outerFirst, outerLast), from, to);
  }
}
