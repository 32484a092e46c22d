/** The proven bounds are proofs: outside them the body is never within orb of the lifted target. */
module EnvelopeTheorems {
  import opened Optional
  import opened Angles
  import opened CyclePolicy
  import opened Sky
  import opened Stations
  import opened SampleLists
  import opened RootScan
  import opened RootTheorems
  import opened Envelopes

  ghost predicate InOrb(m: Motion, t: real, level: real, orbDeg: real) {
    Abs(m.lift(t) - level) <= orbDeg
  }

  /** What the scan records for one winding of one oriented target. */
  function LevelsOf(k: Track, samples: seq<Sample>, targetDeg: real, orbDeg: real, w: int): LevelRoots {
    LevelRoots(
      Recorded(k, samples, targetDeg, w),
      Recorded(k, samples, targetDeg - orbDeg, w),
      Recorded(k, samples, targetDeg + orbDeg, w))
  }

  /** A true sample list of a continuous motion, wide enough in reach for the boundary probes. */
  ghost predicate Scene(k: Track, m: Motion, samples: seq<Sample>, reach: real) {
    TrueSamples(k, m, samples, reach) && Continuous(m.lift) && BOUNDARY_PROBE <= reach
  }

  // ----- A pass stands for an instant on the level -----

  /** `t` is on the same side of every sample as the root is. */
  ghost predicate SameSideOfSamples(samples: seq<Sample>, jd: real, t: real) {
    forall i :: 0 <= i < |samples| ==>
      (samples[i].jd < jd ==> samples[i].jd <= t) && (jd < samples[i].jd ==> t <= samples[i].jd)
  }

  lemma GenuineStandsForAnInstant(m: Motion, samples: seq<Sample>, level: real, r: Root) returns (t: real)
    requires Ascending(samples) && Genuine(m, samples, level, r)
    ensures OnLevel(m.lift(t), level) && Abs(t - r.jd) <= HALF_ROOT_TOLERANCE
    ensures SameSideOfSamples(samples, r.jd, t)
    ensures samples != [] && samples[0].jd <= r.jd <= samples[|samples| - 1].jd
  {
    if OnALevelledSample(m, samples, level, r) {
      t := r.jd;
    } else {
      var i :| InACrossedBracket(m, samples, level, r, i);
      t :| samples[i].jd <= t <= samples[i + 1].jd && m.lift(t) == level && Abs(r.jd - t) <= HALF_ROOT_TOLERANCE;
      BracketSeparates(samples, i, r.jd, t);
    }
  }

  lemma RootStandsForAnInstant(
    k: Track, m: Motion, samples: seq<Sample>, reach: real, base: real, w: int, r: Root) returns (t: real)
    requires Scene(k, m, samples, reach) && r in Recorded(k, samples, base, w)
    ensures OnLevel(m.lift(t), Level(base, w))
    ensures Abs(t - r.jd) <= HALF_ROOT_TOLERANCE
    ensures SameSideOfSamples(samples, r.jd, t)
    ensures samples != [] && samples[0].jd <= r.jd <= samples[|samples| - 1].jd
  {
    RecordedRootsAreGenuine(k, m, samples, reach, base, w, r);
    t := GenuineStandsForAnInstant(m, samples, Level(base, w), r);
  }

  lemma BracketSeparates(samples: seq<Sample>, i: int, jd: real, t: real)
    requires Ascending(samples) && 0 <= i < |samples| - 1
    requires samples[i].jd < jd < samples[i + 1].jd && samples[i].jd <= t <= samples[i + 1].jd
    ensures SameSideOfSamples(samples, jd, t)
    ensures samples[0].jd <= jd <= samples[|samples| - 1].jd
  {
    assert forall j :: 0 <= j < i ==> samples[j].jd < samples[i].jd;
    assert forall j :: i + 1 < j < |samples| ==> samples[i + 1].jd < samples[j].jd;
  }

  // ----- The samples behind the bounds -----

  lemma {:induction false} ProvenLeftIsASample(
    samples: seq<Sample>, level: real, beyondReturn: real, first: real) returns (i: int)
    requires ProvenLeft(samples, level, beyondReturn, first).Some?
    ensures 0 <= i < |samples| && samples[i].jd == ProvenLeft(samples, level, beyondReturn, first).value < first
    ensures Beyond(samples[i], level, beyondReturn)
    ensures forall j :: i < j < |samples| && samples[j].jd < first ==> !Beyond(samples[j], level, beyondReturn)
  {
    i := |samples| - 1;
    if !(Beyond(samples[i], level, beyondReturn) && samples[i].jd < first) {
      i := ProvenLeftIsASample(samples[..|samples| - 1], level, beyondReturn, first);
    }
  }

  /** The bound is the only sample that is beyond return and has none such after it. */
  lemma {:induction false} ProvenLeftIsTheLast(
    samples: seq<Sample>, level: real, beyondReturn: real, first: real, i: int)
    requires 0 <= i < |samples| && samples[i].jd < first && Beyond(samples[i], level, beyondReturn)
    requires forall j :: i < j < |samples| && samples[j].jd < first ==> !Beyond(samples[j], level, beyondReturn)
    ensures ProvenLeft(samples, level, beyondReturn, first) == Some(samples[i].jd)
  {
    if i < |samples| - 1 {
      ProvenLeftIsTheLast(samples[..|samples| - 1], level, beyondReturn, first, i);
    }
  }

  lemma {:induction false} SomeProvenLeft(samples: seq<Sample>, level: real, beyondReturn: real, first: real, i: int)
    requires 0 <= i < |samples| && samples[i].jd < first && Beyond(samples[i], level, beyondReturn)
    ensures ProvenLeft(samples, level, beyondReturn, first).Some?
  {
    if i < |samples| - 1 {
      SomeProvenLeft(samples[..|samples| - 1], level, beyondReturn, first, i);
    }
  }

  lemma {:induction false} ProvenRightIsASample(
    samples: seq<Sample>, level: real, beyondReturn: real, first: real, last: real) returns (i: int)
    requires ProvenRight(samples, level, beyondReturn, first, last).Some? && first <= last
    ensures 0 <= i < |samples| && samples[i].jd == ProvenRight(samples, level, beyondReturn, first, last).value > last
    ensures Beyond(samples[i], level, beyondReturn)
    ensures forall j :: 0 <= j < i && last < samples[j].jd ==> !Beyond(samples[j], level, beyondReturn)
  {
    var init := samples[..|samples| - 1];
    if ProvenRight(init, level, beyondReturn, first, last).Some? {
      i := ProvenRightIsASample(init, level, beyondReturn, first, last);
    } else {
      i := |samples| - 1;
      NoProvenRight(init, level, beyondReturn, first, last);
    }
  }

  lemma {:induction false} NoProvenRight(
    samples: seq<Sample>, level: real, beyondReturn: real, first: real, last: real)
    requires first <= last
    ensures ProvenRight(samples, level, beyondReturn, first, last).None?
       <==> forall j :: 0 <= j < |samples| && last < samples[j].jd ==> !Beyond(samples[j], level, beyondReturn)
  {
    if samples != [] {
      var init := samples[..|samples| - 1];
      NoProvenRight(init, level, beyondReturn, first, last);
      assert forall j :: 0 <= j < |init| ==> samples[j] == init[j];
      assert samples[|samples| - 1] == samples[|init|];
    }
  }

  lemma {:induction false} ProvenRightIsTheFirst(
    samples: seq<Sample>, level: real, beyondReturn: real, first: real, last: real, i: int)
    requires first <= last && 0 <= i < |samples| && last < samples[i].jd && Beyond(samples[i], level, beyondReturn)
    requires forall j :: 0 <= j < i && last < samples[j].jd ==> !Beyond(samples[j], level, beyondReturn)
    ensures ProvenRight(samples, level, beyondReturn, first, last) == Some(samples[i].jd)
  {
    var init := samples[..|samples| - 1];
    if i < |samples| - 1 {
      ProvenRightIsTheFirst(init, level, beyondReturn, first, last, i);
    } else {
      NoProvenRight(init, level, beyondReturn, first, last);
    }
  }

  // ----- The retrograde-arc inequality -----

  /** A body beyond its return before it has been on the level was never within orb until then. */
  lemma NotYetInOrb(m: Motion, level: real, orbDeg: real, arcDeg: real, p: real, pass: real, t: real)
    requires ExcursionAtMost(m, arcDeg) && ANGULAR_ZERO_TOLERANCE <= orbDeg && 0.0 <= arcDeg
    requires orbDeg + arcDeg < Abs(m.lift(p) - level) && p <= pass && OnLevel(m.lift(pass), level)
    requires t <= p
    ensures !InOrb(m, t, level, orbDeg)
  {
  }

  /** A body beyond its return after it has been on the level never comes within orb again. */
  lemma NoLongerInOrb(m: Motion, level: real, orbDeg: real, arcDeg: real, q: real, pass: real, t: real)
    requires ExcursionAtMost(m, arcDeg) && ANGULAR_ZERO_TOLERANCE <= orbDeg && 0.0 <= arcDeg
    requires orbDeg + arcDeg < Abs(m.lift(q) - level) && pass <= q && OnLevel(m.lift(pass), level)
    requires q <= t
    ensures !InOrb(m, t, level, orbDeg)
  {
  }

  lemma {:induction false} FirstPassIsRecorded(roots: seq<Root>)
    requires roots != []
    ensures var passes := SortedByTime(roots);
      |passes| == |roots| && passes[0] in roots && passes[|passes| - 1] in roots
      && passes[0].jd <= passes[|passes| - 1].jd
  {
    SortingKeepsTheRoots(roots);
    SortingSorts(roots);
    var passes := SortedByTime(roots);
    assert passes[0] in passes && passes[|passes| - 1] in passes;
  }

  /** At and before a proven left bound, inside the span or outside it, the body is not within orb. */
  lemma NeverInOrbBefore(
    k: Track, m: Motion, samples: seq<Sample>, reach: real, targetDeg: real, orbDeg: real, w: int, arcDeg: real, t: real)
    requires Scene(k, m, samples, reach) && ExcursionAtMost(m, arcDeg)
    requires ANGULAR_ZERO_TOLERANCE <= orbDeg && 0.0 <= arcDeg
    requires LevelsOf(k, samples, targetDeg, orbDeg, w).exact != []
    requires var e := EnvelopeOf(k.lon, samples, LevelsOf(k, samples, targetDeg, orbDeg, w), Level(targetDeg, w), orbDeg, arcDeg);
      e.provenLeft.Some? && t <= e.provenLeft.value
    ensures !InOrb(m, t, Level(targetDeg, w), orbDeg)
  {
    var roots := Recorded(k, samples, targetDeg, w);
    var level := Level(targetDeg, w);
    FirstPassIsRecorded(roots);
    var first := SortedByTime(roots)[0];
    var i := ProvenLeftIsASample(samples, level, orbDeg + arcDeg, first.jd);
    assert TrueSample(k, m, samples[i]);
    var pass := RootStandsForAnInstant(k, m, samples, reach, targetDeg, w, first);
    NotYetInOrb(m, level, orbDeg, arcDeg, samples[i].jd, pass, t);
  }

  /** At and after a proven right bound, inside the span or outside it, the body is not within orb. */
  lemma NeverInOrbAfter(
    k: Track, m: Motion, samples: seq<Sample>, reach: real, targetDeg: real, orbDeg: real, w: int, arcDeg: real, t: real)
    requires Scene(k, m, samples, reach) && ExcursionAtMost(m, arcDeg)
    requires ANGULAR_ZERO_TOLERANCE <= orbDeg && 0.0 <= arcDeg
    requires LevelsOf(k, samples, targetDeg, orbDeg, w).exact != []
    requires var e := EnvelopeOf(k.lon, samples, LevelsOf(k, samples, targetDeg, orbDeg, w), Level(targetDeg, w), orbDeg, arcDeg);
      e.provenRight.Some? && e.provenRight.value <= t
    ensures !InOrb(m, t, Level(targetDeg, w), orbDeg)
  {
    var roots := Recorded(k, samples, targetDeg, w);
    var level := Level(targetDeg, w);
    FirstPassIsRecorded(roots);
    var passes := SortedByTime(roots);
    var last := passes[|passes| - 1];
    var i := ProvenRightIsASample(samples, level, orbDeg + arcDeg, passes[0].jd, last.jd);
    assert TrueSample(k, m, samples[i]);
    var pass := RootStandsForAnInstant(k, m, samples, reach, targetDeg, w, last);
    NoLongerInOrb(m, level, orbDeg, arcDeg, samples[i].jd, pass, t);
  }

  // ----- The inside-orb predicate -----

  /** Whichever sample anchors it, the inside-orb predicate is true of the sky. */
  lemma InsideOrbIsTrue(k: Track, m: Motion, samples: seq<Sample>, reach: real, jd: real, level: real, orbDeg: real)
    requires Scene(k, m, samples, reach) && samples != []
    requires samples[0].jd - BOUNDARY_PROBE <= jd <= samples[|samples| - 1].jd + BOUNDARY_PROBE
    ensures InsideOrb(k.lon, samples, jd, level, orbDeg) <==> InOrb(m, jd, level, orbDeg)
  {
    var anchor := Nearest(samples, jd);
    AnchorIsWithinReach(samples, reach, jd);
    NearestIsNearest(samples, jd, 0);
    var i :| 0 <= i < |samples| && samples[i] == anchor;
    assert TrueSample(k, m, samples[i]);
    LiftedFromIsTheMotion(k, m, reach, anchor, jd);
  }

  lemma AnchorIsWithinReach(samples: seq<Sample>, reach: real, jd: real)
    requires Ascending(samples) && Dense(samples, reach) && samples != [] && BOUNDARY_PROBE <= reach
    requires samples[0].jd - BOUNDARY_PROBE <= jd <= samples[|samples| - 1].jd + BOUNDARY_PROBE
    ensures -reach <= jd - Nearest(samples, jd).jd <= reach
  {
    var at := LowerBound(samples, jd);
    LowerBoundSeparates(samples, jd);
    NearestIsNearest(samples, jd, at);
    if 0 < at {
      assert samples[at - 1].jd < jd;
      assert samples[at - 1 + 1].jd - samples[at - 1].jd <= reach;
    }
  }

  // ----- Earliest and latest -----

  lemma {:induction false} LeastIsLeast(times: seq<real>)
    ensures Least(times).None? <==> times == []
    ensures Least(times).Some? ==> Least(times).value in times
    ensures forall t :: t in times ==> Least(times).Some? && Least(times).value <= t
  {
    if times != [] {
      LeastIsLeast(times[..|times| - 1]);
      assert times == times[..|times| - 1] + [times[|times| - 1]];
    }
  }

  lemma {:induction false} GreatestIsGreatest(times: seq<real>)
    ensures Greatest(times).None? <==> times == []
    ensures Greatest(times).Some? ==> Greatest(times).value in times
    ensures forall t :: t in times ==> Greatest(times).Some? && t <= Greatest(times).value
  {
    if times != [] {
      GreatestIsGreatest(times[..|times| - 1]);
      assert times == times[..|times| - 1] + [times[|times| - 1]];
    }
  }

  ghost predicate TurnsSo(
    lon: real -> real, samples: seq<Sample>, level: real, orbDeg: real, turning: Turning, lo: real, hi: real, r: Root)
    requires samples != []
  {
    TurningAt(lon, samples, r.jd, level, orbDeg) == turning && lo <= r.jd <= hi
  }

  lemma {:induction false} ClassifiedTakesIn(
    lon: real -> real, samples: seq<Sample>, boundaries: seq<Root>, level: real, orbDeg: real,
    turning: Turning, lo: real, hi: real, r: Root)
    requires samples != [] && r in boundaries && TurnsSo(lon, samples, level, orbDeg, turning, lo, hi, r)
    ensures r.jd in Classified(lon, samples, boundaries, level, orbDeg, turning, lo, hi)
    decreases |boundaries|
  {
    if r != boundaries[|boundaries| - 1] {
      ClassifiedTakesIn(lon, samples, boundaries[..|boundaries| - 1], level, orbDeg, turning, lo, hi, r);
    }
  }

  lemma {:induction false} ClassifiedComesFrom(
    lon: real -> real, samples: seq<Sample>, boundaries: seq<Root>, level: real, orbDeg: real,
    turning: Turning, lo: real, hi: real, t: real) returns (r: Root)
    requires samples != [] && t in Classified(lon, samples, boundaries, level, orbDeg, turning, lo, hi)
    ensures r in boundaries && r.jd == t && TurnsSo(lon, samples, level, orbDeg, turning, lo, hi, r)
    decreases |boundaries|
  {
    var init := boundaries[..|boundaries| - 1];
    if t in Classified(lon, samples, init, level, orbDeg, turning, lo, hi) {
      r := ClassifiedComesFrom(lon, samples, init, level, orbDeg, turning, lo, hi, t);
    } else {
      r := boundaries[|boundaries| - 1];
    }
  }

  /** Every recorded boundary root that turns so bounds the chosen end. */
  lemma {:induction false} EarliestEntry(
    lon: real -> real, samples: seq<Sample>, boundaries: seq<Root>, level: real, orbDeg: real, lo: real, hi: real, r: Root)
    requires samples != [] && r in boundaries && TurnsSo(lon, samples, level, orbDeg, Entry, lo, hi, r)
    ensures Least(Classified(lon, samples, boundaries, level, orbDeg, Entry, lo, hi)).Some?
    ensures Least(Classified(lon, samples, boundaries, level, orbDeg, Entry, lo, hi)).value <= r.jd
  {
    ClassifiedTakesIn(lon, samples, boundaries, level, orbDeg, Entry, lo, hi, r);
    LeastIsLeast(Classified(lon, samples, boundaries, level, orbDeg, Entry, lo, hi));
  }

  lemma {:induction false} LatestExit(
    lon: real -> real, samples: seq<Sample>, boundaries: seq<Root>, level: real, orbDeg: real, lo: real, hi: real, r: Root)
    requires samples != [] && r in boundaries && TurnsSo(lon, samples, level, orbDeg, Exit, lo, hi, r)
    ensures Greatest(Classified(lon, samples, boundaries, level, orbDeg, Exit, lo, hi)).Some?
    ensures r.jd <= Greatest(Classified(lon, samples, boundaries, level, orbDeg, Exit, lo, hi)).value
  {
    ClassifiedTakesIn(lon, samples, boundaries, level, orbDeg, Exit, lo, hi, r);
    GreatestIsGreatest(Classified(lon, samples, boundaries, level, orbDeg, Exit, lo, hi));
  }
}
