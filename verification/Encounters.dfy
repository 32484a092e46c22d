/** A proven encounter: when its solved ends enclose all in-orb time. */
module Encounters {
  import opened Optional
  import opened Angles
  import opened CyclePolicy
  import opened Sky
  import opened Stations
  import opened Brackets
  import opened RootScan
  import opened RootTheorems
  import opened Envelopes
  import opened EnvelopeTheorems
  import opened Slices
  import opened WindowIndependence
  import opened OrbBounds

  // ----- A proven encounter taken apart -----

  ghost predicate BoundariesOf(k: Track, samples: seq<Sample>, targetDeg: real, orbDeg: real, w: int, boundaries: seq<Root>) {
    boundaries == SortedByTime(
      Recorded(k, samples, BaseOf(targetDeg, orbDeg, true), w) + Recorded(k, samples, BaseOf(targetDeg, orbDeg, false), w))
  }

  /** What `EnvelopeOf` computes for a winding proven at `p` and `q`. */
  ghost predicate SolvedAs(
    k: Track, samples: seq<Sample>, targetDeg: real, orbDeg: real, w: int, arcDeg: real, p: real, q: real,
    level: real, boundaries: seq<Root>, first: Root, last: Root, start: Option<real>, end: Option<real>)
  {
    && ProvenAt(k, samples, targetDeg, orbDeg, w, arcDeg, p, q)
    && samples != [] && level == Level(targetDeg, w)
    && first in Recorded(k, samples, targetDeg, w) && last in Recorded(k, samples, targetDeg, w)
    && p < first.jd <= last.jd < q
    && BoundariesOf(k, samples, targetDeg, orbDeg, w, boundaries)
    && start == Least(Classified(k.lon, samples, boundaries, level, orbDeg, Entry, p, first.jd))
    && end == Greatest(Classified(k.lon, samples, boundaries, level, orbDeg, Exit, last.jd, q))
  }

  /** The envelope solved for one winding. */
  function Solved(k: Track, samples: seq<Sample>, targetDeg: real, orbDeg: real, w: int, arcDeg: real): Envelope
    requires LevelsOf(k, samples, targetDeg, orbDeg, w).exact != []
  {
    EnvelopeOf(k.lon, samples, LevelsOf(k, samples, targetDeg, orbDeg, w), Level(targetDeg, w), orbDeg, arcDeg)
  }

  lemma TakeApart(k: Track, samples: seq<Sample>, targetDeg: real, orbDeg: real, w: int, arcDeg: real, p: real, q: real)
    returns (boundaries: seq<Root>, first: Root, last: Root)
    requires ProvenAt(k, samples, targetDeg, orbDeg, w, arcDeg, p, q)
    ensures SolvedAs(k, samples, targetDeg, orbDeg, w, arcDeg, p, q, Level(targetDeg, w), boundaries, first, last,
                     Solved(k, samples, targetDeg, orbDeg, w, arcDeg).startJd,
                     Solved(k, samples, targetDeg, orbDeg, w, arcDeg).endJd)
  {
    var levels := LevelsOf(k, samples, targetDeg, orbDeg, w);
    FirstPassIsRecorded(levels.exact);
    var passes := SortedByTime(levels.exact);
    first, last := passes[0], passes[|passes| - 1];
    boundaries := SortedByTime(levels.lower + levels.upper);
    LevelsHoldTheBoundaries(k, samples, targetDeg, orbDeg, w, levels);
    var level, beyondReturn := Level(targetDeg, w), orbDeg + arcDeg;
    var i := ProvenLeftIsASample(samples, level, beyondReturn, first.jd);
    var j := ProvenRightIsASample(samples, level, beyondReturn, first.jd, last.jd);
  }

  lemma LevelsHoldTheBoundaries(k: Track, samples: seq<Sample>, targetDeg: real, orbDeg: real, w: int, levels: LevelRoots)
    requires levels == LevelsOf(k, samples, targetDeg, orbDeg, w)
    ensures BoundariesOf(k, samples, targetDeg, orbDeg, w, SortedByTime(levels.lower + levels.upper))
  {
  }

  // ----- Before the first pass and after the last -----

  /** A boundary instant is more than one clearance away from an instant on the level. */
  lemma BoundaryIsFarFromThePass(m: Motion, level: real, orbDeg: real, c: real, pass: real)
    requires SlowAcrossOrb(m, orbDeg) && 2.0 * ANGULAR_ZERO_TOLERANCE <= orbDeg
    requires OnBoundary(m, c, level, orbDeg) && OnLevel(m.lift(pass), level)
    ensures c < pass - CLEARANCE || pass + CLEARANCE < c
  {
    assert !HalfAnOrbApart(m, orbDeg, c, pass);
  }

  lemma FirstContactIsOnBoundary(m: Motion, level: real, orbDeg: real, c: real)
    requires Continuous(m.lift) && 0.0 <= orbDeg && FirstContact(m, c, level, orbDeg)
    ensures OnBoundary(m, c, level, orbDeg)
  {
    var b := BoundaryBetween(m, level, orbDeg, c - 1.0, c);
    assert InOrb(m, b, level, orbDeg);
  }

  lemma LastContactIsOnBoundary(m: Motion, level: real, orbDeg: real, c: real)
    requires Continuous(m.lift) && 0.0 <= orbDeg && LastContact(m, c, level, orbDeg)
    ensures OnBoundary(m, c, level, orbDeg)
  {
    var b := BoundaryBetween(m, level, orbDeg, c, c + 1.0);
    assert InOrb(m, b, level, orbDeg);
  }

  lemma RecordedOnEitherSide(
    k: Track, samples: seq<Sample>, targetDeg: real, orbDeg: real, w: int, below: bool, boundaries: seq<Root>, r: Root)
    requires BoundariesOf(k, samples, targetDeg, orbDeg, w, boundaries)
    requires r in Recorded(k, samples, BaseOf(targetDeg, orbDeg, below), w)
    ensures r in boundaries
  {
    SortingKeepsTheRoots(
      Recorded(k, samples, BaseOf(targetDeg, orbDeg, true), w) + Recorded(k, samples, BaseOf(targetDeg, orbDeg, false), w));
  }

  /** No in-orb instant is more than one root tolerance before the solved start. */
  ghost predicate BoundsFromBelow(m: Motion, start: Option<real>, level: real, orbDeg: real) {
    start.Some? && forall t :: InOrb(m, t, level, orbDeg) ==> start.value - HALF_ROOT_TOLERANCE <= t
  }

  /** No in-orb instant is more than one root tolerance after the solved end. */
  ghost predicate BoundsFromAbove(m: Motion, end: Option<real>, level: real, orbDeg: real) {
    end.Some? && forall t :: InOrb(m, t, level, orbDeg) ==> t <= end.value + HALF_ROOT_TOLERANCE
  }

  /** A boundary root no later than one root tolerance after `c` finds the body in orb one probe on. */
  ghost predicate EntryIsProbed(m: Motion, boundaries: seq<Root>, p: real, c: real, level: real, orbDeg: real) {
    exists r :: r in boundaries && p <= r.jd <= c + HALF_ROOT_TOLERANCE && InOrb(m, r.jd + BOUNDARY_PROBE, level, orbDeg)
  }

  /** A boundary root no earlier than one root tolerance before `c` finds the body in orb one probe back. */
  ghost predicate ExitIsProbed(m: Motion, boundaries: seq<Root>, q: real, c: real, level: real, orbDeg: real) {
    exists r :: r in boundaries && c - HALF_ROOT_TOLERANCE <= r.jd <= q && InOrb(m, r.jd - BOUNDARY_PROBE, level, orbDeg)
  }

  ghost predicate InSpan(samples: seq<Sample>, jd: real) {
    samples != [] && samples[0].jd <= jd <= samples[|samples| - 1].jd
  }

  lemma EntryTurns(k: Track, m: Motion, samples: seq<Sample>, reach: real, level: real, orbDeg: real, jd: real)
    requires Scene(k, m, samples, reach) && InSpan(samples, jd)
    ensures TurningAt(k.lon, samples, jd, level, orbDeg) == Entry
       <==> !InOrb(m, jd - BOUNDARY_PROBE, level, orbDeg) && InOrb(m, jd + BOUNDARY_PROBE, level, orbDeg)
    ensures TurningAt(k.lon, samples, jd, level, orbDeg) == Exit
       <==> InOrb(m, jd - BOUNDARY_PROBE, level, orbDeg) && !InOrb(m, jd + BOUNDARY_PROBE, level, orbDeg)
  {
    TurningIsTrue(k, m, samples, reach, jd, level, orbDeg);
  }

  /** A root near the first contact lies before the first pass. */
  lemma BeforeThePass(m: Motion, level: real, orbDeg: real, first: real, pass: real, c: real, jd: real)
    requires Continuous(m.lift) && SlowAcrossOrb(m, orbDeg) && 2.0 * ANGULAR_ZERO_TOLERANCE <= orbDeg
    requires OnLevel(m.lift(pass), level) && Abs(pass - first) <= HALF_ROOT_TOLERANCE
    requires FirstContact(m, c, level, orbDeg) && jd <= c + HALF_ROOT_TOLERANCE
    ensures jd <= first && !InOrb(m, jd - BOUNDARY_PROBE, level, orbDeg)
  {
    FirstContactIsOnBoundary(m, level, orbDeg, c);
    BoundaryIsFarFromThePass(m, level, orbDeg, c, pass);
    assert InOrb(m, pass, level, orbDeg);
  }

  lemma AfterThePass(m: Motion, level: real, orbDeg: real, last: real, pass: real, c: real, jd: real)
    requires Continuous(m.lift) && SlowAcrossOrb(m, orbDeg) && 2.0 * ANGULAR_ZERO_TOLERANCE <= orbDeg
    requires OnLevel(m.lift(pass), level) && Abs(pass - last) <= HALF_ROOT_TOLERANCE
    requires LastContact(m, c, level, orbDeg) && c - HALF_ROOT_TOLERANCE <= jd
    ensures last <= jd && !InOrb(m, jd + BOUNDARY_PROBE, level, orbDeg)
  {
    LastContactIsOnBoundary(m, level, orbDeg, c);
    BoundaryIsFarFromThePass(m, level, orbDeg, c, pass);
    assert InOrb(m, pass, level, orbDeg);
  }

  lemma {:induction false} EntryBounds(
    m: Motion, lon: real -> real, samples: seq<Sample>, level: real, orbDeg: real,
    boundaries: seq<Root>, p: real, first: real, c: real, r: Root)
    requires samples != [] && r in boundaries && TurnsSo(lon, samples, level, orbDeg, Entry, p, first, r)
    requires FirstContact(m, c, level, orbDeg) && r.jd <= c + HALF_ROOT_TOLERANCE
    ensures BoundsFromBelow(m, Least(Classified(lon, samples, boundaries, level, orbDeg, Entry, p, first)), level, orbDeg)
  {
    EarliestEntry(lon, samples, boundaries, level, orbDeg, p, first, r);
  }

  lemma {:induction false} ExitBounds(
    m: Motion, lon: real -> real, samples: seq<Sample>, level: real, orbDeg: real,
    boundaries: seq<Root>, q: real, last: real, c: real, r: Root)
    requires samples != [] && r in boundaries && TurnsSo(lon, samples, level, orbDeg, Exit, last, q, r)
    requires LastContact(m, c, level, orbDeg) && c - HALF_ROOT_TOLERANCE <= r.jd
    ensures BoundsFromAbove(m, Greatest(Classified(lon, samples, boundaries, level, orbDeg, Exit, last, q)), level, orbDeg)
  {
    LatestExit(lon, samples, boundaries, level, orbDeg, last, q, r);
  }

  lemma {:induction false} ProbedEntryTurnsSo(
    k: Track, m: Motion, samples: seq<Sample>, reach: real, level: real, orbDeg: real,
    p: real, first: real, pass: real, c: real, r: Root)
    requires Scene(k, m, samples, reach) && InSpan(samples, p) && InSpan(samples, first)
    requires SlowAcrossOrb(m, orbDeg) && 2.0 * ANGULAR_ZERO_TOLERANCE <= orbDeg
    requires OnLevel(m.lift(pass), level) && Abs(pass - first) <= HALF_ROOT_TOLERANCE
    requires FirstContact(m, c, level, orbDeg)
    requires p <= r.jd <= c + HALF_ROOT_TOLERANCE && InOrb(m, r.jd + BOUNDARY_PROBE, level, orbDeg)
    ensures TurnsSo(k.lon, samples, level, orbDeg, Entry, p, first, r)
  {
    BeforeThePass(m, level, orbDeg, first, pass, c, r.jd);
    EntryTurns(k, m, samples, reach, level, orbDeg, r.jd);
  }

  lemma {:induction false} ProbedExitTurnsSo(
    k: Track, m: Motion, samples: seq<Sample>, reach: real, level: real, orbDeg: real,
    q: real, last: real, pass: real, c: real, r: Root)
    requires Scene(k, m, samples, reach) && InSpan(samples, q) && InSpan(samples, last)
    requires SlowAcrossOrb(m, orbDeg) && 2.0 * ANGULAR_ZERO_TOLERANCE <= orbDeg
    requires OnLevel(m.lift(pass), level) && Abs(pass - last) <= HALF_ROOT_TOLERANCE
    requires LastContact(m, c, level, orbDeg)
    requires c - HALF_ROOT_TOLERANCE <= r.jd <= q && InOrb(m, r.jd - BOUNDARY_PROBE, level, orbDeg)
    ensures TurnsSo(k.lon, samples, level, orbDeg, Exit, last, q, r)
  {
    AfterThePass(m, level, orbDeg, last, pass, c, r.jd);
    EntryTurns(k, m, samples, reach, level, orbDeg, r.jd);
  }

  lemma {:induction false} BoundingStartIsARoot(
    m: Motion, lon: real -> real, samples: seq<Sample>, level: real, orbDeg: real,
    boundaries: seq<Root>, p: real, first: real, c: real) returns (r: Root)
    requires samples != [] && FirstContact(m, c, level, orbDeg)
    requires BoundsFromBelow(m, Least(Classified(lon, samples, boundaries, level, orbDeg, Entry, p, first)), level, orbDeg)
    ensures r in boundaries && r.jd <= c + HALF_ROOT_TOLERANCE && TurnsSo(lon, samples, level, orbDeg, Entry, p, first, r)
  {
    var entries := Classified(lon, samples, boundaries, level, orbDeg, Entry, p, first);
    LeastIsLeast(entries);
    r := ClassifiedComesFrom(lon, samples, boundaries, level, orbDeg, Entry, p, first, Least(entries).value);
  }

  lemma {:induction false} BoundingEndIsARoot(
    m: Motion, lon: real -> real, samples: seq<Sample>, level: real, orbDeg: real,
    boundaries: seq<Root>, q: real, last: real, c: real) returns (r: Root)
    requires samples != [] && LastContact(m, c, level, orbDeg)
    requires BoundsFromAbove(m, Greatest(Classified(lon, samples, boundaries, level, orbDeg, Exit, last, q)), level, orbDeg)
    ensures r in boundaries && c - HALF_ROOT_TOLERANCE <= r.jd && TurnsSo(lon, samples, level, orbDeg, Exit, last, q, r)
  {
    var exits := Classified(lon, samples, boundaries, level, orbDeg, Exit, last, q);
    GreatestIsGreatest(exits);
    r := ClassifiedComesFrom(lon, samples, boundaries, level, orbDeg, Exit, last, q, Greatest(exits).value);
  }

  // ----- When the solved ends bound all in-orb time -----

  /** The samples that prove an encounter are out of orb and enclose every in-orb instant. */
  lemma {:induction false} ProofSurrounds(
    k: Track, m: Motion, samples: seq<Sample>, reach: real,
    targetDeg: real, orbDeg: real, w: int, arcDeg: real, p: real, q: real) returns (i: int, n: int)
    requires Scene(k, m, samples, reach) && ExcursionAtMost(m, arcDeg) && 0.0 <= arcDeg
    requires ANGULAR_ZERO_TOLERANCE <= orbDeg
    requires ProvenAt(k, samples, targetDeg, orbDeg, w, arcDeg, p, q)
    ensures 0 <= i < |samples| && samples[i].jd == p && 0 <= n < |samples| && samples[n].jd == q
    ensures InSpan(samples, p) && InSpan(samples, q)
    ensures forall t :: t <= p || q <= t ==> !InOrb(m, t, Level(targetDeg, w), orbDeg)
  {
    ProofEncloses(k, m, samples, reach, targetDeg, orbDeg, w, arcDeg, p, q);
    i :| 0 <= i < |samples| && samples[i].jd == p;
    n :| 0 <= n < |samples| && samples[n].jd == q;
    TimesAscend(samples, 0, i);
    TimesAscend(samples, i, |samples| - 1);
    TimesAscend(samples, 0, n);
    TimesAscend(samples, n, |samples| - 1);
  }

  lemma PassIsInSpan(samples: seq<Sample>, p: real, q: real, jd: real)
    requires InSpan(samples, p) && InSpan(samples, q) && p <= jd <= q
    ensures InSpan(samples, jd)
  {
  }

  lemma {:induction false} EarliestEntryBoundsIff(
    k: Track, m: Motion, samples: seq<Sample>, reach: real, level: real, orbDeg: real,
    boundaries: seq<Root>, p: real, first: real, pass: real, c: real)
    requires Scene(k, m, samples, reach) && InSpan(samples, p) && InSpan(samples, first)
    requires SlowAcrossOrb(m, orbDeg) && 2.0 * ANGULAR_ZERO_TOLERANCE <= orbDeg
    requires OnLevel(m.lift(pass), level) && Abs(pass - first) <= HALF_ROOT_TOLERANCE
    requires FirstContact(m, c, level, orbDeg)
    ensures BoundsFromBelow(m, Least(Classified(k.lon, samples, boundaries, level, orbDeg, Entry, p, first)), level, orbDeg)
       <==> EntryIsProbed(m, boundaries, p, c, level, orbDeg)
  {
    if r :| r in boundaries && p <= r.jd <= c + HALF_ROOT_TOLERANCE && InOrb(m, r.jd + BOUNDARY_PROBE, level, orbDeg) {
      ProbedEntryTurnsSo(k, m, samples, reach, level, orbDeg, p, first, pass, c, r);
      EntryBounds(m, k.lon, samples, level, orbDeg, boundaries, p, first, c, r);
    } else if BoundsFromBelow(m, Least(Classified(k.lon, samples, boundaries, level, orbDeg, Entry, p, first)), level, orbDeg) {
      var start := BoundingStartIsARoot(m, k.lon, samples, level, orbDeg, boundaries, p, first, c);
      EntryTurns(k, m, samples, reach, level, orbDeg, start.jd);
    }
  }

  lemma {:induction false} LatestExitBoundsIff(
    k: Track, m: Motion, samples: seq<Sample>, reach: real, level: real, orbDeg: real,
    boundaries: seq<Root>, q: real, last: real, pass: real, c: real)
    requires Scene(k, m, samples, reach) && InSpan(samples, q) && InSpan(samples, last)
    requires SlowAcrossOrb(m, orbDeg) && 2.0 * ANGULAR_ZERO_TOLERANCE <= orbDeg
    requires OnLevel(m.lift(pass), level) && Abs(pass - last) <= HALF_ROOT_TOLERANCE
    requires LastContact(m, c, level, orbDeg)
    ensures BoundsFromAbove(m, Greatest(Classified(k.lon, samples, boundaries, level, orbDeg, Exit, last, q)), level, orbDeg)
       <==> ExitIsProbed(m, boundaries, q, c, level, orbDeg)
  {
    if r :| r in boundaries && c - HALF_ROOT_TOLERANCE <= r.jd <= q && InOrb(m, r.jd - BOUNDARY_PROBE, level, orbDeg) {
      ProbedExitTurnsSo(k, m, samples, reach, level, orbDeg, q, last, pass, c, r);
      ExitBounds(m, k.lon, samples, level, orbDeg, boundaries, q, last, c, r);
    } else if BoundsFromAbove(m, Greatest(Classified(k.lon, samples, boundaries, level, orbDeg, Exit, last, q)), level, orbDeg) {
      var end := BoundingEndIsARoot(m, k.lon, samples, level, orbDeg, boundaries, q, last, c);
      EntryTurns(k, m, samples, reach, level, orbDeg, end.jd);
    }
  }

  lemma PassNear(
    k: Track, m: Motion, samples: seq<Sample>, reach: real, base: real, w: int, level: real, r: Root) returns (pass: real)
    requires Scene(k, m, samples, reach) && r in Recorded(k, samples, base, w) && level == Level(base, w)
    ensures OnLevel(m.lift(pass), level) && Abs(pass - r.jd) <= HALF_ROOT_TOLERANCE
  {
    pass := RootStandsForAnInstant(k, m, samples, reach, base, w, r);
  }

  lemma {:induction false} StartIsAnEarliestEntry(
    k: Track, m: Motion, samples: seq<Sample>, reach: real,
    targetDeg: real, orbDeg: real, w: int, arcDeg: real, p: real, q: real)
    returns (boundaries: seq<Root>, first: real, pass: real)
    requires Scene(k, m, samples, reach) && ExcursionAtMost(m, arcDeg) && 0.0 <= arcDeg
    requires ANGULAR_ZERO_TOLERANCE <= orbDeg && ProvenAt(k, samples, targetDeg, orbDeg, w, arcDeg, p, q)
    ensures BoundariesOf(k, samples, targetDeg, orbDeg, w, boundaries)
    ensures InSpan(samples, p) && InSpan(samples, first)
    ensures OnLevel(m.lift(pass), Level(targetDeg, w)) && Abs(pass - first) <= HALF_ROOT_TOLERANCE
    ensures Solved(k, samples, targetDeg, orbDeg, w, arcDeg).startJd
         == Least(Classified(k.lon, samples, boundaries, Level(targetDeg, w), orbDeg, Entry, p, first))
  {
    var one, other;
    boundaries, one, other := TakeApart(k, samples, targetDeg, orbDeg, w, arcDeg, p, q);
    first := one.jd;
    var i, n := ProofSurrounds(k, m, samples, reach, targetDeg, orbDeg, w, arcDeg, p, q);
    PassIsInSpan(samples, p, q, first);
    pass := PassNear(k, m, samples, reach, targetDeg, w, Level(targetDeg, w), one);
  }

  lemma {:induction false} EndIsALatestExit(
    k: Track, m: Motion, samples: seq<Sample>, reach: real,
    targetDeg: real, orbDeg: real, w: int, arcDeg: real, p: real, q: real)
    returns (boundaries: seq<Root>, last: real, pass: real)
    requires Scene(k, m, samples, reach) && ExcursionAtMost(m, arcDeg) && 0.0 <= arcDeg
    requires ANGULAR_ZERO_TOLERANCE <= orbDeg && ProvenAt(k, samples, targetDeg, orbDeg, w, arcDeg, p, q)
    ensures BoundariesOf(k, samples, targetDeg, orbDeg, w, boundaries)
    ensures InSpan(samples, q) && InSpan(samples, last)
    ensures OnLevel(m.lift(pass), Level(targetDeg, w)) && Abs(pass - last) <= HALF_ROOT_TOLERANCE
    ensures Solved(k, samples, targetDeg, orbDeg, w, arcDeg).endJd
         == Greatest(Classified(k.lon, samples, boundaries, Level(targetDeg, w), orbDeg, Exit, last, q))
  {
    var one, other;
    boundaries, other, one := TakeApart(k, samples, targetDeg, orbDeg, w, arcDeg, p, q);
    last := one.jd;
    var i, n := ProofSurrounds(k, m, samples, reach, targetDeg, orbDeg, w, arcDeg, p, q);
    PassIsInSpan(samples, p, q, last);
    pass := PassNear(k, m, samples, reach, targetDeg, w, Level(targetDeg, w), one);
  }

  /** The solved start of a proven encounter bounds all in-orb time if and only if some boundary root,
      recorded no later than a second after the body first comes into orb, finds it in orb thirty seconds on. */
  lemma {:induction false} StartBoundsOrbTimeIff(
    k: Track, m: Motion, samples: seq<Sample>, reach: real,
    targetDeg: real, orbDeg: real, w: int, arcDeg: real, p: real, q: real, c: real) returns (boundaries: seq<Root>)
    requires Scene(k, m, samples, reach) && ExcursionAtMost(m, arcDeg) && 0.0 <= arcDeg
    requires SlowAcrossOrb(m, orbDeg) && 2.0 * ANGULAR_ZERO_TOLERANCE <= orbDeg
    requires ProvenAt(k, samples, targetDeg, orbDeg, w, arcDeg, p, q)
    requires FirstContact(m, c, Level(targetDeg, w), orbDeg)
    ensures BoundariesOf(k, samples, targetDeg, orbDeg, w, boundaries)
    ensures BoundsFromBelow(m, Solved(k, samples, targetDeg, orbDeg, w, arcDeg).startJd, Level(targetDeg, w), orbDeg)
       <==> EntryIsProbed(m, boundaries, p, c, Level(targetDeg, w), orbDeg)
  {
    var first, pass;
    boundaries, first, pass := StartIsAnEarliestEntry(k, m, samples, reach, targetDeg, orbDeg, w, arcDeg, p, q);
    EarliestEntryBoundsIff(k, m, samples, reach, Level(targetDeg, w), orbDeg, boundaries, p, first, pass, c);
  }

  /** The solved end bounds all in-orb time if and only if some boundary root, recorded no earlier than
      a second before the body last leaves orb, finds it in orb thirty seconds back. */
  lemma {:induction false} EndBoundsOrbTimeIff(
    k: Track, m: Motion, samples: seq<Sample>, reach: real,
    targetDeg: real, orbDeg: real, w: int, arcDeg: real, p: real, q: real, c: real) returns (boundaries: seq<Root>)
    requires Scene(k, m, samples, reach) && ExcursionAtMost(m, arcDeg) && 0.0 <= arcDeg
    requires SlowAcrossOrb(m, orbDeg) && 2.0 * ANGULAR_ZERO_TOLERANCE <= orbDeg
    requires ProvenAt(k, samples, targetDeg, orbDeg, w, arcDeg, p, q)
    requires LastContact(m, c, Level(targetDeg, w), orbDeg)
    ensures BoundariesOf(k, samples, targetDeg, orbDeg, w, boundaries)
    ensures BoundsFromAbove(m, Solved(k, samples, targetDeg, orbDeg, w, arcDeg).endJd, Level(targetDeg, w), orbDeg)
       <==> ExitIsProbed(m, boundaries, q, c, Level(targetDeg, w), orbDeg)
  {
    var last, pass;
    boundaries, last, pass := EndIsALatestExit(k, m, samples, reach, targetDeg, orbDeg, w, arcDeg, p, q);
    LatestExitBoundsIff(k, m, samples, reach, Level(targetDeg, w), orbDeg, boundaries, q, last, pass, c);
  }

  // ----- The condition, as the sky shows it -----

  /** The first crossing into orb is recorded in time, and its probe finds the body in orb. */
  ghost predicate EntrySeen(k: Track, m: Motion, samples: seq<Sample>, targetDeg: real, orbDeg: real, w: int, p: real) {
    exists c, boundaries :: FirstContact(m, c, Level(targetDeg, w), orbDeg)
      && BoundariesOf(k, samples, targetDeg, orbDeg, w, boundaries)
      && EntryIsProbed(m, boundaries, p, c, Level(targetDeg, w), orbDeg)
  }

  ghost predicate ExitSeen(k: Track, m: Motion, samples: seq<Sample>, targetDeg: real, orbDeg: real, w: int, q: real) {
    exists c, boundaries :: LastContact(m, c, Level(targetDeg, w), orbDeg)
      && BoundariesOf(k, samples, targetDeg, orbDeg, w, boundaries)
      && ExitIsProbed(m, boundaries, q, c, Level(targetDeg, w), orbDeg)
  }

  lemma {:induction false} SeenEntryBounds(
    k: Track, m: Motion, samples: seq<Sample>, reach: real,
    targetDeg: real, orbDeg: real, w: int, arcDeg: real, p: real, q: real)
    requires Scene(k, m, samples, reach) && ExcursionAtMost(m, arcDeg) && 0.0 <= arcDeg
    requires SlowAcrossOrb(m, orbDeg) && 2.0 * ANGULAR_ZERO_TOLERANCE <= orbDeg
    requires ProvenAt(k, samples, targetDeg, orbDeg, w, arcDeg, p, q) && EntrySeen(k, m, samples, targetDeg, orbDeg, w, p)
    ensures BoundsFromBelow(m, Solved(k, samples, targetDeg, orbDeg, w, arcDeg).startJd, Level(targetDeg, w), orbDeg)
  {
    var c, boundaries :| FirstContact(m, c, Level(targetDeg, w), orbDeg)
      && BoundariesOf(k, samples, targetDeg, orbDeg, w, boundaries)
      && EntryIsProbed(m, boundaries, p, c, Level(targetDeg, w), orbDeg);
    var same := StartBoundsOrbTimeIff(k, m, samples, reach, targetDeg, orbDeg, w, arcDeg, p, q, c);
    assert same == boundaries;
  }

  lemma {:induction false} SeenExitBounds(
    k: Track, m: Motion, samples: seq<Sample>, reach: real,
    targetDeg: real, orbDeg: real, w: int, arcDeg: real, p: real, q: real)
    requires Scene(k, m, samples, reach) && ExcursionAtMost(m, arcDeg) && 0.0 <= arcDeg
    requires SlowAcrossOrb(m, orbDeg) && 2.0 * ANGULAR_ZERO_TOLERANCE <= orbDeg
    requires ProvenAt(k, samples, targetDeg, orbDeg, w, arcDeg, p, q) && ExitSeen(k, m, samples, targetDeg, orbDeg, w, q)
    ensures BoundsFromAbove(m, Solved(k, samples, targetDeg, orbDeg, w, arcDeg).endJd, Level(targetDeg, w), orbDeg)
  {
    var c, boundaries :| LastContact(m, c, Level(targetDeg, w), orbDeg)
      && BoundariesOf(k, samples, targetDeg, orbDeg, w, boundaries)
      && ExitIsProbed(m, boundaries, q, c, Level(targetDeg, w), orbDeg);
    var same := EndBoundsOrbTimeIff(k, m, samples, reach, targetDeg, orbDeg, w, arcDeg, p, q, c);
    assert same == boundaries;
  }

  /** No sample of the last thirty seconds before `c` counts as lying on the orb boundary. */
  ghost predicate ClearBefore(samples: seq<Sample>, c: real, level: real, orbDeg: real) {
    forall i :: 0 <= i < |samples| && c - BOUNDARY_PROBE <= samples[i].jd < c ==> OffBoundary(samples[i], level, orbDeg)
  }

  /** Nor of the first thirty seconds after it. */
  ghost predicate ClearAfter(samples: seq<Sample>, c: real, level: real, orbDeg: real) {
    forall i :: 0 <= i < |samples| && c < samples[i].jd <= c + BOUNDARY_PROBE ==> OffBoundary(samples[i], level, orbDeg)
  }

  lemma {:induction false} BoundaryRootStandsFor(
    k: Track, m: Motion, samples: seq<Sample>, reach: real, targetDeg: real, orbDeg: real, w: int,
    level: real, boundaries: seq<Root>, r: Root) returns (boundary: real)
    requires Scene(k, m, samples, reach) && level == Level(targetDeg, w)
    requires BoundariesOf(k, samples, targetDeg, orbDeg, w, boundaries) && r in boundaries
    ensures boundary == level - orbDeg || boundary == level + orbDeg
    ensures Genuine(m, samples, boundary, r)
  {
    var low, high := BaseOf(targetDeg, orbDeg, true), BaseOf(targetDeg, orbDeg, false);
    SortingKeepsTheRoots(Recorded(k, samples, low, w) + Recorded(k, samples, high, w));
    var base := if r in Recorded(k, samples, low, w) then low else high;
    boundary := Level(base, w);
    RecordedRootsAreGenuine(k, m, samples, reach, base, w, r);
  }

  lemma ProbedRootIsNotEarly(
    k: Track, m: Motion, samples: seq<Sample>, reach: real, level: real, orbDeg: real, boundary: real, c: real, r: Root)
    requires Scene(k, m, samples, reach) && 0.0 <= orbDeg && (boundary == level - orbDeg || boundary == level + orbDeg)
    requires Genuine(m, samples, boundary, r) && FirstContact(m, c, level, orbDeg) && ClearBefore(samples, c, level, orbDeg)
    requires InOrb(m, r.jd + BOUNDARY_PROBE, level, orbDeg)
    ensures c - HALF_ROOT_TOLERANCE <= r.jd
  {
    if OnALevelledSample(m, samples, boundary, r) {
      var i :| 0 <= i < |samples| && r.jd == samples[i].jd && OnLevel(m.lift(r.jd), boundary);
      assert TrueSample(k, m, samples[i]);
    } else {
      CrossedInOrb(m, samples, level, orbDeg, boundary, r);
    }
  }

  lemma CrossedInOrb(m: Motion, samples: seq<Sample>, level: real, orbDeg: real, boundary: real, r: Root)
    requires 0.0 <= orbDeg && (boundary == level - orbDeg || boundary == level + orbDeg)
    requires Genuine(m, samples, boundary, r) && !OnALevelledSample(m, samples, boundary, r)
    ensures exists t :: InOrb(m, t, level, orbDeg) && Abs(r.jd - t) <= HALF_ROOT_TOLERANCE
  {
    var i := GenuineOffTheSamples(m, samples, boundary, r);
    var t :| samples[i].jd <= t <= samples[i + 1].jd && m.lift(t) == boundary && Abs(r.jd - t) <= HALF_ROOT_TOLERANCE;
    BoundaryIsInOrb(m, t, level, orbDeg);
  }

  lemma ProbedRootIsNotLate(
    k: Track, m: Motion, samples: seq<Sample>, reach: real, level: real, orbDeg: real, boundary: real, c: real, r: Root)
    requires Scene(k, m, samples, reach) && 0.0 <= orbDeg && (boundary == level - orbDeg || boundary == level + orbDeg)
    requires Genuine(m, samples, boundary, r) && LastContact(m, c, level, orbDeg) && ClearAfter(samples, c, level, orbDeg)
    requires InOrb(m, r.jd - BOUNDARY_PROBE, level, orbDeg)
    ensures r.jd <= c + HALF_ROOT_TOLERANCE
  {
    if OnALevelledSample(m, samples, boundary, r) {
      var i :| 0 <= i < |samples| && r.jd == samples[i].jd && OnLevel(m.lift(r.jd), boundary);
      assert TrueSample(k, m, samples[i]);
    } else {
      CrossedInOrb(m, samples, level, orbDeg, boundary, r);
    }
  }

  /** The solved start bounds all in-orb time only if the body is in orb thirty seconds after it first comes
      into orb, up to the root tolerance. */
  lemma {:induction false} StartNeedsTheBodyInOrb(
    k: Track, m: Motion, samples: seq<Sample>, reach: real,
    targetDeg: real, orbDeg: real, w: int, arcDeg: real, p: real, q: real, c: real) returns (u: real)
    requires Scene(k, m, samples, reach) && ExcursionAtMost(m, arcDeg) && 0.0 <= arcDeg
    requires SlowAcrossOrb(m, orbDeg) && 2.0 * ANGULAR_ZERO_TOLERANCE <= orbDeg
    requires ProvenAt(k, samples, targetDeg, orbDeg, w, arcDeg, p, q)
    requires FirstContact(m, c, Level(targetDeg, w), orbDeg) && ClearBefore(samples, c, Level(targetDeg, w), orbDeg)
    requires BoundsFromBelow(m, Solved(k, samples, targetDeg, orbDeg, w, arcDeg).startJd, Level(targetDeg, w), orbDeg)
    ensures c + BOUNDARY_PROBE - HALF_ROOT_TOLERANCE <= u <= c + BOUNDARY_PROBE + HALF_ROOT_TOLERANCE
    ensures InOrb(m, u, Level(targetDeg, w), orbDeg)
  {
    var level := Level(targetDeg, w);
    var boundaries := StartBoundsOrbTimeIff(k, m, samples, reach, targetDeg, orbDeg, w, arcDeg, p, q, c);
    var r :| r in boundaries && p <= r.jd <= c + HALF_ROOT_TOLERANCE && InOrb(m, r.jd + BOUNDARY_PROBE, level, orbDeg);
    var boundary := BoundaryRootStandsFor(k, m, samples, reach, targetDeg, orbDeg, w, level, boundaries, r);
    ProbedRootIsNotEarly(k, m, samples, reach, level, orbDeg, boundary, c, r);
    u := r.jd + BOUNDARY_PROBE;
  }

  /** The solved end bounds all in-orb time only if the body is in orb thirty seconds before it last leaves. */
  lemma {:induction false} EndNeedsTheBodyInOrb(
    k: Track, m: Motion, samples: seq<Sample>, reach: real,
    targetDeg: real, orbDeg: real, w: int, arcDeg: real, p: real, q: real, c: real) returns (u: real)
    requires Scene(k, m, samples, reach) && ExcursionAtMost(m, arcDeg) && 0.0 <= arcDeg
    requires SlowAcrossOrb(m, orbDeg) && 2.0 * ANGULAR_ZERO_TOLERANCE <= orbDeg
    requires ProvenAt(k, samples, targetDeg, orbDeg, w, arcDeg, p, q)
    requires LastContact(m, c, Level(targetDeg, w), orbDeg) && ClearAfter(samples, c, Level(targetDeg, w), orbDeg)
    requires BoundsFromAbove(m, Solved(k, samples, targetDeg, orbDeg, w, arcDeg).endJd, Level(targetDeg, w), orbDeg)
    ensures c - BOUNDARY_PROBE - HALF_ROOT_TOLERANCE <= u <= c - BOUNDARY_PROBE + HALF_ROOT_TOLERANCE
    ensures InOrb(m, u, Level(targetDeg, w), orbDeg)
  {
    var level := Level(targetDeg, w);
    var boundaries := EndBoundsOrbTimeIff(k, m, samples, reach, targetDeg, orbDeg, w, arcDeg, p, q, c);
    var r :| r in boundaries && c - HALF_ROOT_TOLERANCE <= r.jd <= q && InOrb(m, r.jd - BOUNDARY_PROBE, level, orbDeg);
    var boundary := BoundaryRootStandsFor(k, m, samples, reach, targetDeg, orbDeg, w, level, boundaries, r);
    ProbedRootIsNotLate(k, m, samples, reach, level, orbDeg, boundary, c, r);
    u := r.jd - BOUNDARY_PROBE;
  }

  // ----- A clean outermost crossing -----

  /** The first bracket in orb is tame. */
  ghost predicate EntryIsTame(m: Motion, samples: seq<Sample>, level: real, orbDeg: real) {
    forall j :: FirstInOrb(m, samples, level, orbDeg, j) ==> TameAt(m, samples, j)
  }

  /** The last bracket in orb is tame. */
  ghost predicate ExitIsTame(m: Motion, samples: seq<Sample>, level: real, orbDeg: real) {
    forall j :: LastInOrb(m, samples, level, orbDeg, j) ==> TameAt(m, samples, j)
  }

  /** A clean first crossing has a root that finds the body in orb one probe on. */
  lemma {:induction false} CleanEntryIsProbed(
    k: Track, m: Motion, samples: seq<Sample>, reach: real, targetDeg: real, level: real, orbDeg: real, w: int, i: int, u: real)
    returns (below: bool, r: Root, c: real)
    requires Scene(k, m, samples, reach) && EntryIsTame(m, samples, level, orbDeg) && 0.0 < orbDeg && level == Level(targetDeg, w)
    requires CleanEntry(m, samples, level, orbDeg)
    requires 0 <= i < |samples| && (forall t :: t <= samples[i].jd ==> !InOrb(m, t, level, orbDeg))
    requires u <= samples[|samples| - 1].jd && InOrb(m, u, level, orbDeg)
    ensures FirstContact(m, c, level, orbDeg) && r in Recorded(k, samples, BaseOf(targetDeg, orbDeg, below), w)
    ensures samples[i].jd <= r.jd <= c + HALF_ROOT_TOLERANCE && InOrb(m, r.jd + BOUNDARY_PROBE, level, orbDeg)
  {
    var j := FirstBracket(m, samples, level, orbDeg, i, u);
    below := m.lift(samples[j].jd) < level;
    assert TameAt(m, samples, j);
    r, c := EntryIsRecorded(k, m, samples, reach, targetDeg, level, orbDeg, w, j);
    assert InOrb(m, r.jd + BOUNDARY_PROBE, level, orbDeg);
    TimesAscend(samples, i, j);
  }

  lemma {:induction false} CleanExitIsProbed(
    k: Track, m: Motion, samples: seq<Sample>, reach: real, targetDeg: real, level: real, orbDeg: real, w: int, n: int, u: real)
    returns (below: bool, r: Root, c: real)
    requires Scene(k, m, samples, reach) && ExitIsTame(m, samples, level, orbDeg) && 0.0 < orbDeg && level == Level(targetDeg, w)
    requires CleanExit(m, samples, level, orbDeg)
    requires 0 <= n < |samples| && (forall t :: samples[n].jd <= t ==> !InOrb(m, t, level, orbDeg))
    requires samples[0].jd <= u && InOrb(m, u, level, orbDeg)
    ensures LastContact(m, c, level, orbDeg) && r in Recorded(k, samples, BaseOf(targetDeg, orbDeg, below), w)
    ensures c - HALF_ROOT_TOLERANCE <= r.jd <= samples[n].jd && InOrb(m, r.jd - BOUNDARY_PROBE, level, orbDeg)
  {
    var j := LastBracket(m, samples, level, orbDeg, n, u);
    below := m.lift(samples[j + 1].jd) < level;
    assert TameAt(m, samples, j);
    r, c := ExitIsRecorded(k, m, samples, reach, targetDeg, level, orbDeg, w, j);
    assert InOrb(m, r.jd - BOUNDARY_PROBE, level, orbDeg);
    TimesAscend(samples, j + 1, n);
  }

  lemma PassInOrbInSpan(
    k: Track, m: Motion, samples: seq<Sample>, reach: real, targetDeg: real, level: real, orbDeg: real, w: int, first: Root)
    returns (pass: real)
    requires Scene(k, m, samples, reach) && ANGULAR_ZERO_TOLERANCE <= orbDeg && level == Level(targetDeg, w)
    requires first in Recorded(k, samples, targetDeg, w)
    ensures InOrb(m, pass, level, orbDeg) && InSpan(samples, pass)
  {
    pass := RootStandsForAnInstant(k, m, samples, reach, targetDeg, w, first);
    if first.jd == samples[0].jd || first.jd == samples[|samples| - 1].jd {
      pass := first.jd;
      EndRootIsOnLevel(k, m, samples, reach, targetDeg, w, first);
    }
  }

  lemma EndRootIsOnLevel(k: Track, m: Motion, samples: seq<Sample>, reach: real, base: real, w: int, r: Root)
    requires Scene(k, m, samples, reach) && r in Recorded(k, samples, base, w)
    requires samples != [] && (r.jd == samples[0].jd || r.jd == samples[|samples| - 1].jd)
    ensures OnLevel(m.lift(r.jd), Level(base, w))
  {
    RecordedRootsAreGenuine(k, m, samples, reach, base, w, r);
    forall i | 0 <= i < |samples| - 1 && samples[i].jd < r.jd < samples[i + 1].jd
      ensures false
    {
      TimesAscend(samples, 0, i);
      TimesAscend(samples, i + 1, |samples| - 1);
    }
  }

  lemma {:induction false} EntryProbedByRecord(
    k: Track, m: Motion, samples: seq<Sample>, targetDeg: real, level: real, orbDeg: real, w: int,
    below: bool, boundaries: seq<Root>, p: real, c: real, r: Root)
    requires BoundariesOf(k, samples, targetDeg, orbDeg, w, boundaries)
    requires r in Recorded(k, samples, BaseOf(targetDeg, orbDeg, below), w)
    requires p <= r.jd <= c + HALF_ROOT_TOLERANCE && InOrb(m, r.jd + BOUNDARY_PROBE, level, orbDeg)
    ensures EntryIsProbed(m, boundaries, p, c, level, orbDeg)
  {
    RecordedOnEitherSide(k, samples, targetDeg, orbDeg, w, below, boundaries, r);
  }

  lemma {:induction false} ExitProbedByRecord(
    k: Track, m: Motion, samples: seq<Sample>, targetDeg: real, level: real, orbDeg: real, w: int,
    below: bool, boundaries: seq<Root>, q: real, c: real, r: Root)
    requires BoundariesOf(k, samples, targetDeg, orbDeg, w, boundaries)
    requires r in Recorded(k, samples, BaseOf(targetDeg, orbDeg, below), w)
    requires c - HALF_ROOT_TOLERANCE <= r.jd <= q && InOrb(m, r.jd - BOUNDARY_PROBE, level, orbDeg)
    ensures ExitIsProbed(m, boundaries, q, c, level, orbDeg)
  {
    RecordedOnEitherSide(k, samples, targetDeg, orbDeg, w, below, boundaries, r);
  }

  lemma {:induction false} ProofHoldsAPass(
    k: Track, m: Motion, samples: seq<Sample>, reach: real,
    targetDeg: real, orbDeg: real, w: int, arcDeg: real, p: real, q: real) returns (pass: real)
    requires Scene(k, m, samples, reach) && ANGULAR_ZERO_TOLERANCE <= orbDeg
    requires ProvenAt(k, samples, targetDeg, orbDeg, w, arcDeg, p, q)
    ensures InOrb(m, pass, Level(targetDeg, w), orbDeg) && InSpan(samples, pass)
  {
    var exact, level := Recorded(k, samples, targetDeg, w), Level(targetDeg, w);
    assert exact[0] in exact;
    pass := PassInOrbInSpan(k, m, samples, reach, targetDeg, level, orbDeg, w, exact[0]);
  }

  /** A proven encounter with a clean entry has an entry that is seen. */
  lemma {:induction false} CleanEntryIsSeen(
    k: Track, m: Motion, samples: seq<Sample>, reach: real,
    targetDeg: real, orbDeg: real, w: int, arcDeg: real, p: real, q: real)
    requires Scene(k, m, samples, reach) && ExcursionAtMost(m, arcDeg) && 0.0 <= arcDeg && 0.0 < orbDeg
    requires EntryIsTame(m, samples, Level(targetDeg, w), orbDeg) && CleanEntry(m, samples, Level(targetDeg, w), orbDeg)
    requires ANGULAR_ZERO_TOLERANCE <= orbDeg && ProvenAt(k, samples, targetDeg, orbDeg, w, arcDeg, p, q)
    ensures EntrySeen(k, m, samples, targetDeg, orbDeg, w, p)
  {
    var i, n := ProofSurrounds(k, m, samples, reach, targetDeg, orbDeg, w, arcDeg, p, q);
    var pass := ProofHoldsAPass(k, m, samples, reach, targetDeg, orbDeg, w, arcDeg, p, q);
    var below, r, c := CleanEntryIsProbed(k, m, samples, reach, targetDeg, Level(targetDeg, w), orbDeg, w, i, pass);
    var boundaries := SortedByTime(
      Recorded(k, samples, BaseOf(targetDeg, orbDeg, true), w) + Recorded(k, samples, BaseOf(targetDeg, orbDeg, false), w));
    EntryProbedByRecord(k, m, samples, targetDeg, Level(targetDeg, w), orbDeg, w, below, boundaries, p, c, r);
  }

  /** And with a clean exit an exit that is seen. */
  lemma {:induction false} CleanExitIsSeen(
    k: Track, m: Motion, samples: seq<Sample>, reach: real,
    targetDeg: real, orbDeg: real, w: int, arcDeg: real, p: real, q: real)
    requires Scene(k, m, samples, reach) && ExcursionAtMost(m, arcDeg) && 0.0 <= arcDeg && 0.0 < orbDeg
    requires ExitIsTame(m, samples, Level(targetDeg, w), orbDeg) && CleanExit(m, samples, Level(targetDeg, w), orbDeg)
    requires ANGULAR_ZERO_TOLERANCE <= orbDeg && ProvenAt(k, samples, targetDeg, orbDeg, w, arcDeg, p, q)
    ensures ExitSeen(k, m, samples, targetDeg, orbDeg, w, q)
  {
    var i, n := ProofSurrounds(k, m, samples, reach, targetDeg, orbDeg, w, arcDeg, p, q);
    var pass := ProofHoldsAPass(k, m, samples, reach, targetDeg, orbDeg, w, arcDeg, p, q);
    var below, r, c := CleanExitIsProbed(k, m, samples, reach, targetDeg, Level(targetDeg, w), orbDeg, w, n, pass);
    var boundaries := SortedByTime(
      Recorded(k, samples, BaseOf(targetDeg, orbDeg, true), w) + Recorded(k, samples, BaseOf(targetDeg, orbDeg, false), w));
    ExitProbedByRecord(k, m, samples, targetDeg, Level(targetDeg, w), orbDeg, w, below, boundaries, q, c, r);
  }

  // ----- A span that is wide enough proves what it crosses -----

  /** The list starts beyond return on one side of the level and ends beyond return on the other. */
  ghost predicate EndsBeyond(samples: seq<Sample>, level: real, beyondReturn: real) {
    samples != []
    && var a, b := samples[0].lift - level, samples[|samples| - 1].lift - level;
       (a < -beyondReturn && beyondReturn < b) || (beyondReturn < a && b < -beyondReturn)
  }

  lemma {:induction false} LeavesItsSide(samples: seq<Sample>, level: real, i: int) returns (j: int)
    requires 0 <= i < |samples| && !OnLevel(samples[i].lift, level)
    requires Sign(samples[|samples| - 1].lift - level) != Sign(samples[i].lift - level)
    ensures i <= j < |samples| - 1 && !OnLevel(samples[j].lift, level)
    ensures OnLevel(samples[j + 1].lift, level) || ChangesSides(samples[j].lift, samples[j + 1].lift, level)
    decreases |samples| - i
  {
    var next := samples[i + 1].lift;
    if OnLevel(next, level) || Sign(next - level) != Sign(samples[i].lift - level) {
      j := i;
    } else {
      j := LeavesItsSide(samples, level, i + 1);
    }
  }

  /** A list whose ends are on different sides of the level records a pass. */
  lemma {:induction false} CrossedListHasAPass(k: Track, m: Motion, samples: seq<Sample>, reach: real, base: real, w: int)
    requires Scene(k, m, samples, reach) && samples != [] && !OnLevel(samples[0].lift, Level(base, w))
    requires Sign(samples[|samples| - 1].lift - Level(base, w)) != Sign(samples[0].lift - Level(base, w))
    ensures Recorded(k, samples, base, w) != []
  {
    var j := LeavesItsSide(samples, Level(base, w), 0);
    if OnLevel(samples[j + 1].lift, Level(base, w)) {
      assert TrueSample(k, m, samples[j + 1]);
      LevelledSamplesAreRecorded(k, m, samples, reach, base, w, j + 1);
    } else {
      assert TrueSample(k, m, samples[j + 1]);
      BracketIsWithinReach(k, m, samples, reach, j);
      ChangedSidesIsSolved(k, samples[j], samples[j + 1], base, w);
      EventIsRepresented(k, samples, base, w, j, BracketRoot(k, samples[j], samples[j + 1], Level(base, w)));
    }
  }

  lemma {:induction false} PassIsStrictlyInside(
    k: Track, m: Motion, samples: seq<Sample>, reach: real, base: real, w: int, level: real, beyondReturn: real, r: Root)
    requires Scene(k, m, samples, reach) && level == Level(base, w) && ANGULAR_ZERO_TOLERANCE <= beyondReturn
    requires EndsBeyond(samples, level, beyondReturn) && r in Recorded(k, samples, base, w)
    ensures samples[0].jd < r.jd < samples[|samples| - 1].jd
  {
    var t := RootStandsForAnInstant(k, m, samples, reach, base, w, r);
    assert TrueSample(k, m, samples[0]) && TrueSample(k, m, samples[|samples| - 1]);
    if r.jd == samples[0].jd || r.jd == samples[|samples| - 1].jd {
      EndRootIsOnLevel(k, m, samples, reach, base, w, r);
    }
  }

  lemma {:induction false} BoundsExist(samples: seq<Sample>, level: real, beyondReturn: real, first: real, last: real)
    requires EndsBeyond(samples, level, beyondReturn) && 0.0 <= beyondReturn
    requires samples[0].jd < first <= last < samples[|samples| - 1].jd
    ensures ProvenLeft(samples, level, beyondReturn, first).Some?
    ensures ProvenRight(samples, level, beyondReturn, first, last).Some?
  {
    SomeProvenLeft(samples, level, beyondReturn, first, 0);
    NoProvenRight(samples, level, beyondReturn, first, last);
    assert Beyond(samples[|samples| - 1], level, beyondReturn);
  }

  lemma {:induction false} PassesAreStrictlyInside(
    k: Track, m: Motion, samples: seq<Sample>, reach: real, base: real, w: int, level: real, beyondReturn: real)
    returns (first: real, last: real)
    requires Scene(k, m, samples, reach) && level == Level(base, w) && ANGULAR_ZERO_TOLERANCE <= beyondReturn
    requires EndsBeyond(samples, level, beyondReturn)
    ensures var exact := Recorded(k, samples, base, w);
      && exact != [] && |SortedByTime(exact)| == |exact|
      && first == SortedByTime(exact)[0].jd && last == SortedByTime(exact)[|exact| - 1].jd
    ensures samples[0].jd < first <= last < samples[|samples| - 1].jd
  {
    CrossedListHasAPass(k, m, samples, reach, base, w);
    var exact := Recorded(k, samples, base, w);
    FirstPassIsRecorded(exact);
    var passes := SortedByTime(exact);
    first, last := passes[0].jd, passes[|passes| - 1].jd;
    PassIsStrictlyInside(k, m, samples, reach, base, w, level, beyondReturn, passes[0]);
    PassIsStrictlyInside(k, m, samples, reach, base, w, level, beyondReturn, passes[|passes| - 1]);
  }

  lemma {:induction false} ProvenFromItsBounds(
    k: Track, samples: seq<Sample>, targetDeg: real, orbDeg: real, w: int, arcDeg: real, level: real,
    first: real, last: real, p: real, q: real)
    requires level == Level(targetDeg, w)
    requires var exact := Recorded(k, samples, targetDeg, w);
      && exact != [] && |SortedByTime(exact)| == |exact|
      && first == SortedByTime(exact)[0].jd && last == SortedByTime(exact)[|exact| - 1].jd
    requires ProvenLeft(samples, level, orbDeg + arcDeg, first) == Some(p)
    requires ProvenRight(samples, level, orbDeg + arcDeg, first, last) == Some(q)
    ensures ProvenAt(k, samples, targetDeg, orbDeg, w, arcDeg, p, q)
  {
  }

  /** A span that reaches beyond return on either side proves the encounter it crosses, so lookaround
      is all that an undecided encounter lacks. */
  lemma {:induction false} CrossedSpanIsProven(
    k: Track, m: Motion, samples: seq<Sample>, reach: real, targetDeg: real, orbDeg: real, w: int, arcDeg: real)
    returns (p: real, q: real)
    requires Scene(k, m, samples, reach) && ANGULAR_ZERO_TOLERANCE <= orbDeg && 0.0 <= arcDeg
    requires EndsBeyond(samples, Level(targetDeg, w), orbDeg + arcDeg)
    ensures ProvenAt(k, samples, targetDeg, orbDeg, w, arcDeg, p, q)
  {
    var level, beyondReturn := Level(targetDeg, w), orbDeg + arcDeg;
    var first, last := PassesAreStrictlyInside(k, m, samples, reach, targetDeg, w, level, beyondReturn);
    BoundsExist(samples, level, beyondReturn, first, last);
    p := ProvenLeft(samples, level, beyondReturn, first).value;
    q := ProvenRight(samples, level, beyondReturn, first, last).value;
    ProvenFromItsBounds(k, samples, targetDeg, orbDeg, w, arcDeg, level, first, last, p, q);
  }
}
