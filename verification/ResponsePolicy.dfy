/** Every answer of the scan meets the independent response policy. */
module ResponsePolicy {
  import opened Optional
  import opened Angles
  import opened CyclePolicy
  import opened Stations
  import opened RootScan
  import opened RootTheorems
  import opened Envelopes
  import opened EnvelopeTheorems
  import opened Slices
  import opened Scan
  import opened Rendering

  // ----- The policy -----

  ghost predicate PassesMeetPolicy(c: NormalizedCycle) {
    && c.passCount == |c.passes|
    && c.passes != [] && c.exactAt == c.passes[0].exactAt
    && (forall i :: 0 <= i < |c.passes| ==> c.passes[i].index == i + 1)
    && (forall i, j :: 0 <= i < j < |c.passes| ==> c.passes[i].exactAt < c.passes[j].exactAt)
    && c.startAt <= c.endAt
    && (forall i :: 0 <= i < |c.passes| ==> c.startAt <= c.passes[i].exactAt <= c.endAt)
  }

  ghost predicate DistinctIds(cycles: seq<NormalizedCycle>) {
    forall i, j :: 0 <= i < j < |cycles| ==> cycles[i].id != cycles[j].id
  }

  ghost predicate ComesNoLater(a: NormalizedCycle, b: NormalizedCycle) {
    a.exactAt <= b.exactAt && (a.exactAt == b.exactAt ==> a.id <= b.id)
  }

  ghost predicate Ordered(cycles: seq<NormalizedCycle>) {
    forall i, j :: 0 <= i < j < |cycles| ==> ComesNoLater(cycles[i], cycles[j])
  }

  ghost predicate MeetsPolicy(cycles: seq<NormalizedCycle>) {
    DistinctIds(cycles) && Ordered(cycles) && forall c :: c in cycles ==> PassesMeetPolicy(c)
  }

  ghost predicate Injective(digest: CycleIdentity -> int) {
    forall a, b :: digest(a) == digest(b) ==> a == b
  }

  // ----- Passes -----

  /** More than the dedupe tolerance apart is more than a whole second apart after rounding. */
  lemma SeparatedRoundsApart(a: real, b: real)
    requires a + ROOT_DEDUPE_TOLERANCE < b
    ensures Seconds1970(a) < Seconds1970(b)
  {
  }

  lemma {:induction false} InsertedStaysSeparated(roots: seq<Root>, root: Root)
    requires Separated(roots) && forall r :: r in roots ==> !SamePhysicalEvent(r, root)
    ensures Separated(Inserted(roots, root))
    ensures forall r :: r in Inserted(roots, root) <==> r in roots || r == root
  {
    if roots != [] && !(root.jd < roots[0].jd) {
      InsertedStaysSeparated(roots[1..], root);
      var rest := Inserted(roots[1..], root);
      forall j | 0 <= j < |rest|
        ensures !SamePhysicalEvent(roots[0], rest[j])
      {
        if rest[j] != root {
          assert rest[j] in rest;
          var i :| 0 <= i < |roots[1..]| && roots[1..][i] == rest[j];
          assert roots[i + 1] == rest[j];
        }
      }
      assert Inserted(roots, root) == [roots[0]] + rest;
    } else {
      assert forall i :: 0 <= i < |roots| ==> roots[i] in roots;
      assert Inserted(roots, root) == [root] + roots;
    }
  }

  lemma {:induction false} SortedStaysSeparated(roots: seq<Root>)
    requires Separated(roots)
    ensures Separated(SortedByTime(roots))
  {
    if roots != [] {
      var init := roots[..|roots| - 1];
      SortedStaysSeparated(init);
      SortingKeepsTheRoots(init);
      InsertedStaysSeparated(SortedByTime(init), roots[|roots| - 1]);
    }
  }

  /** The pass times of one encounter ascend strictly, in whole seconds. */
  lemma {:induction false} PassTimesAscend(roots: seq<Root>, i: int, j: int)
    requires Separated(roots) && InOrder(roots) && 0 <= i < j < |roots|
    ensures PassesOf(roots)[i].exactAt < PassesOf(roots)[j].exactAt
  {
    assert !SamePhysicalEvent(roots[i], roots[j]);
    SeparatedRoundsApart(roots[i].jd, roots[j].jd);
  }

  // ----- The envelope encloses the passes -----

  lemma EarliestEntryIsEarly(
    lon: real -> real, samples: seq<Sample>, boundaries: seq<Root>, level: real, orbDeg: real, lo: real, hi: real, start: real)
    requires samples != [] && Least(Classified(lon, samples, boundaries, level, orbDeg, Entry, lo, hi)) == Some(start)
    ensures start <= hi
  {
    LeastIsLeast(Classified(lon, samples, boundaries, level, orbDeg, Entry, lo, hi));
    var entry := ClassifiedComesFrom(lon, samples, boundaries, level, orbDeg, Entry, lo, hi, start);
  }

  lemma LatestExitIsLate(
    lon: real -> real, samples: seq<Sample>, boundaries: seq<Root>, level: real, orbDeg: real, lo: real, hi: real, end: real)
    requires samples != [] && Greatest(Classified(lon, samples, boundaries, level, orbDeg, Exit, lo, hi)) == Some(end)
    ensures lo <= end
  {
    GreatestIsGreatest(Classified(lon, samples, boundaries, level, orbDeg, Exit, lo, hi));
    var exit := ClassifiedComesFrom(lon, samples, boundaries, level, orbDeg, Exit, lo, hi, end);
  }

  lemma SolvedEndsEncloseTheFirstAndLast(
    lon: real -> real, samples: seq<Sample>, levels: LevelRoots, passes: seq<Root>, level: real, orbDeg: real, arcDeg: real,
    start: real, end: real)
    requires levels.exact != [] && passes == SortedByTime(levels.exact) && passes != []
    requires var e := EnvelopeOf(lon, samples, levels, level, orbDeg, arcDeg); e.startJd == Some(start) && e.endJd == Some(end)
    ensures start <= passes[0].jd && passes[|passes| - 1].jd <= end
  {
    var e := EnvelopeOf(lon, samples, levels, level, orbDeg, arcDeg);
    var first, last := passes[0].jd, passes[|passes| - 1].jd;
    var boundaries := SortedByTime(levels.lower + levels.upper);
    assert samples != [];
    EarliestEntryIsEarly(lon, samples, boundaries, level, orbDeg, e.provenLeft.value, first, start);
    LatestExitIsLate(lon, samples, boundaries, level, orbDeg, last, e.provenRight.value, end);
  }

  lemma EnvelopeEnclosesPasses(
    lon: real -> real, samples: seq<Sample>, levels: LevelRoots, level: real, orbDeg: real, arcDeg: real)
    requires levels.exact != []
    requires var e := EnvelopeOf(lon, samples, levels, level, orbDeg, arcDeg); e.startJd.Some? && e.endJd.Some?
    ensures var e := EnvelopeOf(lon, samples, levels, level, orbDeg, arcDeg);
      forall r :: r in levels.exact ==> e.startJd.value <= r.jd <= e.endJd.value
  {
    var e := EnvelopeOf(lon, samples, levels, level, orbDeg, arcDeg);
    SortingSorts(levels.exact);
    SortingKeepsTheRoots(levels.exact);
    var passes := SortedByTime(levels.exact);
    SolvedEndsEncloseTheFirstAndLast(lon, samples, levels, passes, level, orbDeg, arcDeg, e.startJd.value, e.endJd.value);
    forall r | r in levels.exact
      ensures e.startJd.value <= r.jd <= e.endJd.value
    {
      PassInOrder(passes, r);
    }
  }

  lemma FinalizedMeetsPolicy(options: ScanOptions, key: Key, passes: seq<Root>, start: real, end: real)
    requires passes != [] && Separated(passes) && InOrder(passes)
    requires forall r :: r in passes ==> start <= r.jd <= end
    ensures PassesMeetPolicy(Finalized(options, key, passes, start, end))
  {
    var c := Finalized(options, key, passes, start, end);
    forall i, j | 0 <= i < j < |c.passes|
      ensures c.passes[i].exactAt < c.passes[j].exactAt
    {
      PassTimesAscend(passes, i, j);
    }
    forall i | 0 <= i < |c.passes|
      ensures c.startAt <= c.passes[i].exactAt <= c.endAt
    {
      assert passes[i] in passes;
      RoundingIsMonotone(start, passes[i].jd);
      RoundingIsMonotone(passes[i].jd, end);
    }
    assert passes[0] in passes;
    RoundingIsMonotone(start, end);
  }

  /** Every cycle the scan reports has well-ordered passes inside its envelope. */
  lemma ReportedMeetsPolicy(options: ScanOptions, request: Request, key: Key)
    requires VerdictOn(options, request, key).Reported?
    ensures PassesMeetPolicy(VerdictOn(options, request, key).cycle)
    ensures VerdictOn(options, request, key).cycle.id == options.digest(IdentityOf(options, key))
  {
    var k := options.tracks(key.body);
    var samples := SamplesFor(options, request, key.body);
    var targetDeg := key.branch.oriented.targetDeg;
    var orbDeg := TransitOrbDeg(key.body, key.branch.aspect);
    var levels := LevelsOf(k, samples, targetDeg, orbDeg, key.winding);
    var encounter := EncounterFrom(k, samples, key, options.Arc(key.body)).value;
    RecordedRootsAreSeparated(k, samples, targetDeg, key.winding);
    SortedStaysSeparated(levels.exact);
    SortingSorts(levels.exact);
    SortingKeepsTheRoots(levels.exact);
    EnvelopeEnclosesPasses(k.lon, samples, levels, Level(targetDeg, key.winding), orbDeg, options.Arc(key.body));
    FinalizedMeetsPolicy(options, key, SortedByTime(levels.exact),
                         encounter.envelope.startJd.value, encounter.envelope.endJd.value);
  }

  // ----- The list -----

  lemma {:induction false} InsertedCycleContents(cycles: seq<NormalizedCycle>, cycle: NormalizedCycle)
    ensures forall c :: c in InsertedCycle(cycles, cycle) <==> c in cycles || c == cycle
    ensures |InsertedCycle(cycles, cycle)| == |cycles| + 1
  {
    if cycles != [] && !Precedes(cycle, cycles[0]) {
      InsertedCycleContents(cycles[1..], cycle);
    }
  }

  lemma {:induction false} InsertedCycleIsOrdered(cycles: seq<NormalizedCycle>, cycle: NormalizedCycle)
    requires Ordered(cycles)
    ensures Ordered(InsertedCycle(cycles, cycle))
  {
    if cycles != [] && !Precedes(cycle, cycles[0]) {
      var rest := InsertedCycle(cycles[1..], cycle);
      InsertedCycleIsOrdered(cycles[1..], cycle);
      InsertedCycleContents(cycles[1..], cycle);
      forall c | c in rest
        ensures ComesNoLater(cycles[0], c)
      {
        if c != cycle {
          var i :| 0 <= i < |cycles[1..]| && cycles[1..][i] == c;
          assert cycles[i + 1] == c;
        }
      }
    }
  }

  lemma {:induction false} InsertedCycleIsDistinct(cycles: seq<NormalizedCycle>, cycle: NormalizedCycle)
    requires DistinctIds(cycles) && forall c :: c in cycles ==> c.id != cycle.id
    ensures DistinctIds(InsertedCycle(cycles, cycle))
  {
    if cycles != [] && !Precedes(cycle, cycles[0]) {
      var rest := InsertedCycle(cycles[1..], cycle);
      InsertedCycleIsDistinct(cycles[1..], cycle);
      InsertedCycleContents(cycles[1..], cycle);
      forall c | c in rest
        ensures cycles[0].id != c.id
      {
        if c != cycle {
          var i :| 0 <= i < |cycles[1..]| && cycles[1..][i] == c;
          assert cycles[i + 1] == c;
        }
      }
    }
  }

  lemma {:induction false} SortedCyclesAreOrdered(cycles: seq<NormalizedCycle>)
    ensures Ordered(SortedCycles(cycles))
    ensures forall c :: c in SortedCycles(cycles) <==> c in cycles
  {
    if cycles != [] {
      var init, last := cycles[..|cycles| - 1], cycles[|cycles| - 1];
      SortedCyclesAreOrdered(init);
      InsertedCycleIsOrdered(SortedCycles(init), last);
      InsertedCycleContents(SortedCycles(init), last);
      assert cycles == init + [last];
    }
  }

  lemma {:induction false} SortedCyclesAreDistinct(cycles: seq<NormalizedCycle>)
    requires DistinctIds(cycles)
    ensures DistinctIds(SortedCycles(cycles))
  {
    if cycles != [] {
      var init, last := cycles[..|cycles| - 1], cycles[|cycles| - 1];
      SortedCyclesAreDistinct(init);
      SortedCyclesAreOrdered(init);
      forall c | c in SortedCycles(init)
        ensures c.id != last.id
      {
        var i :| 0 <= i < |init| && init[i] == c;
        assert cycles[i] == c;
      }
      InsertedCycleIsDistinct(SortedCycles(init), last);
    }
  }

  lemma CollectedIdsAreDistinct(
    verdict: Key -> Verdict, options: ScanOptions, request: Request, keys: seq<Key>, found: seq<NormalizedCycle>)
    requires Judges(verdict, options, request) && Injective(options.digest)
    requires Collected(verdict, keys, found) && DistinctKeys(keys)
    ensures DistinctIds(found)
  {
    forall i, j | 0 <= i < j < |found|
      ensures found[i].id != found[j].id
    {
      assert JudgesAt(verdict, options, request, keys[i]) && JudgesAt(verdict, options, request, keys[j]);
      ReportedMeetsPolicy(options, request, keys[i]);
      ReportedMeetsPolicy(options, request, keys[j]);
      assert !SameIdentity(keys[i], keys[j]);
      assert IdentityOf(options, keys[i]) != IdentityOf(options, keys[j]);
    }
  }

  /** Every answer meets the response policy: unique ids, ordered cycles, contiguous pass indices,
      strictly increasing whole-second pass times, and every pass inside the envelope. */
  lemma AnswersMeetThePolicy(
    verdict: Key -> Verdict, options: ScanOptions, request: Request, keys: seq<Key>, cycles: seq<NormalizedCycle>)
    requires Judges(verdict, options, request) && Injective(options.digest)
    requires Answered(verdict, options, request, keys, cycles)
    ensures MeetsPolicy(cycles)
  {
    var found :| Collected(verdict, keys, found) && cycles == SortedCycles(found);
    CollectedIdsAreDistinct(verdict, options, request, keys, found);
    SortedCyclesAreOrdered(found);
    SortedCyclesAreDistinct(found);
    forall c | c in cycles
      ensures PassesMeetPolicy(c)
    {
      var i :| 0 <= i < |found| && found[i] == c;
      assert JudgesAt(verdict, options, request, keys[i]);
      ReportedMeetsPolicy(options, request, keys[i]);
    }
  }

  // ----- Directions and speeds -----

  /** A rendered speed is zero only for a body that stands still, keeps its sign otherwise, and is the nearest whole
      number of microdegrees unless that is zero. */
  lemma RoundedSpeedKeepsItsSign(speed: real)
    ensures Sign(RoundSpeed(speed)) == Sign(speed)
    ensures Abs(RoundSpeed(speed) - speed) <= if 0.000001 <= Abs(speed) then 0.0000005 else 0.000001
    ensures (RoundSpeed(speed) * 1000000.0).Floor as real == RoundSpeed(speed) * 1000000.0
  {
    var n := Round(Abs(speed) * 1000000.0);
    assert 0 <= n;
    var whole := if n == 0 && speed != 0.0 then Sign(speed) else if speed < 0.0 then -n else n;
    assert RoundSpeed(speed) == (whole as real) / 1000000.0;
  }
}
