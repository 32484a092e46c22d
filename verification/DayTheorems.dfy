/** What the daily scan finds, and why every fact stays on the day it happens. */
module DayTheorems {
  import opened Angles
  import opened CyclePolicy
  import opened Sky
  import opened Rendering
  import opened DailySky

  // ----- The recorded list -----

  ghost predicate Apart(roots: seq<real>) {
    forall i, j :: 0 <= i < j < |roots| ==> !Close(roots[i], roots[j])
  }

  ghost predicate Rising(times: seq<real>) {
    forall i, j :: 0 <= i < j < |times| ==> times[i] <= times[j]
  }

  /** `x` records a root of this day that was found at `raw`. */
  ghost predicate Records(raws: seq<real>, from: real, to: real, x: real) {
    exists raw :: raw in raws && from <= raw < to && x == Placed(raw, to)
  }

  ghost predicate RecordedNear(roots: seq<real>, raw: real, to: real) {
    exists x :: x in roots && (x == Placed(raw, to) || Close(x, Placed(raw, to)))
  }

  lemma {:induction false} PushedRootsAreApart(raws: seq<real>, from: real, to: real)
    ensures Apart(PushedAll([], raws, from, to))
    ensures forall x :: x in PushedAll([], raws, from, to) ==> Records(raws, from, to, x)
  {
    if raws != [] {
      var init, raw := raws[..|raws| - 1], raws[|raws| - 1];
      PushedRootsAreApart(init, from, to);
      forall x | x in PushedAll([], raws, from, to)
        ensures Records(raws, from, to, x)
      {
        if x in PushedAll([], init, from, to) {
          assert Records(init, from, to, x);
          var r :| r in init && from <= r < to && x == Placed(r, to);
          assert r in raws;
        } else {
          assert raw in raws;
        }
      }
    }
  }

  lemma {:induction false} EveryRawIsRecorded(raws: seq<real>, from: real, to: real, raw: real)
    requires raw in raws && from <= raw < to
    ensures RecordedNear(PushedAll([], raws, from, to), raw, to)
  {
    var init, last := raws[..|raws| - 1], raws[|raws| - 1];
    var before := PushedAll([], init, from, to);
    if raw == last {
      if i :| 0 <= i < |before| && Close(before[i], Placed(raw, to)) {
        assert before[i] in PushedAll([], raws, from, to);
      } else {
        assert Placed(raw, to) in PushedAll([], raws, from, to);
      }
    } else {
      EveryRawIsRecorded(init, from, to, raw);
      var x :| x in before && (x == Placed(raw, to) || Close(x, Placed(raw, to)));
      assert x in PushedAll([], raws, from, to);
    }
  }

  lemma LeadingKeepsOrder(t: real, times: seq<real>)
    requires Rising(times) && Apart(times) && forall x :: x in times ==> t <= x && !Close(t, x)
    ensures Rising([t] + times) && Apart([t] + times)
  {
    assert forall i :: 0 <= i < |times| ==> times[i] in times;
  }

  lemma {:induction false} InsertedTimeContents(times: seq<real>, t: real)
    ensures forall x :: x in InsertedTime(times, t) <==> x in times || x == t
  {
    if times != [] && times[0] <= t {
      InsertedTimeContents(times[1..], t);
    }
  }

  lemma TailKeepsOrder(times: seq<real>)
    requires times != [] && Rising(times) && Apart(times)
    ensures Rising(times[1..]) && Apart(times[1..])
    ensures forall x :: x in times[1..] ==> times[0] <= x && !Close(times[0], x)
  {
    forall x | x in times[1..]
      ensures times[0] <= x && !Close(times[0], x)
    {
      var i :| 0 <= i < |times[1..]| && times[1..][i] == x;
      assert times[i + 1] == x;
    }
  }

  lemma {:induction false} InsertedTimeStaysInOrder(times: seq<real>, t: real)
    requires Rising(times) && Apart(times) && forall x :: x in times ==> !Close(x, t)
    ensures Rising(InsertedTime(times, t)) && Apart(InsertedTime(times, t))
  {
    if times == [] {
    } else if t < times[0] {
      TailKeepsOrder(times);
      LeadingKeepsOrder(t, times);
    } else {
      TailKeepsOrder(times);
      InsertedTimeStaysInOrder(times[1..], t);
      InsertedTimeContents(times[1..], t);
      LeadingKeepsOrder(times[0], InsertedTime(times[1..], t));
    }
  }

  lemma {:induction false} SortedTimesAreInOrder(times: seq<real>)
    requires Apart(times)
    ensures Rising(SortedTimes(times)) && Apart(SortedTimes(times))
    ensures forall x :: x in SortedTimes(times) <==> x in times
  {
    if times != [] {
      var init, last := times[..|times| - 1], times[|times| - 1];
      SortedTimesAreInOrder(init);
      forall x | x in SortedTimes(init)
        ensures !Close(x, last)
      {
        var i :| 0 <= i < |init| && init[i] == x;
        assert times[i] == x;
      }
      InsertedTimeStaysInOrder(SortedTimes(init), last);
      InsertedTimeContents(SortedTimes(init), last);
      assert times == init + [last];
    }
  }

  function RawOf(f: real -> real, from: real, to: real): seq<real> {
    Raw(f, from, to, StepCount(from, to))
  }

  /** The roots of a day are ascending, more than the dedupe tolerance apart, and each records a raw root of the day. */
  lemma RootsAreInOrder(f: real -> real, from: real, to: real)
    ensures forall i, j :: 0 <= i < j < |DayRoots(f, from, to)| ==>
      DayRoots(f, from, to)[i] + DAY_DEDUPE_TOLERANCE < DayRoots(f, from, to)[j]
    ensures forall x :: x in DayRoots(f, from, to) ==> Records(RawOf(f, from, to), from, to, x)
  {
    PushedRootsAreApart(RawOf(f, from, to), from, to);
    SortedTimesAreInOrder(Found(f, from, to));
    var roots := DayRoots(f, from, to);
    forall i, j | 0 <= i < j < |roots|
      ensures roots[i] + DAY_DEDUPE_TOLERANCE < roots[j]
    {
      assert roots[i] <= roots[j] && !Close(roots[i], roots[j]);
    }
  }

  lemma EveryRawHasADayRoot(f: real -> real, from: real, to: real, raw: real)
    requires raw in RawOf(f, from, to) && from <= raw < to
    ensures RecordedNear(DayRoots(f, from, to), raw, to)
  {
    PushedRootsAreApart(RawOf(f, from, to), from, to);
    SortedTimesAreInOrder(Found(f, from, to));
    EveryRawIsRecorded(RawOf(f, from, to), from, to, raw);
    var x :| x in Found(f, from, to) && (x == Placed(raw, to) || Close(x, Placed(raw, to)));
    assert x in DayRoots(f, from, to);
  }

  // ----- Days -----

  /** Where a root is put: before the end of the day as written, and less than a second from where it was found. */
  lemma PlacedRendersBeforeTheEnd(raw: real, to: real)
    requires raw < to
    ensures Seconds1970(Placed(raw, to)) < Seconds1970(to)
    ensures Placed(raw, to) < to && Abs(Placed(raw, to) - raw) < ONE_SECOND
  {
    OneSecondEarlier(to);
    if raw <= to - ONE_SECOND {
      RoundingIsMonotone(raw, to - ONE_SECOND);
    }
  }

  /** A root stays inside the day exactly when it is written before the end of the day or the day
      lasts at least a second. */
  lemma PlacedStaysInsideIff(raw: real, from: real, to: real)
    requires from <= raw < to
    ensures from <= Placed(raw, to) < to <==> Seconds1970(raw) < Seconds1970(to) || ONE_SECOND <= to - from
  {
    PlacedRendersBeforeTheEnd(raw, to);
  }

  lemma {:induction false} StartIsRaw(f: real -> real, from: real, to: real, n: nat)
    requires OnZero(f(from))
    ensures from in Raw(f, from, to, n)
    decreases n
  {
    if n == 0 {
      assert from in RawAt(f, from, to, 0);
    } else {
      StartIsRaw(f, from, to, n - 1);
    }
  }

  /** Why a day must last a second: a shorter one written as a single second moves its root
      out of itself. */
  lemma AShortDayLosesItsRoot(f: real -> real, from: real, to: real) returns (x: real)
    requires from < to < from + ONE_SECOND && Seconds1970(from) == Seconds1970(to)
    requires OnZero(f(from))
    ensures x in DayRoots(f, from, to) && x < from
  {
    StartIsRaw(f, from, to, StepCount(from, to));
    EveryRawHasADayRoot(f, from, to, from);
    x :| x in DayRoots(f, from, to) && (x == Placed(from, to) || Close(x, Placed(from, to)));
    RootsAreInOrder(f, from, to);
    assert Records(RawOf(f, from, to), from, to, x);
    var raw :| raw in RawOf(f, from, to) && from <= raw < to && x == Placed(raw, to);
    RoundingIsMonotone(from, raw);
  }

  /** Every root of a day of at least one second is inside the day, as an instant and as it is written. */
  lemma RootsLieInTheDay(f: real -> real, from: real, to: real, x: real)
    requires ONE_SECOND <= to - from && x in DayRoots(f, from, to)
    ensures from <= x < to
    ensures Seconds1970(from) <= Seconds1970(x) < Seconds1970(to)
  {
    RootsAreInOrder(f, from, to);
    var raw :| raw in RawOf(f, from, to) && from <= raw < to && x == Placed(raw, to);
    PlacedRendersBeforeTheEnd(raw, to);
    PlacedStaysInsideIff(raw, from, to);
    RoundingIsMonotone(from, x);
  }

  /** Two consecutive days never write a fact at the same second, whatever the two facts are about. */
  lemma DaysShareNoSecond(f: real -> real, g: real -> real, from: real, between: real, to: real, x: real, y: real)
    requires ONE_SECOND <= between - from && ONE_SECOND <= to - between
    requires x in DayRoots(f, from, between) && y in DayRoots(g, between, to)
    ensures x < y && Seconds1970(x) < Seconds1970(y)
  {
    RootsLieInTheDay(f, from, between, x);
    RootsLieInTheDay(g, between, to, y);
  }

  /** The roots of one angle over consecutive days. */
  function Calendar(f: real -> real, days: seq<real>): seq<real> {
    if |days| < 2 then [] else Calendar(f, days[..|days| - 1]) + DayRoots(f, days[|days| - 2], days[|days| - 1])
  }

  ghost predicate WholeDay(days: seq<real>, i: nat)
    requires i + 1 < |days|
  {
    days[i] + ONE_SECOND <= days[i + 1]
  }

  /** Consecutive days, none shorter than a second. */
  ghost predicate WholeDays(days: seq<real>) {
    forall i: nat :: i + 1 < |days| ==> WholeDay(days, i)
  }

  lemma EarlierDaysAreWhole(days: seq<real>)
    requires WholeDays(days) && days != []
    ensures WholeDays(days[..|days| - 1])
  {
    var init := days[..|days| - 1];
    forall i: nat | i + 1 < |init|
      ensures WholeDay(init, i)
    {
      assert WholeDay(days, i);
    }
  }

  lemma {:induction false} CalendarStaysBelow(f: real -> real, days: seq<real>)
    requires WholeDays(days) && 1 <= |days|
    ensures forall x :: x in Calendar(f, days) ==> Seconds1970(x) < Seconds1970(days[|days| - 1])
  {
    if 2 <= |days| {
      var init := days[..|days| - 1];
      EarlierDaysAreWhole(days);
      assert WholeDay(days, |days| - 2);
      CalendarStaysBelow(f, init);
      var from, to := days[|days| - 2], days[|days| - 1];
      RoundingIsMonotone(from, to);
      forall x | x in Calendar(f, days)
        ensures Seconds1970(x) < Seconds1970(to)
      {
        if x in DayRoots(f, from, to) {
          RootsLieInTheDay(f, from, to, x);
        }
      }
    }
  }

  ghost predicate SecondsAscend(times: seq<real>) {
    forall i, j :: 0 <= i < j < |times| ==> Seconds1970(times[i]) < Seconds1970(times[j])
  }

  lemma DaySecondsAscend(f: real -> real, from: real, to: real)
    ensures SecondsAscend(DayRoots(f, from, to))
  {
    RootsAreInOrder(f, from, to);
    var roots := DayRoots(f, from, to);
    forall i, j | 0 <= i < j < |roots|
      ensures Seconds1970(roots[i]) < Seconds1970(roots[j])
    {
      ASecondApartRendersApart(roots[i], roots[j]);
    }
  }

  lemma AscendingSecondsJoin(before: seq<real>, after: seq<real>)
    requires SecondsAscend(before) && SecondsAscend(after)
    requires forall x, y :: x in before && y in after ==> Seconds1970(x) < Seconds1970(y)
    ensures SecondsAscend(before + after)
  {
    var all := before + after;
    forall i, j | 0 <= i < j < |all|
      ensures Seconds1970(all[i]) < Seconds1970(all[j])
    {
      if i < |before| && |before| <= j {
        assert before[i] in before && after[j - |before|] in after;
      }
    }
  }

  /** Over any run of days the written seconds of one event ascend strictly: none is written twice
      and none is out of order across a boundary. */
  lemma {:induction false} CalendarSecondsAscend(f: real -> real, days: seq<real>)
    requires WholeDays(days)
    ensures SecondsAscend(Calendar(f, days))
  {
    if 2 <= |days| {
      var init := days[..|days| - 1];
      var from, to := days[|days| - 2], days[|days| - 1];
      EarlierDaysAreWhole(days);
      assert WholeDay(days, |days| - 2);
      CalendarSecondsAscend(f, init);
      CalendarStaysBelow(f, init);
      DaySecondsAscend(f, from, to);
      forall y | y in DayRoots(f, from, to)
        ensures Seconds1970(from) <= Seconds1970(y)
      {
        RootsLieInTheDay(f, from, to, y);
      }
      AscendingSecondsJoin(Calendar(f, init), DayRoots(f, from, to));
    }
  }

  // ----- Brackets -----

  /** `f` is the angle `g`, wrapped. */
  ghost predicate Wraps(f: real -> real, g: real -> real) {
    forall t :: WrapsAt(f, g, t)
  }

  ghost predicate WrapsAt(f: real -> real, g: real -> real, t: real) {
    f(t) == Wrap180(g(t))
  }

  /** The angle moves less than half a revolution in one grid step. */
  ghost predicate SlowerThanTheGrid(g: real -> real) {
    forall s, t :: SlowBetween(g, s, t)
  }

  ghost predicate SlowBetween(g: real -> real, s: real, t: real) {
    -DAY_SCAN_STEP <= s - t <= DAY_SCAN_STEP ==> Abs(g(s) - g(t)) < 180.0
  }

  ghost predicate Monotone(g: real -> real, a: real, b: real) {
    || (forall s, t :: a <= s <= t <= b ==> g(s) <= g(t))
    || (forall s, t :: a <= s <= t <= b ==> g(t) <= g(s))
  }

  /** The angle is exactly zero, on whatever revolution. */
  ghost predicate Crosses(g: real -> real, t: real) {
    exists k: int :: g(t) == Turns(k)
  }

  ghost predicate CrossesWithin(g: real -> real, a: real, b: real) {
    exists t :: a <= t <= b && Crosses(g, t)
  }

  lemma WrapOnItsRevolution(x: real, k: int)
    requires -180.0 <= x - Turns(k) < 180.0
    ensures Wrap180(x) == x - Turns(k)
  {
    assert x == (x - Turns(k)) + Turns(k);
    WrapIsUnique(x, x - Turns(k));
  }

  /** Near a crossing the wrapped angle is the true one. */
  lemma NearACrossing(f: real -> real, g: real -> real, c: real, k: int, t: real)
    requires Wraps(f, g) && SlowerThanTheGrid(g) && g(c) == Turns(k)
    requires -DAY_SCAN_STEP <= t - c <= DAY_SCAN_STEP
    ensures f(t) == g(t) - Turns(k)
  {
    assert WrapsAt(f, g, t) && SlowBetween(g, t, c);
    WrapOnItsRevolution(g(t), k);
  }

  lemma RevolutionOf(x: real) returns (k: int)
    ensures x == Wrap180(x) + Turns(k)
  {
    assert SameDirection(Wrap180(x), x);
    var j :| Wrap180(x) == x + Turns(j);
    k := -j;
  }

  /** A bracket is never an antipodal jump: both ends are measured on one revolution. */
  lemma BracketKeepsItsRevolution(f: real -> real, g: real -> real, a: real, b: real) returns (k: int)
    requires Wraps(f, g) && SlowerThanTheGrid(g) && a <= b <= a + DAY_SCAN_STEP
    requires Brackets(f(a), f(b))
    ensures f(a) == g(a) - Turns(k) && f(b) == g(b) - Turns(k)
  {
    k := RevolutionOf(g(a));
    var j := RevolutionOf(g(b));
    assert WrapsAt(f, g, a) && WrapsAt(f, g, b) && SlowBetween(g, b, a);
    assert k == j;
  }

  lemma BracketIsGenuine(f: real -> real, g: real -> real, a: real, b: real) returns (k: int, c: real)
    requires Wraps(f, g) && SlowerThanTheGrid(g) && Continuous(g) && a <= b <= a + DAY_SCAN_STEP
    requires Brackets(f(a), f(b))
    ensures f(a) == g(a) - Turns(k) && f(b) == g(b) - Turns(k)
    ensures a <= c <= b && g(c) == Turns(k)
  {
    k := BracketKeepsItsRevolution(f, g, a, b);
    assert Attains(g, a, b, Turns(k));
    c :| a <= c <= b && g(c) == Turns(k);
  }

  lemma CrossingIsBracketed(f: real -> real, g: real -> real, a: real, b: real, c: real)
    requires Wraps(f, g) && SlowerThanTheGrid(g) && Monotone(g, a, b) && a <= c <= b <= a + DAY_SCAN_STEP
    requires !OnZero(f(a)) && !OnZero(f(b)) && Crosses(g, c)
    ensures Brackets(f(a), f(b))
  {
    var k :| g(c) == Turns(k);
    NearACrossing(f, g, c, k, a);
    NearACrossing(f, g, c, k, b);
    assert SlowBetween(g, a, b);
  }

  /** With both ends off zero and the angle monotone between them, a step is bracketed exactly when
      the angle truly passes zero in it. */
  lemma BracketIffCrossing(f: real -> real, g: real -> real, a: real, b: real)
    requires Wraps(f, g) && SlowerThanTheGrid(g) && Continuous(g) && Monotone(g, a, b)
    requires a <= b <= a + DAY_SCAN_STEP && !OnZero(f(a)) && !OnZero(f(b))
    ensures Brackets(f(a), f(b)) <==> CrossesWithin(g, a, b)
  {
    if Brackets(f(a), f(b)) {
      var k, c := BracketIsGenuine(f, g, a, b);
      assert Crosses(g, c);
    }
    if c :| a <= c <= b && Crosses(g, c) {
      CrossingIsBracketed(f, g, a, b, c);
    }
  }

  // ----- Bisection -----

  /** `jd` is within half a root tolerance of a zero of the angle between `a` and `b`. */
  ghost predicate NearAZero(g: real -> real, a: real, b: real, jd: real) {
    exists c :: a <= c <= b && Crosses(g, c) && Abs(jd - c) <= HALF_DAY_ROOT_TOLERANCE
  }

  ghost predicate OnRevolution(f: real -> real, g: real -> real, a: real, b: real, k: int) {
    forall t :: a <= t <= b ==> f(t) == g(t) - Turns(k)
  }

  lemma NarrowBracket(f: real -> real, g: real -> real, lo: real, hi: real, k: int)
    requires Continuous(g) && OnRevolution(f, g, lo, hi, k) && lo < hi <= lo + DAY_ROOT_TOLERANCE
    requires Sign(f(lo)) != 0 && Sign(f(hi)) != Sign(f(lo))
    ensures NearAZero(g, lo, hi, (lo + hi) / 2.0)
  {
    assert Attains(g, lo, hi, Turns(k));
    var c :| lo <= c <= hi && g(c) == Turns(k);
    assert Crosses(g, c);
  }

  lemma NearAZeroInAWider(g: real -> real, lo: real, hi: real, a: real, b: real, jd: real)
    requires NearAZero(g, lo, hi, jd) && a <= lo && hi <= b
    ensures NearAZero(g, a, b, jd)
  {
  }

  /** Bisection ends strictly inside the bracket, within 0.025 seconds of a true zero. */
  lemma {:induction false} BisectionFindsAZero(f: real -> real, g: real -> real, lo: real, hi: real, k: int, sign: int)
    requires Continuous(g) && OnRevolution(f, g, lo, hi, k) && lo < hi
    requires Sign(f(lo)) == sign != 0 && Sign(f(hi)) != sign
    ensures lo < Halved(f, lo, hi, sign) < hi
    ensures NearAZero(g, lo, hi, Halved(f, lo, hi, sign))
    decreases Ticks(hi - lo)
  {
    var mid := (lo + hi) / 2.0;
    if hi - lo <= DAY_ROOT_TOLERANCE {
      NarrowBracket(f, g, lo, hi, k);
    } else if Sign(f(mid)) == sign {
      BisectionFindsAZero(f, g, mid, hi, k, sign);
      NearAZeroInAWider(g, mid, hi, lo, hi, Halved(f, mid, hi, sign));
    } else {
      BisectionFindsAZero(f, g, lo, mid, k, sign);
      NearAZeroInAWider(g, lo, mid, lo, hi, Halved(f, lo, mid, sign));
    }
  }

  /** What a bracketed step of the grid contributes. */
  lemma {:induction false} BracketedStep(f: real -> real, g: real -> real, a: real, b: real)
    requires Wraps(f, g) && SlowerThanTheGrid(g) && Continuous(g) && a <= b <= a + DAY_SCAN_STEP
    requires Brackets(f(a), f(b))
    ensures a < Halved(f, a, b, Sign(f(a))) < b
    ensures NearAZero(g, a, b, Halved(f, a, b, Sign(f(a))))
  {
    var k, c := BracketIsGenuine(f, g, a, b);
    forall t | a <= t <= b
      ensures f(t) == g(t) - Turns(k)
    {
      NearACrossing(f, g, c, k, t);
    }
    BisectionFindsAZero(f, g, a, b, k, Sign(f(a)));
  }

  // ----- The roots of a day are the zeros of the angle -----

  /** A raw root: a sample on zero, or an instant within half a tolerance of a zero of the day. */
  ghost predicate Genuine(f: real -> real, g: real -> real, from: real, to: real, raw: real) {
    OnZero(f(raw)) || NearAZero(g, from, to, raw)
  }

  lemma GridAdvances(from: real, to: real, i: nat)
    requires from <= to && 0 < i
    ensures from <= GridPoint(from, to, i - 1) <= GridPoint(from, to, i) <= to
    ensures GridPoint(from, to, i) <= GridPoint(from, to, i - 1) + DAY_SCAN_STEP
  {
  }

  lemma StepIsGenuine(f: real -> real, g: real -> real, from: real, to: real, i: nat, raw: real)
    requires Wraps(f, g) && SlowerThanTheGrid(g) && Continuous(g) && from <= to
    requires raw in RawAt(f, from, to, i)
    ensures Genuine(f, g, from, to, raw)
  {
    if 0 < i {
      var a, b := GridPoint(from, to, i - 1), GridPoint(from, to, i);
      GridAdvances(from, to, i);
      if !OnZero(f(b)) {
        BracketedStep(f, g, a, b);
        NearAZeroInAWider(g, a, b, from, to, raw);
      }
    }
  }

  lemma {:induction false} RawIsGenuine(f: real -> real, g: real -> real, from: real, to: real, n: nat, raw: real)
    requires Wraps(f, g) && SlowerThanTheGrid(g) && Continuous(g) && from <= to
    requires raw in Raw(f, from, to, n)
    ensures Genuine(f, g, from, to, raw)
    decreases n
  {
    if raw in RawAt(f, from, to, n) {
      StepIsGenuine(f, g, from, to, n, raw);
    } else {
      RawIsGenuine(f, g, from, to, n - 1, raw);
    }
  }

  /** Every root of a day records a zero of the angle, and is less than a second from where it was found. */
  lemma RootsAreGenuine(f: real -> real, g: real -> real, from: real, to: real, x: real) returns (raw: real)
    requires Wraps(f, g) && SlowerThanTheGrid(g) && Continuous(g) && from <= to
    requires x in DayRoots(f, from, to)
    ensures from <= raw < to && Genuine(f, g, from, to, raw) && Abs(x - raw) < ONE_SECOND
  {
    RootsAreInOrder(f, from, to);
    assert Records(RawOf(f, from, to), from, to, x);
    raw :| raw in RawOf(f, from, to) && from <= raw < to && x == Placed(raw, to);
    RawIsGenuine(f, g, from, to, StepCount(from, to), raw);
    PlacedRendersBeforeTheEnd(raw, to);
  }

  lemma {:induction false} StepsAreRaw(f: real -> real, from: real, to: real, n: nat, i: nat, raw: real)
    requires i <= n && raw in RawAt(f, from, to, i)
    ensures raw in Raw(f, from, to, n)
    decreases n
  {
    if i < n {
      StepsAreRaw(f, from, to, n - 1, i, raw);
    }
  }

  ghost predicate FoundNear(f: real -> real, from: real, to: real, t: real) {
    exists x :: x in DayRoots(f, from, to)
      && Abs(x - t) <= HALF_DAY_ROOT_TOLERANCE + ONE_SECOND + DAY_DEDUPE_TOLERANCE
  }

  lemma RawIsFound(f: real -> real, from: real, to: real, i: nat, raw: real, t: real)
    requires i <= StepCount(from, to) && raw in RawAt(f, from, to, i) && from <= raw < to
    requires Abs(raw - t) <= HALF_DAY_ROOT_TOLERANCE
    ensures FoundNear(f, from, to, t)
  {
    StepsAreRaw(f, from, to, StepCount(from, to), i, raw);
    EveryRawHasADayRoot(f, from, to, raw);
    var x :| x in DayRoots(f, from, to) && (x == Placed(raw, to) || Close(x, Placed(raw, to)));
    PlacedRendersBeforeTheEnd(raw, to);
  }

  lemma OneCrossing(g: real -> real, a: real, b: real, c: real, d: real)
    requires StrictlyMonotone(g, a, b) && SlowerThanTheGrid(g) && b <= a + DAY_SCAN_STEP
    requires a <= c <= b && a <= d <= b && Crosses(g, c) && Crosses(g, d)
    ensures c == d
  {
    var k :| g(c) == Turns(k);
    var j :| g(d) == Turns(j);
    assert SlowBetween(g, c, d);
    assert k == j;
  }

  lemma StrictIsMonotone(g: real -> real, a: real, b: real)
    requires StrictlyMonotone(g, a, b)
    ensures Monotone(g, a, b)
  {
  }

  lemma NearTheCrossing(g: real -> real, a: real, b: real, c: real, jd: real)
    requires StrictlyMonotone(g, a, b) && SlowerThanTheGrid(g) && b <= a + DAY_SCAN_STEP
    requires NearAZero(g, a, b, jd) && a <= c <= b && Crosses(g, c)
    ensures Abs(jd - c) <= HALF_DAY_ROOT_TOLERANCE
  {
    var d :| a <= d <= b && Crosses(g, d) && Abs(jd - d) <= HALF_DAY_ROOT_TOLERANCE;
    OneCrossing(g, a, b, c, d);
  }

  lemma CrossedStepHasARoot(f: real -> real, g: real -> real, a: real, b: real, c: real) returns (raw: real)
    requires Wraps(f, g) && SlowerThanTheGrid(g) && Continuous(g) && StrictlyMonotone(g, a, b)
    requires a <= c <= b <= a + DAY_SCAN_STEP && Crosses(g, c) && !OnZero(f(a)) && !OnZero(f(b))
    ensures Between(f, a, b) == [raw] && a < raw < b && Abs(raw - c) <= HALF_DAY_ROOT_TOLERANCE
  {
    StrictIsMonotone(g, a, b);
    CrossingIsBracketed(f, g, a, b, c);
    BracketedStep(f, g, a, b);
    raw := Halved(f, a, b, Sign(f(a)));
    NearTheCrossing(g, a, b, c, raw);
  }

  /** `raw` is where the scan sees the crossing at `c`: the angle only rises or only falls between the two, and
      they lie within half a root tolerance, or within the zero tolerance of the angle, of each other. */
  ghost predicate Marks(g: real -> real, raw: real, c: real) {
    && StrictlyMonotone(g, Min(raw, c), Max(raw, c))
    && (Abs(raw - c) <= HALF_DAY_ROOT_TOLERANCE || Abs(g(raw) - g(c)) <= ANGULAR_ZERO_TOLERANCE)
  }

  lemma ZeroSampleMarks(f: real -> real, g: real -> real, s: real, c: real)
    requires Wraps(f, g) && SlowerThanTheGrid(g) && Crosses(g, c) && OnZero(f(s))
    requires -DAY_SCAN_STEP <= s - c <= DAY_SCAN_STEP && StrictlyMonotone(g, Min(s, c), Max(s, c))
    ensures Marks(g, s, c)
  {
    var k :| g(c) == Turns(k);
    NearACrossing(f, g, c, k, s);
  }

  /** Every zero of the angle in a step of the grid is seen: at a sample on zero, or as a bracket. What is
      seen before the end of the day has a root of the day beside it: half the root tolerance away, plus
      a second if it was moved back, plus the dedupe tolerance if an earlier root stands for it. */
  lemma CrossingsAreFound(f: real -> real, g: real -> real, from: real, to: real, i: nat, a: real, b: real, c: real)
    returns (raw: real)
    requires Wraps(f, g) && SlowerThanTheGrid(g) && Continuous(g) && from <= to
    requires 0 < i <= StepCount(from, to) && a == GridPoint(from, to, i - 1) && b == GridPoint(from, to, i)
    requires StrictlyMonotone(g, a, b) && a <= c <= b && Crosses(g, c)
    ensures a <= raw <= b && Marks(g, raw, c)
    ensures raw < to ==> raw in RawOf(f, from, to) && FoundNear(f, from, to, raw)
    ensures raw == to ==> OnZero(f(to))
    ensures !OnZero(f(a)) && !OnZero(f(b)) ==> FoundNear(f, from, to, c)
  {
    GridAdvances(from, to, i);
    LastStepEndsTheDay(from, to, i - 1);
    if OnZero(f(b)) {
      raw := b;
      ZeroSampleMarks(f, g, b, c);
      SeenBeforeTheEnd(f, from, to, i, b);
    } else if OnZero(f(a)) {
      raw := a;
      ZeroSampleMarks(f, g, a, c);
      SampleIsRaw(f, from, to, i - 1);
      SeenBeforeTheEnd(f, from, to, i - 1, a);
    } else {
      raw := BracketIsSeen(f, g, from, to, i, a, b, c);
    }
  }

  lemma SampleIsRaw(f: real -> real, from: real, to: real, i: nat)
    requires from <= to && OnZero(f(GridPoint(from, to, i)))
    ensures GridPoint(from, to, i) in RawAt(f, from, to, i)
  {
  }

  lemma BracketIsSeen(f: real -> real, g: real -> real, from: real, to: real, i: nat, a: real, b: real, c: real)
    returns (raw: real)
    requires Wraps(f, g) && SlowerThanTheGrid(g) && Continuous(g) && from <= a <= c <= b <= to && b <= a + DAY_SCAN_STEP
    requires 0 < i <= StepCount(from, to) && a == GridPoint(from, to, i - 1) && b == GridPoint(from, to, i)
    requires StrictlyMonotone(g, a, b) && Crosses(g, c) && !OnZero(f(a)) && !OnZero(f(b))
    ensures a < raw < b && Marks(g, raw, c)
    ensures raw in RawOf(f, from, to) && FoundNear(f, from, to, raw) && FoundNear(f, from, to, c)
  {
    raw := CrossedStepHasARoot(f, g, a, b, c);
    SeenBeforeTheEnd(f, from, to, i, raw);
    RawIsFound(f, from, to, i, raw, c);
  }

  lemma SeenBeforeTheEnd(f: real -> real, from: real, to: real, i: nat, raw: real)
    requires i <= StepCount(from, to) && raw in RawAt(f, from, to, i) && from <= raw
    ensures raw < to ==> raw in RawOf(f, from, to) && FoundNear(f, from, to, raw)
  {
    StepsAreRaw(f, from, to, StepCount(from, to), i, raw);
    if raw < to {
      RawIsFound(f, from, to, i, raw, raw);
    }
  }

  /** Every sample on zero before the end of the day is found. */
  lemma ZeroSamplesAreFound(f: real -> real, from: real, to: real, i: nat)
    requires from < to && i <= StepCount(from, to)
    requires GridPoint(from, to, i) < to && OnZero(f(GridPoint(from, to, i)))
    ensures FoundNear(f, from, to, GridPoint(from, to, i))
  {
    RawIsFound(f, from, to, i, GridPoint(from, to, i), GridPoint(from, to, i));
  }

  // ----- A zero on the boundary between two days -----

  lemma {:induction false} FirstPushStays(raws: seq<real>, from: real, to: real)
    requires raws != [] && from <= raws[0] < to
    ensures Placed(raws[0], to) in PushedAll([], raws, from, to)
  {
    if |raws| == 1 {
      assert PushedAll([], raws[..0], from, to) == [];
    } else {
      FirstPushStays(raws[..|raws| - 1], from, to);
    }
  }

  lemma {:induction false} RawStartsAtZero(f: real -> real, from: real, to: real, n: nat)
    requires OnZero(f(from))
    ensures Raw(f, from, to, n) != [] && Raw(f, from, to, n)[0] == from
    decreases n
  {
    if 0 < n {
      RawStartsAtZero(f, from, to, n - 1);
    }
  }

  /** The later day records a zero on its first sample, at that very instant. */
  lemma LaterDayKeepsTheBoundary(f: real -> real, from: real, to: real)
    requires ONE_SECOND <= to - from && OnZero(f(from))
    ensures from in DayRoots(f, from, to)
  {
    var raws := RawOf(f, from, to);
    RawStartsAtZero(f, from, to, StepCount(from, to));
    FirstPushStays(raws, from, to);
    ASecondApartRendersApart(from, to);
    PushedRootsAreApart(raws, from, to);
    SortedTimesAreInOrder(Found(f, from, to));
  }

  lemma LastSampleIsTheEnd(from: real, to: real)
    requires from < to
    ensures 0 < StepCount(from, to) && GridPoint(from, to, StepCount(from, to)) == to
  {
    LastStepEndsTheDay(from, to, 0);
    LastStepEndsTheDay(from, to, StepCount(from, to));
  }

  /** The earlier day records nothing from the step that ends on the zero: neither the sample nor a bracket. */
  lemma {:induction false} EarlierDayLeavesTheBoundary(f: real -> real, from: real, to: real)
    requires from < to && OnZero(f(to))
    ensures 0 < StepCount(from, to)
    ensures forall x :: x in DayRoots(f, from, to) ==> Records(Raw(f, from, to, StepCount(from, to) - 1), from, to, x)
  {
    LastSampleIsTheEnd(from, to);
    var earlier := Raw(f, from, to, StepCount(from, to) - 1);
    assert RawAt(f, from, to, StepCount(from, to)) == [to];
    PushedAllExtends(earlier, [to], from, to);
    PushedRootsAreApart(earlier, from, to);
    SortedTimesAreInOrder(PushedAll([], earlier, from, to));
    assert Found(f, from, to) == PushedAll([], earlier, from, to);
  }
}
