/** Which day of a run of days records a crossing of the angle. */
module DayRuns {
  import opened Angles
  import opened CyclePolicy
  import opened Sky
  import opened DailySky
  import opened DayTheorems

  /** In every step of the grid the angle only rises or only falls. */
  ghost predicate SteadySteps(g: real -> real, from: real, to: real) {
    forall i: nat :: 0 < i <= StepCount(from, to) ==> SteadyStep(g, from, to, i)
  }

  ghost predicate SteadyStep(g: real -> real, from: real, to: real, i: nat)
    requires 0 < i
  {
    StrictlyMonotone(g, GridPoint(from, to, i - 1), GridPoint(from, to, i))
  }

  ghost predicate SteadyDay(g: real -> real, days: seq<real>, d: nat)
    requires d + 1 < |days|
  {
    SteadySteps(g, days[d], days[d + 1])
  }

  ghost predicate SteadyDays(g: real -> real, days: seq<real>) {
    forall d: nat :: d + 1 < |days| ==> SteadyDay(g, days, d)
  }

  /** The wrapped angle `f` of a continuous motion `g` that the grid can follow. */
  ghost predicate Followed(f: real -> real, g: real -> real) {
    Wraps(f, g) && SlowerThanTheGrid(g) && Continuous(g)
  }

  /** The day saw the crossing at `raw`, and a root of the day records it. */
  ghost predicate RecordsAt(f: real -> real, g: real -> real, from: real, to: real, raw: real, c: real) {
    && raw in RawOf(f, from, to) && from <= raw < to
    && Marks(g, raw, c) && RecordedNear(DayRoots(f, from, to), raw, to)
  }

  ghost predicate RecordedBy(f: real -> real, g: real -> real, from: real, to: real, c: real) {
    exists raw :: RecordsAt(f, g, from, to, raw, c)
  }

  lemma SeenIsRecorded(f: real -> real, g: real -> real, from: real, to: real, raw: real, c: real)
    requires raw in RawOf(f, from, to) && from <= raw < to && Marks(g, raw, c)
    ensures RecordedBy(f, g, from, to, c)
  {
    EveryRawHasADayRoot(f, from, to, raw);
    assert RecordsAt(f, g, from, to, raw, c);
  }

  // ----- Some day records it -----

  /** The angle is on zero at `t` beside the crossing. */
  ghost predicate OnZeroBeside(f: real -> real, g: real -> real, t: real, c: real) {
    OnZero(f(t)) && Marks(g, t, c)
  }

  lemma {:induction false} DayOf(days: seq<real>, c: real) returns (d: nat)
    requires 2 <= |days| && days[0] <= c < days[|days| - 1]
    ensures d + 1 < |days| && days[d] <= c < days[d + 1]
  {
    if days[|days| - 2] <= c {
      d := |days| - 2;
    } else {
      d := DayOf(days[..|days| - 1], c);
    }
  }

  lemma StepOf(from: real, to: real, c: real) returns (i: nat)
    requires from <= c < to
    ensures 0 < i <= StepCount(from, to) && GridPoint(from, to, i - 1) <= c <= GridPoint(from, to, i)
  {
    i := ((c - from) * 96.0).Floor + 1;
    assert (c - from) * 96.0 < (to - from) * 96.0;
  }

  lemma SeenInItsDay(f: real -> real, g: real -> real, from: real, to: real, c: real)
    requires Followed(f, g) && SteadySteps(g, from, to) && from <= c < to && Crosses(g, c)
    ensures RecordedBy(f, g, from, to, c) || OnZeroBeside(f, g, to, c)
  {
    var i := StepOf(from, to, c);
    assert SteadyStep(g, from, to, i);
    GridAdvances(from, to, i);
    var raw := CrossingsAreFound(f, g, from, to, i, GridPoint(from, to, i - 1), GridPoint(from, to, i), c);
    if raw < to {
      SeenIsRecorded(f, g, from, to, raw, c);
    }
  }

  lemma StartIsRecorded(f: real -> real, g: real -> real, from: real, to: real, c: real)
    requires from < to && OnZeroBeside(f, g, from, c)
    ensures RecordedBy(f, g, from, to, c)
  {
    StartIsRaw(f, from, to, StepCount(from, to));
    SeenIsRecorded(f, g, from, to, from, c);
  }

  ghost predicate RecordedOn(f: real -> real, g: real -> real, days: seq<real>, d: int, c: real)
    requires 0 <= d < |days| - 1
  {
    RecordedBy(f, g, days[d], days[d + 1], c)
  }

  lemma ItsDayOrTheNext(f: real -> real, g: real -> real, days: seq<real>, d: nat, c: real)
    requires Followed(f, g) && SteadyDays(g, days)
    requires d + 1 < |days| && days[d] <= c < days[d + 1] && Crosses(g, c)
    ensures RecordedOn(f, g, days, d, c) || OnZeroBeside(f, g, days[d + 1], c)
  {
    assert SteadyDay(g, days, d);
    SeenInItsDay(f, g, days[d], days[d + 1], c);
  }

  lemma NextDayRecordsIt(f: real -> real, g: real -> real, days: seq<real>, d: nat, c: real)
    requires WholeDays(days) && d + 1 < |days| && OnZeroBeside(f, g, days[d], c)
    ensures RecordedOn(f, g, days, d, c)
  {
    assert WholeDay(days, d);
    StartIsRecorded(f, g, days[d], days[d + 1], c);
  }

  /** Some day of the run records the crossing, unless the angle is still on zero when the run ends. */
  lemma SomeDayRecordsIt(f: real -> real, g: real -> real, days: seq<real>, c: real) returns (d: nat)
    requires Followed(f, g) && WholeDays(days) && SteadyDays(g, days)
    requires 2 <= |days| && days[0] <= c < days[|days| - 1] && Crosses(g, c)
    requires !OnZeroBeside(f, g, days[|days| - 1], c)
    ensures d + 1 < |days| && RecordedOn(f, g, days, d, c)
  {
    d := DayOf(days, c);
    ItsDayOrTheNext(f, g, days, d, c);
    if !RecordedOn(f, g, days, d, c) {
      d := d + 1;
      NextDayRecordsIt(f, g, days, d, c);
    }
  }

  // ----- No other day does -----

  function LastSample(from: real, to: real): real {
    if StepCount(from, to) == 0 then from else GridPoint(from, to, StepCount(from, to) - 1)
  }

  /** `raw` was bracketed between `a` and `b`. */
  ghost predicate Bracketed(f: real -> real, g: real -> real, a: real, b: real, raw: real) {
    && !OnZero(f(a)) && !OnZero(f(b)) && a < raw < b <= a + DAY_SCAN_STEP
    && NearAZero(g, a, b, raw) && StrictlyMonotone(g, a, b)
  }

  lemma {:induction false} RawHasAStep(f: real -> real, from: real, to: real, n: nat, raw: real) returns (i: nat)
    requires raw in Raw(f, from, to, n)
    ensures i <= n && raw in RawAt(f, from, to, i)
    decreases n
  {
    if raw in RawAt(f, from, to, n) {
      i := n;
    } else {
      i := RawHasAStep(f, from, to, n - 1, raw);
    }
  }

  lemma SamplesReachTheLast(from: real, to: real, i: nat)
    requires from < to && i <= StepCount(from, to) && GridPoint(from, to, i) < to
    ensures GridPoint(from, to, i) <= LastSample(from, to)
  {
    LastSampleIsTheEnd(from, to);
    assert i <= StepCount(from, to) - 1;
  }

  /** What a day sees is a sample on zero or a bracket between two samples off zero. */
  lemma SampleOrBracket(f: real -> real, g: real -> real, from: real, to: real, raw: real) returns (a: real, b: real)
    requires Followed(f, g) && SteadySteps(g, from, to)
    requires raw in RawOf(f, from, to) && from <= raw < to
    ensures from <= a <= b <= to
    ensures (OnZero(f(raw)) && raw <= LastSample(from, to)) || Bracketed(f, g, a, b, raw)
  {
    var i := RawHasAStep(f, from, to, StepCount(from, to), raw);
    a, b := from, to;
    if raw == GridPoint(from, to, i) && OnZero(f(raw)) {
      SamplesReachTheLast(from, to, i);
    } else if 0 < i {
      GridAdvances(from, to, i);
      a, b := GridPoint(from, to, i - 1), GridPoint(from, to, i);
      assert SteadyStep(g, from, to, i);
      BracketedStep(f, g, a, b);
    }
  }

  /** Two crossings beside one instant are on one revolution. */
  lemma OneRevolution(g: real -> real, t: real, c: real, own: real)
    requires SlowerThanTheGrid(g) && Crosses(g, c) && Crosses(g, own) && Abs(t - own) <= HALF_DAY_ROOT_TOLERANCE
    requires Abs(t - c) <= HALF_DAY_ROOT_TOLERANCE || Abs(g(t) - g(c)) <= ANGULAR_ZERO_TOLERANCE
    ensures g(own) == g(c)
  {
    var k :| g(c) == Turns(k);
    var j :| g(own) == Turns(j);
    assert SlowBetween(g, t, own) && SlowBetween(g, t, c);
    assert k == j;
  }

  lemma BeyondTheEnd(g: real -> real, a: real, b: real, raw: real, own: real, c: real)
    requires StrictlyMonotone(g, a, b) && StrictlyMonotone(g, raw, c) && a < raw < b <= c && a <= own < b
    ensures g(own) != g(c)
  {
    assert g(raw) < g(b) || g(raw) > g(b);
    assert g(own) < g(b) <= g(c) || g(own) > g(b) >= g(c);
  }

  lemma BeforeTheStart(g: real -> real, a: real, b: real, raw: real, own: real, c: real)
    requires StrictlyMonotone(g, a, b) && StrictlyMonotone(g, c, raw) && c <= a < raw < b && a < own <= b
    ensures g(own) != g(c)
  {
    assert g(a) < g(raw) || g(a) > g(raw);
    assert g(c) <= g(a) < g(own) || g(c) >= g(a) > g(own);
  }

  lemma StepHoldsTheCrossing(g: real -> real, a: real, b: real, raw: real, own: real, c: real)
    requires StrictlyMonotone(g, a, b) && StrictlyMonotone(g, Min(raw, c), Max(raw, c))
    requires a < raw < b && a < own < b && g(own) == g(c)
    ensures a < c < b
  {
    if b <= c {
      BeyondTheEnd(g, a, b, raw, own, c);
    }
    if c <= a {
      BeforeTheStart(g, a, b, raw, own, c);
    }
  }

  /** A bracket marks no crossing but its own. */
  lemma BracketKeepsItsCrossing(f: real -> real, g: real -> real, a: real, b: real, raw: real, c: real)
    requires Followed(f, g) && Bracketed(f, g, a, b, raw) && Marks(g, raw, c) && Crosses(g, c)
    ensures a < c < b
  {
    var own :| a <= own <= b && Crosses(g, own) && Abs(raw - own) <= HALF_DAY_ROOT_TOLERANCE;
    OneRevolution(g, raw, c, own);
    OffZeroDoesNotCross(f, g, a);
    OffZeroDoesNotCross(f, g, b);
    StepHoldsTheCrossing(g, a, b, raw, own, c);
  }

  lemma OffZeroDoesNotCross(f: real -> real, g: real -> real, t: real)
    requires Wraps(f, g) && !OnZero(f(t))
    ensures !Crosses(g, t)
  {
    assert WrapsAt(f, g, t);
    if k: int :| g(t) == Turns(k) {
      WrapOnItsRevolution(g(t), k);
    }
  }

  /** From a sample on zero to the crossing that it marks the angle stays on zero. */
  lemma HeldOnZero(f: real -> real, g: real -> real, raw: real, c: real, t: real)
    requires Followed(f, g) && Marks(g, raw, c) && Crosses(g, c) && OnZero(f(raw))
    requires Min(raw, c) <= t <= Max(raw, c)
    ensures OnZeroBeside(f, g, t, c)
  {
    var k :| g(c) == Turns(k);
    assert WrapsAt(f, g, raw) && WrapsAt(f, g, t);
    if Abs(raw - c) <= HALF_DAY_ROOT_TOLERANCE {
      NearACrossing(f, g, c, k, raw);
    }
    assert Abs(g(raw) - g(c)) <= ANGULAR_ZERO_TOLERANCE;
    assert Abs(g(t) - g(c)) <= ANGULAR_ZERO_TOLERANCE;
    WrapOnItsRevolution(g(t), k);
  }

  /** The last two samples of the day are both on zero and mark the crossing. */
  ghost predicate Straddles(f: real -> real, g: real -> real, from: real, to: real, c: real) {
    OnZeroBeside(f, g, LastSample(from, to), c) && OnZeroBeside(f, g, to, c)
  }

  /** A bracket in the earlier of two days is the only one to see its crossing. */
  lemma EarlierBracketIsAlone(
    f: real -> real, g: real -> real, a: real, b: real, first: real, from: real, to: real, second: real, c: real)
    requires Followed(f, g) && SteadySteps(g, from, to) && Crosses(g, c)
    requires Bracketed(f, g, a, b, first) && Marks(g, first, c) && b <= from
    ensures !RecordsAt(f, g, from, to, second, c)
  {
    BracketKeepsItsCrossing(f, g, a, b, first, c);
    if RecordsAt(f, g, from, to, second, c) {
      var a', b' := SampleOrBracket(f, g, from, to, second);
      if Bracketed(f, g, a', b', second) {
        BracketKeepsItsCrossing(f, g, a', b', second, c);
      } else {
        HeldOnZero(f, g, second, c, b);
      }
    }
  }

  /** Two days record one crossing only if the last two samples of the earlier day are on zero beside it. */
  lemma TwoDaysStraddle(
    f: real -> real, g: real -> real, from: real, to: real, from': real, to': real, c: real)
    requires Followed(f, g) && SteadySteps(g, from, to) && SteadySteps(g, from', to') && to <= from' && Crosses(g, c)
    requires RecordedBy(f, g, from, to, c) && RecordedBy(f, g, from', to', c)
    ensures Straddles(f, g, from, to, c)
  {
    var first :| RecordsAt(f, g, from, to, first, c);
    var second :| RecordsAt(f, g, from', to', second, c);
    var a, b := SampleOrBracket(f, g, from, to, first);
    var a', b' := SampleOrBracket(f, g, from', to', second);
    if Bracketed(f, g, a, b, first) {
      EarlierBracketIsAlone(f, g, a, b, first, from', to', second, c);
    } else if Bracketed(f, g, a', b', second) {
      BracketKeepsItsCrossing(f, g, a', b', second, c);
      HeldOnZero(f, g, first, c, a');
    } else {
      LastSampleIsTheEnd(from, to);
      HeldBetween(f, g, first, second, c, LastSample(from, to));
      HeldBetween(f, g, first, second, c, to);
    }
  }

  lemma HeldBetween(f: real -> real, g: real -> real, first: real, second: real, c: real, t: real)
    requires Followed(f, g) && Crosses(g, c) && first <= t <= second
    requires OnZeroBeside(f, g, first, c) && OnZeroBeside(f, g, second, c)
    ensures OnZeroBeside(f, g, t, c)
  {
    if Min(first, c) <= t <= Max(first, c) {
      HeldOnZero(f, g, first, c, t);
    } else {
      HeldOnZero(f, g, second, c, t);
    }
  }

  lemma StraddledByBoth(f: real -> real, g: real -> real, from: real, to: real, to': real, c: real)
    requires from < to < to' && Straddles(f, g, from, to, c)
    ensures RecordedBy(f, g, from, to, c) && RecordedBy(f, g, to, to', c)
  {
    LastSampleIsTheEnd(from, to);
    var i := StepCount(from, to) - 1;
    GridAdvances(from, to, i + 1);
    LastStepEndsTheDay(from, to, i);
    assert LastSample(from, to) in RawAt(f, from, to, i);
    StepsAreRaw(f, from, to, StepCount(from, to), i, LastSample(from, to));
    SeenIsRecorded(f, g, from, to, LastSample(from, to), c);
    StartIsRecorded(f, g, to, to', c);
  }

  lemma {:induction false} DaysAscend(days: seq<real>, d: nat, e: nat)
    requires WholeDays(days) && d <= e < |days|
    ensures days[d] <= days[e]
  {
    if d < e {
      DaysAscend(days, d, e - 1);
      assert WholeDay(days, e - 1);
    }
  }

  ghost predicate StraddledAt(f: real -> real, g: real -> real, days: seq<real>, d: int, c: real)
    requires 0 <= d < |days| - 1
  {
    Straddles(f, g, days[d], days[d + 1], c)
  }

  lemma LaterDayStartsLater(g: real -> real, days: seq<real>, d: nat, e: nat)
    requires WholeDays(days) && SteadyDays(g, days) && d < e < |days| - 1
    ensures days[d] < days[d + 1] <= days[e]
    ensures SteadySteps(g, days[d], days[d + 1]) && SteadySteps(g, days[e], days[e + 1])
  {
    DaysAscend(days, d + 1, e);
    assert WholeDay(days, d) && SteadyDay(g, days, d) && SteadyDay(g, days, e);
  }

  lemma TwoDaysAreStraddled(f: real -> real, g: real -> real, days: seq<real>, d: nat, e: nat, c: real)
    requires Followed(f, g) && WholeDays(days) && SteadyDays(g, days) && Crosses(g, c)
    requires d < e < |days| - 1 && RecordedOn(f, g, days, d, c) && RecordedOn(f, g, days, e, c)
    ensures StraddledAt(f, g, days, d, c)
  {
    LaterDayStartsLater(g, days, d, e);
    var from, to, from', to' := days[d], days[d + 1], days[e], days[e + 1];
    TwoDaysStraddle(f, g, from, to, from', to', c);
  }

  /** Over any run of whole days a crossing is recorded by some day, and by one alone exactly when no
      boundary inside the run is straddled: there the angle is on zero at the boundary and already at the
      sample before it. */
  lemma EachCrossingHasItsDay(f: real -> real, g: real -> real, days: seq<real>, c: real) returns (d: nat)
    requires Followed(f, g) && WholeDays(days) && SteadyDays(g, days)
    requires 2 <= |days| && days[0] <= c < days[|days| - 1] && Crosses(g, c)
    requires !OnZeroBeside(f, g, days[|days| - 1], c)
    ensures d + 1 < |days| && RecordedOn(f, g, days, d, c)
    ensures (forall e :: 0 <= e < |days| - 1 && e != d ==> !RecordedOn(f, g, days, e, c))
       <==> (forall e :: 0 <= e < |days| - 2 ==> !StraddledAt(f, g, days, e, c))
  {
    d := SomeDayRecordsIt(f, g, days, c);
    assert RecordedOn(f, g, days, d, c);
    if e :| 0 <= e < |days| - 1 && e != d && RecordedOn(f, g, days, e, c) {
      TwoDaysAreStraddled(f, g, days, if d < e then d else e, if d < e then e else d, c);
      assert StraddledAt(f, g, days, if d < e then d else e, c);
    }
    if e :| 0 <= e < |days| - 2 && StraddledAt(f, g, days, e, c) {
      assert WholeDay(days, e) && WholeDay(days, e + 1);
      StraddledByBoth(f, g, days[e], days[e + 1], days[e + 2], c);
      assert RecordedOn(f, g, days, e, c) && RecordedOn(f, g, days, e + 1, c);
    }
  }

  // ----- A crossing that two days record -----

  const SLOW: real -> real := t => (t - 1.0) * ANGULAR_ZERO_TOLERANCE
  const SLOW_WRAPPED: real -> real := t => Wrap180(SLOW(t))

  lemma SlowIsFollowed()
    ensures Followed(SLOW_WRAPPED, SLOW)
  {
    forall t
      ensures WrapsAt(SLOW_WRAPPED, SLOW, t)
    {
    }
    forall s, t
      ensures SlowBetween(SLOW, s, t)
    {
    }
    forall a, b, y | a <= b && (SLOW(a) <= y <= SLOW(b) || SLOW(b) <= y <= SLOW(a))
      ensures Attains(SLOW, a, b, y)
    {
      var c := y / ANGULAR_ZERO_TOLERANCE + 1.0;
      assert a <= c <= b && SLOW(c) == y;
    }
  }

  lemma SlowIsOnZero(t: real)
    requires 0.0 <= t <= 2.0
    ensures OnZeroBeside(SLOW_WRAPPED, SLOW, t, 1.0)
  {
    WrapOnItsRevolution(SLOW(t), 0);
  }

  lemma SlowIsSteady(from: real, to: real)
    ensures SteadySteps(SLOW, from, to)
  {
    forall i: nat | 0 < i <= StepCount(from, to)
      ensures SteadyStep(SLOW, from, to, i)
    {
      forall s, t | s < t
        ensures SLOW(s) < SLOW(t)
      {
      }
    }
  }

  lemma SlowStraddles(from: real, to: real)
    requires 0.0 <= from < to == 1.0
    ensures Straddles(SLOW_WRAPPED, SLOW, from, to, to)
  {
    LastSampleIsTheEnd(from, to);
    GridAdvances(from, to, StepCount(from, to));
    SlowIsOnZero(LastSample(from, to));
    SlowIsOnZero(to);
  }

  lemma SlowDaysAreSteady(days: seq<real>)
    ensures SteadyDays(SLOW, days)
  {
    forall d: nat | d + 1 < |days|
      ensures SteadyDay(SLOW, days, d)
    {
      SlowIsSteady(days[d], days[d + 1]);
    }
  }

  lemma SlowIsWrittenTwice(from: real, to: real, to': real)
    requires 0.0 <= from < to == 1.0 < to'
    ensures RecordedBy(SLOW_WRAPPED, SLOW, from, to, to) && RecordedBy(SLOW_WRAPPED, SLOW, to, to', to)
    ensures Crosses(SLOW, to)
  {
    assert SLOW(to) == Turns(0);
    SlowStraddles(from, to);
    StraddledByBoth(SLOW_WRAPPED, SLOW, from, to, to', to);
  }

  /** An angle that moves by the zero tolerance in a day and crosses zero at midnight is recorded on both days. */
  lemma ASlowCrossingIsWrittenTwice(days: seq<real>)
    requires WholeDays(days) && |days| == 3 && 0.0 <= days[0] && days[1] == 1.0
    ensures Followed(SLOW_WRAPPED, SLOW) && SteadyDays(SLOW, days) && Crosses(SLOW, days[1])
    ensures RecordedOn(SLOW_WRAPPED, SLOW, days, 0, days[1]) && RecordedOn(SLOW_WRAPPED, SLOW, days, 1, days[1])
  {
    SlowIsFollowed();
    SlowDaysAreSteady(days);
    assert WholeDay(days, 0) && WholeDay(days, 1);
    SlowIsWrittenTwice(days[0], days[1], days[2]);
  }
}
