/** The events of one local day: the zeros of a wrapped angle in a half-open interval that are
    rendered to whole seconds and still stay on their own day. */
module DailySky {
  import opened Angles
  import opened CyclePolicy
  import opened Rendering

  const DAY_SCAN_STEP := 15.0 / 1440.0
  const DAY_ROOT_TOLERANCE := 0.05 / 86400.0
  const HALF_DAY_ROOT_TOLERANCE := 0.025 / 86400.0
  const DAY_DEDUPE_TOLERANCE := 5.0 / 86400.0

  // ----- Bisection -----

  /** Whole root tolerances in a span: halving a span wider than one lowers this count. */
  function Ticks(days: real): nat {
    if days <= 0.0 then 0 else (1728000.0 * days).Floor
  }

  function Halved(f: real -> real, lo: real, hi: real, signAtLo: int): real
    decreases Ticks(hi - lo)
  {
    if hi - lo <= DAY_ROOT_TOLERANCE then (lo + hi) / 2.0
    else
      var mid := (lo + hi) / 2.0;
      if Sign(f(mid)) == signAtLo then Halved(f, mid, hi, signAtLo) else Halved(f, lo, mid, signAtLo)
  }

  method Bisect(f: real -> real, lo: real, hi: real, signAtLo: int) returns (jd: real)
    ensures jd == Halved(f, lo, hi, signAtLo)
  {
    var low, high := lo, hi;
    while high - low > DAY_ROOT_TOLERANCE
      invariant Halved(f, low, high, signAtLo) == Halved(f, lo, hi, signAtLo)
      decreases Ticks(high - low)
    {
      var mid := (low + high) / 2.0;
      if Sign(f(mid)) == signAtLo { low := mid; } else { high := mid; }
    }
    jd := (low + high) / 2.0;
  }

  // ----- What each grid point contributes -----

  /** Grid points are counted from the start of the day, never accumulated; ninety-six steps make a day. */
  function GridPoint(from: real, to: real, i: nat): real {
    Min(from + (i as real) / 96.0, to)
  }

  function Steps(from: real, to: real): int {
    Ceil((to - from) * 96.0)
  }

  predicate OnZero(angle: real) {
    Abs(angle) <= ANGULAR_ZERO_TOLERANCE
  }

  /** A sign change that is not the jump of a wrapped angle at the antipode. */
  predicate Brackets(before: real, after: real) {
    !OnZero(before) && Sign(before) != Sign(after) && Abs(before - after) < 180.0
  }

  function Between(f: real -> real, a: real, b: real): seq<real> {
    if OnZero(f(b)) then [b]
    else if Brackets(f(a), f(b)) then [Halved(f, a, b, Sign(f(a)))]
    else []
  }

  function RawAt(f: real -> real, from: real, to: real, i: nat): seq<real> {
    if i == 0 then if OnZero(f(from)) then [from] else []
    else Between(f, GridPoint(from, to, i - 1), GridPoint(from, to, i))
  }

  /** Everything the first `n` steps of the grid contribute. */
  function Raw(f: real -> real, from: real, to: real, n: nat): seq<real> {
    (if n == 0 then [] else Raw(f, from, to, n - 1)) + RawAt(f, from, to, n)
  }

  // ----- Keeping a root on its day -----

  /** The instant recorded for a root: one that would be written as the end of the day is moved
      back to the last second before it. */
  function Placed(raw: real, to: real): real {
    if Seconds1970(raw) >= Seconds1970(to) then to - ONE_SECOND else raw
  }

  predicate Close(a: real, b: real) {
    Abs(a - b) <= DAY_DEDUPE_TOLERANCE
  }

  function Pushed(roots: seq<real>, raw: real, from: real, to: real): seq<real> {
    if raw < from || raw >= to then roots
    else if exists i :: 0 <= i < |roots| && Close(roots[i], Placed(raw, to)) then roots
    else roots + [Placed(raw, to)]
  }

  function PushedAll(roots: seq<real>, raws: seq<real>, from: real, to: real): seq<real> {
    if raws == [] then roots
    else Pushed(PushedAll(roots, raws[..|raws| - 1], from, to), raws[|raws| - 1], from, to)
  }

  function InsertedTime(times: seq<real>, t: real): seq<real> {
    if times == [] then [t]
    else if t < times[0] then [t] + times
    else [times[0]] + InsertedTime(times[1..], t)
  }

  function SortedTimes(times: seq<real>): seq<real> {
    if times == [] then [] else InsertedTime(SortedTimes(times[..|times| - 1]), times[|times| - 1])
  }

  function StepCount(from: real, to: real): nat {
    if Steps(from, to) <= 0 then 0 else Steps(from, to)
  }

  function Found(f: real -> real, from: real, to: real): seq<real> {
    PushedAll([], Raw(f, from, to, StepCount(from, to)), from, to)
  }

  /** The roots of one angle in one day. */
  function DayRoots(f: real -> real, from: real, to: real): seq<real> {
    SortedTimes(Found(f, from, to))
  }

  // ----- The scan -----

  method Push(roots: seq<real>, raw: real, from: real, to: real) returns (grown: seq<real>)
    ensures grown == Pushed(roots, raw, from, to)
  {
    if raw < from || raw >= to { return roots; }
    var jd := if Seconds1970(raw) >= Seconds1970(to) then to - ONE_SECOND else raw;
    var i := 0;
    while i < |roots|
      invariant 0 <= i <= |roots|
      invariant forall n :: 0 <= n < i ==> !Close(roots[n], jd)
    {
      if Abs(roots[i] - jd) <= DAY_DEDUPE_TOLERANCE { return roots; }
      i := i + 1;
    }
    grown := roots + [jd];
  }

  lemma {:induction false} PushedAllExtends(raws: seq<real>, more: seq<real>, from: real, to: real)
    requires |more| <= 1
    ensures PushedAll([], raws + more, from, to)
         == if more == [] then PushedAll([], raws, from, to) else Pushed(PushedAll([], raws, from, to), more[0], from, to)
  {
    if more == [] {
      assert raws + more == raws;
    } else {
      assert (raws + more)[..|raws|] == raws;
    }
  }

  lemma LastStepEndsTheDay(from: real, to: real, i: nat)
    ensures i < Steps(from, to) ==> from + (i as real) / 96.0 < to
    ensures Steps(from, to) <= i ==> to <= from + (i as real) / 96.0
  {
  }

  /** What has been found after each step of the grid, and where each grid point lies. */
  datatype Walk = Walk(found: nat -> seq<real>, point: nat -> real)

  ghost predicate WalksAt(walk: Walk, f: real -> real, from: real, to: real, n: nat) {
    walk.found(n) == PushedAll([], Raw(f, from, to, n), from, to) && walk.point(n) == GridPoint(from, to, n)
  }

  ghost predicate Walks(walk: Walk, f: real -> real, from: real, to: real) {
    forall n: nat {:trigger WalksAt(walk, f, from, to, n)} :: WalksAt(walk, f, from, to, n)
  }

  function WalkOf(f: real -> real, from: real, to: real): (walk: Walk)
    ensures Walks(walk, f, from, to)
  {
    Walk((n: nat) => PushedAll([], Raw(f, from, to, n), from, to), (n: nat) => GridPoint(from, to, n))
  }

  /** One step of the grid: the sample at its end, and the bracket it closes. */
  method TakeStep(
    f: real -> real, from: real, to: real, steps: int, ghost walk: Walk,
    i: nat, previousJd: real, previous: real, roots: seq<real>)
    returns (grown: seq<real>, current: real, value: real)
    requires Walks(walk, f, from, to) && steps == Steps(from, to)
    requires 0 < i && previousJd == walk.point(i - 1) && previous == f(previousJd) && roots == walk.found(i - 1)
    ensures grown == walk.found(i) && current == walk.point(i) && value == f(current)
    ensures to <= current <==> steps <= i
  {
    assert WalksAt(walk, f, from, to, i - 1) && WalksAt(walk, f, from, to, i);
    current := Min(from + (i as real) / 96.0, to);
    LastStepEndsTheDay(from, to, i);
    value := f(current);
    grown := roots;
    PushedAllExtends(Raw(f, from, to, i - 1), Between(f, previousJd, current), from, to);
    if Abs(value) <= ANGULAR_ZERO_TOLERANCE {
      grown := Push(grown, current, from, to);
    } else if Abs(previous) > ANGULAR_ZERO_TOLERANCE && Sign(previous) != Sign(value) && Abs(previous - value) < 180.0 {
      var raw := Bisect(f, previousJd, current, Sign(previous));
      grown := Push(grown, raw, from, to);
    }
  }

  /** The first sample of the day. */
  method TakeFirst(f: real -> real, from: real, to: real, ghost walk: Walk, steps: int)
    returns (roots: seq<real>, value: real)
    requires Walks(walk, f, from, to) && steps == Steps(from, to)
    ensures roots == walk.found(0) && value == f(from)
    ensures 0 < steps ==> walk.point(0) == from
  {
    assert WalksAt(walk, f, from, to, 0);
    value := f(from);
    roots := [];
    var raws := RawAt(f, from, to, 0);
    PushedAllExtends([], raws, from, to);
    assert [] + raws == raws;
    if Abs(value) <= ANGULAR_ZERO_TOLERANCE {
      roots := Push(roots, from, from, to);
    }
  }

  /** Every grid point of the day in turn. */
  method TakeSteps(f: real -> real, from: real, to: real, steps: int, ghost walk: Walk)
    returns (roots: seq<real>)
    requires Walks(walk, f, from, to) && steps == Steps(from, to)
    ensures roots == walk.found(if steps <= 0 then 0 else steps)
  {
    var previousJd := from;
    var previous;
    roots, previous := TakeFirst(f, from, to, walk, steps);
    var i := 1;
    while i <= steps
      invariant 1 <= i && (i <= steps + 1 || i == 1)
      invariant roots == walk.found(i - 1)
      invariant i <= steps ==> previousJd == walk.point(i - 1) && previous == f(previousJd)
    {
      var current, value;
      roots, current, value := TakeStep(f, from, to, steps, walk, i, previousJd, previous, roots);
      i := i + 1;
      if current >= to { break; }
      previousJd, previous := current, value;
    }
  }

  /** Every root of `f` in `[from, to)`. */
  method RootsIn(f: real -> real, from: real, to: real) returns (roots: seq<real>)
    ensures roots == DayRoots(f, from, to)
  {
    ghost var walk := WalkOf(f, from, to);
    roots := TakeSteps(f, from, to, Steps(from, to), walk);
    assert WalksAt(walk, f, from, to, StepCount(from, to));
    roots := SortedTimes(roots);
  }
}
