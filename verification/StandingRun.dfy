/** A motion that stands still at every grid instant up to the epoch, and what two windows make of it. */
module StandingRun {
  import opened Angles
  import opened CyclePolicy
  import opened Sky
  import opened Motions
  import opened NodeScan

  // ----- The motion -----

  function Knot(n: int): real {
    EPOCH + (n as real) / 4.0
  }

  /** Where the body is at the epoch. */
  const TOP := 82.46875

  /** Where it stands still: on the whole it moves backwards. */
  function Crest(n: int): real {
    if n % 2 == 0 then TOP - 0.0171875 * (n as real) else TOP - 0.0171875 * (n as real) - 0.021875
  }

  /** From an even knot it moves backwards fast, from an odd one forwards slowly. */
  function Bend(n: int, before: bool): real {
    if n % 2 == 0 then (if before then -0.15 else -1.25) else if before then 1.25 else 0.15
  }

  function NearestKnot(t: real): int {
    (4.0 * (t - EPOCH) + 0.5).Floor
  }

  function RunLift(t: real): real {
    if EPOCH + 0.08 <= t then TOP - 0.008 - 0.2 * (t - (EPOCH + 0.08))
    else if EPOCH <= t then TOP - 1.25 * ((t - EPOCH) * (t - EPOCH))
    else
      var n := NearestKnot(t);
      Crest(n) + Bend(n, t <= Knot(n)) * ((t - Knot(n)) * (t - Knot(n)))
  }

  function RunSpeed(t: real): real {
    if EPOCH + 0.08 <= t then -0.2
    else if EPOCH <= t then -2.5 * (t - EPOCH)
    else
      var n := NearestKnot(t);
      2.0 * Bend(n, t <= Knot(n)) * (t - Knot(n))
  }

  const RUN := Motion(t => RunLift(t), t => RunSpeed(t))

  ghost predicate RunsAt(m: Motion, t: real) {
    m.lift(t) == RunLift(t) && m.speed(t) == RunSpeed(t)
  }

  /** `m` is the run. */
  ghost predicate IsRun(m: Motion) {
    forall t {:trigger RunsAt(m, t)} :: RunsAt(m, t)
  }

  // ----- Its pieces -----

  lemma BeforeAKnot(n: int, t: real)
    requires n <= 0 && Knot(n) - 0.125 <= t <= Knot(n)
    ensures RunLift(t) == Crest(n) + Bend(n, true) * ((t - Knot(n)) * (t - Knot(n)))
    ensures RunSpeed(t) == 2.0 * Bend(n, true) * (t - Knot(n))
  {
    if t < EPOCH {
      assert NearestKnot(t) == n;
    }
  }

  lemma HalfwayOn(n: int)
    requires n < 0
    ensures Crest(n + 1) + Bend(n + 1, true) * (1.0 / 64.0) == Crest(n) + Bend(n, false) * (1.0 / 64.0)
    ensures Bend(n + 1, true) == -Bend(n, false)
  {
  }

  lemma AfterAKnot(n: int, t: real)
    requires n < 0 && Knot(n) <= t <= Knot(n) + 0.125
    ensures RunLift(t) == Crest(n) + Bend(n, false) * ((t - Knot(n)) * (t - Knot(n)))
    ensures RunSpeed(t) == 2.0 * Bend(n, false) * (t - Knot(n))
  {
    if t == Knot(n) + 0.125 {
      assert t == Knot(n + 1) - 0.125;
      BeforeAKnot(n + 1, t);
      HalfwayOn(n);
      assert (t - Knot(n)) * (t - Knot(n)) == 1.0 / 64.0 && (t - Knot(n + 1)) * (t - Knot(n + 1)) == 1.0 / 64.0;
    } else {
      assert NearestKnot(t) == n;
      if t == Knot(n) {
        assert (t - Knot(n)) * (t - Knot(n)) == 0.0 && t - Knot(n) == 0.0;
      }
    }
  }

  /** Where an instant of the run lies. */
  lemma KnotNear(t: real) returns (n: int)
    requires t < EPOCH
    ensures n <= 0 && Knot(n) - 0.125 <= t <= Knot(n) + 0.125 && (n == 0 ==> t <= Knot(n))
  {
    n := NearestKnot(t);
  }

  // ----- It is smooth -----

  lemma BentBefore(m: Motion, n: int, hi: real, top: real, bend: real, x: real)
    requires IsRun(m) && n <= 0 && hi == Knot(n) && top == Crest(n) && bend == Bend(n, true) && hi - 0.125 <= x <= hi
    ensures m.lift(x) == top + bend * ((x - hi) * (x - hi)) && m.speed(x) == 0.0 + 2.0 * bend * (x - hi)
  {
    assert RunsAt(m, x);
    BeforeAKnot(n, x);
  }

  lemma BentAfter(m: Motion, n: int, lo: real, top: real, bend: real, x: real)
    requires IsRun(m) && n < 0 && lo == Knot(n) && top == Crest(n) && bend == Bend(n, false) && lo <= x <= lo + 0.125
    ensures m.lift(x) == top + bend * ((x - lo) * (x - lo)) && m.speed(x) == 0.0 + 2.0 * bend * (x - lo)
  {
    assert RunsAt(m, x);
    AfterAKnot(n, x);
  }

  lemma PieceBefore(m: Motion, root: real -> real, n: int)
    requires IsRun(m) && SquareRoots(root) && n <= 0
    ensures Good(m, Knot(n) - 0.125, Knot(n))
  {
    var hi, top, bend := Knot(n), Crest(n), Bend(n, true);
    forall x | hi - 0.125 <= x <= hi
      ensures m.lift(x) == top + bend * ((x - hi) * (x - hi)) && m.speed(x) == 0.0 + 2.0 * bend * (x - hi)
    {
      BentBefore(m, n, hi, top, bend, x);
    }
    BentIsGood(m, root, hi - 0.125, hi, hi, top, bend, false);
  }

  lemma PieceAfter(m: Motion, root: real -> real, n: int)
    requires IsRun(m) && SquareRoots(root) && n < 0
    ensures Good(m, Knot(n), Knot(n) + 0.125)
  {
    var lo, top, bend := Knot(n), Crest(n), Bend(n, false);
    forall x | lo <= x <= lo + 0.125
      ensures m.lift(x) == top + bend * ((x - lo) * (x - lo)) && m.speed(x) == 0.0 + 2.0 * bend * (x - lo)
    {
      BentAfter(m, n, lo, top, bend, x);
    }
    BentIsGood(m, root, lo, lo + 0.125, lo, top, bend, true);
  }

  lemma {:induction false} RunUpTo(m: Motion, root: real -> real, n: int)
    requires IsRun(m) && SquareRoots(root) && n <= 0
    ensures Good(m, Knot(n) - 0.125, EPOCH)
    decreases -n
  {
    PieceBefore(m, root, n);
    if n < 0 {
      PieceAfter(m, root, n);
      RunUpTo(m, root, n + 1);
      RunStep(m, Knot(n) - 0.125, Knot(n), Knot(n) + 0.125, Knot(n + 1) - 0.125);
    }
  }

  lemma RunStep(m: Motion, lo: real, mid: real, next: real, here: real)
    requires lo <= mid <= next == here <= EPOCH && Good(m, lo, mid) && Good(m, mid, next) && Good(m, here, EPOCH)
    ensures Good(m, lo, EPOCH)
  {
    GoodJoin(m, lo, mid, next);
    GoodJoin(m, lo, next, EPOCH);
  }

  lemma RampIsGood(m: Motion, root: real -> real)
    requires IsRun(m) && SquareRoots(root)
    ensures Good(m, EPOCH, EPOCH + 0.08)
  {
    forall x | EPOCH <= x <= EPOCH + 0.08
      ensures m.lift(x) == TOP + -1.25 * ((x - EPOCH) * (x - EPOCH)) && m.speed(x) == 0.0 + 2.0 * -1.25 * (x - EPOCH)
    {
      assert RunsAt(m, x);
    }
    BentIsGood(m, root, EPOCH, EPOCH + 0.08, EPOCH, TOP, -1.25, true);
  }

  lemma EvenIsGood(m: Motion, hi: real)
    requires IsRun(m) && EPOCH + 0.08 <= hi
    ensures Good(m, EPOCH + 0.08, hi)
  {
    var lo := EPOCH + 0.08;
    forall x | lo <= x <= hi
      ensures m.lift(x) == TOP - 0.008 + -0.2 * (x - lo) && m.speed(x) == -0.2 + 0.0 * (x - lo)
    {
      assert RunsAt(m, x);
    }
    LineIsGood(m, lo, hi, lo, TOP - 0.008, -0.2);
  }

  lemma RunOn(m: Motion, root: real -> real, hi: real)
    requires IsRun(m) && SquareRoots(root) && EPOCH + 0.08 <= hi
    ensures Good(m, EPOCH, hi)
  {
    RampIsGood(m, root);
    EvenIsGood(m, hi);
    GoodJoin(m, EPOCH, EPOCH + 0.08, hi);
  }

  /** A stretch from a knot before `a` to an instant after `b`. */
  lemma Around(a: real, b: real) returns (n: int, hi: real)
    ensures n <= 0 && Knot(n) - 0.125 <= a && b <= hi && EPOCH + 0.08 <= hi
  {
    var f := (4.0 * (a - EPOCH)).Floor;
    n := if f <= 0 then f else 0;
    hi := Max(b, EPOCH + 0.08);
  }

  lemma RunIsGoodAround(m: Motion, root: real -> real, a: real, b: real)
    requires IsRun(m) && SquareRoots(root)
    ensures GoodAround(m, a, b)
  {
    var n, hi := Around(a, b);
    RunUpTo(m, root, n);
    RunOn(m, root, hi);
    GoodJoin(m, Knot(n) - 0.125, EPOCH, hi);
  }

  lemma RunIsSmooth(m: Motion, root: real -> real)
    requires IsRun(m) && SquareRoots(root)
    ensures Smooth(m) && Lipschitz(m.speed, STEEPEST)
  {
    forall a, b | a <= b
      ensures GoodAround(m, a, b)
    {
      RunIsGoodAround(m, root, a, b);
    }
    GoodIsSmooth(m);
  }

  // ----- Where it stands still -----

  lemma StandsAtKnots(m: Motion, n: int)
    requires IsRun(m) && n <= 0
    ensures m.speed(Knot(n)) == 0.0 && m.lift(Knot(n)) == Crest(n)
  {
    assert RunsAt(m, Knot(n));
    BeforeAKnot(n, Knot(n));
  }

  lemma BentSign(bend: real, d: real, speed: real)
    requires bend == 1.25 || bend == -1.25 || bend == 0.15 || bend == -0.15
    requires speed == 2.0 * bend * d
    ensures Sign(speed) == if 0.0 < bend then Sign(d) else -Sign(d)
  {
  }

  lemma BendSigns(n: int)
    ensures 0.0 < Bend(n, false) <==> n % 2 != 0
    ensures 0.0 < Bend(n + 1, true) <==> n % 2 == 0
  {
  }

  lemma MovesBetween(n: int, t: real)
    requires n < 0 && Knot(n) < t < Knot(n + 1)
    ensures Sign(RunSpeed(t)) == if n % 2 == 0 then -1 else 1
  {
    var speed := RunSpeed(t);
    BendSigns(n);
    if t <= Knot(n) + 0.125 {
      AfterAKnot(n, t);
      BentSign(Bend(n, false), t - Knot(n), speed);
    } else {
      BeforeAKnot(n + 1, t);
      BentSign(Bend(n + 1, true), t - Knot(n + 1), speed);
    }
  }

  predicate Backwards(n: int) {
    n % 2 == 0 || 0 <= n
  }

  lemma SignBetween(m: Motion, n: int, t: real)
    requires IsRun(m) && Knot(n) <= t < Knot(n + 1) && (n <= 0 ==> Knot(n) < t)
    ensures Sign(m.speed(t)) == if Backwards(n) then -1 else 1
  {
    assert RunsAt(m, t);
    if n < 0 {
      MovesBetween(n, t);
    }
  }

  lemma KnotBelow(t: real) returns (n: int)
    ensures Knot(n) <= t < Knot(n + 1)
  {
    n := (4.0 * (t - EPOCH)).Floor;
  }

  /** It stands still at the knots up to the epoch and nowhere else. */
  lemma StandsOnlyAtKnots(m: Motion, t: real) returns (n: int)
    requires IsRun(m)
    ensures Knot(n) <= t < Knot(n + 1)
    ensures Reversal(m, t) <==> n <= 0 && t == Knot(n)
    ensures !Reversal(m, t) ==> Sign(m.speed(t)) == if Backwards(n) then -1 else 1
  {
    n := KnotBelow(t);
    if n <= 0 && t == Knot(n) {
      StandsAtKnots(m, n);
    } else {
      SignBetween(m, n, t);
    }
  }

  lemma SameGap(m: Motion, n: int, a: real, b: real)
    requires IsRun(m) && Knot(n) <= a < b < Knot(n + 1)
    ensures !ReversalBetween(m, a, b)
  {
    forall z | a < z < b
      ensures !Reversal(m, z)
    {
      var l := StandsOnlyAtKnots(m, z);
      assert l == n;
    }
  }

  lemma TurnsBetween(m: Motion, a: real, b: real)
    requires IsRun(m) && a < b <= a + 0.005 && !Reversal(m, a) && !Reversal(m, b)
    ensures ReversalBetween(m, a, b) <==> Sign(m.speed(a)) != Sign(m.speed(b))
  {
    var n := StandsOnlyAtKnots(m, a);
    var l := StandsOnlyAtKnots(m, b);
    if n == l {
      SameGap(m, n, a, b);
    } else {
      assert l == n + 1;
      TurnsAcross(m, n, a, b);
    }
  }

  lemma TurnsAcross(m: Motion, n: int, a: real, b: real)
    requires IsRun(m) && Knot(n) <= a < Knot(n + 1) <= b < Knot(n + 2) && !Reversal(m, b)
    ensures ReversalBetween(m, a, b) <==> Backwards(n) != Backwards(n + 1)
  {
    if n < 0 {
      StandsAtKnots(m, n + 1);
      assert Reversal(m, Knot(n + 1));
      assert Knot(n + 1) != b;
    } else {
      forall z | a < z < b
        ensures !Reversal(m, z)
      {
        var l := StandsOnlyAtKnots(m, z);
      }
    }
  }

  lemma RunTurnsAtKnots(m: Motion)
    requires IsRun(m)
    ensures SpacedReversals(m, 0.005)
  {
    forall y, z | Reversal(m, y) && Reversal(m, z) && y < z
      ensures 0.005 < z - y
    {
      var n := StandsOnlyAtKnots(m, y);
      var l := StandsOnlyAtKnots(m, z);
      assert n < l;
    }
    forall a, b | a < b <= a + 0.005 && !Reversal(m, a) && !Reversal(m, b)
      ensures ReversalBetween(m, a, b) <==> Sign(m.speed(a)) != Sign(m.speed(b))
    {
      TurnsBetween(m, a, b);
    }
  }

  // ----- How far it moves -----

  lemma BendIsSmall(n: int, before: bool, square: real)
    requires 0.0 <= square <= 1.0 / 64.0
    ensures if n % 2 == 0 then -0.01953125 <= Bend(n, before) * square <= 0.0 else 0.0 <= Bend(n, before) * square <= 0.01953125
    ensures before && n % 2 == 0 ==> -0.00234375 <= Bend(n, before) * square
  {
  }

  /** Near a knot the body is at most a fiftieth of a degree from where it stands still. */
  lemma NearTheCrest(t: real) returns (n: int)
    requires t < EPOCH
    ensures n <= 0 && Knot(n) - 0.125 <= t <= Knot(n) + 0.125
    ensures if n % 2 == 0 then Crest(n) - 0.01953125 <= RunLift(t) <= Crest(n) else Crest(n) <= RunLift(t) <= Crest(n) + 0.01953125
    ensures t <= Knot(n) && n % 2 == 0 ==> Crest(n) - 0.00234375 <= RunLift(t)
  {
    n := KnotNear(t);
    var square := (t - Knot(n)) * (t - Knot(n));
    SquareIsSmall(t - Knot(n), 0.125);
    BendIsSmall(n, t <= Knot(n), square);
    if t <= Knot(n) {
      BeforeAKnot(n, t);
    } else {
      AfterAKnot(n, t);
    }
  }

  /** Up to an even knot the body has hardly been lower than it is there. */
  lemma NotLowerBefore(n: int, t: real)
    requires n <= 0 && n % 2 == 0 && t <= Knot(n)
    ensures Crest(n) - 0.0046875 <= RunLift(t)
  {
    if t == EPOCH {
      assert n == 0;
    } else {
      var l := NearTheCrest(t);
      assert l <= n;
      if l % 2 == 0 && l < n { assert l <= n - 2; }
    }
  }

  /** From an even knot on the body is never higher than it is there. */
  lemma NotHigherAfter(n: int, t: real)
    requires n <= 0 && n % 2 == 0 && Knot(n) <= t
    ensures RunLift(t) <= Crest(n)
  {
    if t < EPOCH {
      var l := NearTheCrest(t);
      assert n <= l;
    } else {
      KeepsToItsLineOn(t);
    }
  }

  /** Up to the epoch the body keeps close to a line. */
  lemma KeepsToItsLine(t: real)
    requires t <= EPOCH
    ensures TOP - 0.06875 * (t - EPOCH) - 0.1 <= RunLift(t) <= TOP - 0.06875 * (t - EPOCH) + 0.1
  {
    if t < EPOCH {
      var n := NearTheCrest(t);
    }
  }

  lemma KeepsToItsLineOn(t: real)
    requires EPOCH <= t
    ensures TOP - 0.2 * (t - EPOCH) <= RunLift(t) <= TOP - 0.2 * (t - EPOCH) + 0.008
    ensures RunLift(t) <= TOP
  {
    if t < EPOCH + 0.08 {
      var x := t - EPOCH;
      SquareIsNonnegative(x);
      SquareIsNonnegative(x - 0.08);
      assert (x - 0.08) * (x - 0.08) == x * x - 0.16 * x + 0.0064;
      ProductIsNonnegative(x, 0.16 - x);
      assert x * (0.16 - x) == 0.16 * x - x * x;
    }
  }

  lemma ProductIsNonnegative(u: real, v: real)
    requires 0.0 <= u && 0.0 <= v
    ensures 0.0 <= u * v
  {
  }

  lemma RunReturnsLittle(s: real, t: real)
    requires s <= t
    ensures RunLift(t) <= RunLift(s) + 2.0
  {
    if s <= EPOCH { KeepsToItsLine(s); } else { KeepsToItsLineOn(s); }
    if t <= EPOCH { KeepsToItsLine(t); } else { KeepsToItsLineOn(t); }
  }

  lemma RunIsSlow(s: real, t: real)
    requires s <= t <= s + REACH
    ensures RunLift(s) - RunLift(t) < 180.0
  {
    if s <= EPOCH { KeepsToItsLine(s); } else { KeepsToItsLineOn(s); }
    if t <= EPOCH { KeepsToItsLine(t); } else { KeepsToItsLineOn(t); }
  }

  /** The run is as the node's row of the policy describes its motion. */
  lemma RunMovesAsTheNode(m: Motion, root: real -> real)
    requires IsRun(m) && SquareRoots(root)
    ensures NodeMotion(m)
  {
    RunIsSmooth(m, root);
    RunTurnsAtKnots(m);
    assert RunsAt(m, EPOCH);
    forall s, t
      ensures !HalfTurnApart(m, REACH, s, t)
    {
      assert RunsAt(m, s) && RunsAt(m, t);
      if -REACH <= s - t <= REACH {
        RunIsSlow(Min(s, t), Max(s, t));
        RunReturnsLittle(Min(s, t), Max(s, t));
      }
    }
    forall s, t | s <= t
      ensures m.lift(t) <= m.lift(s) + 2.0
    {
      assert RunsAt(m, s) && RunsAt(m, t);
      RunReturnsLittle(s, t);
    }
  }
}
