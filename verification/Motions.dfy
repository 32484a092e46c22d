/** Motions put together from straight and parabolic pieces, and why they are smooth. */
module Motions {
  import opened Angles
  import opened Sky

  // ----- Products and squares -----

  lemma ProductIsPositive(u: real, v: real)
    requires 0.0 < u && 0.0 < v
    ensures 0.0 < u * v
  {
  }

  lemma SquaresAscend(x: real, y: real)
    requires 0.0 <= y < x
    ensures y * y < x * x
  {
    ProductIsPositive(x - y, x + y);
    assert x * x - y * y == (x - y) * (x + y);
  }

  lemma SquaresGrow(x: real, y: real)
    requires 0.0 <= x <= y
    ensures x * x <= y * y
  {
    if x < y {
      SquaresAscend(y, x);
    }
  }

  lemma SquareIsSmall(v: real, bound: real)
    requires -bound <= v <= bound
    ensures 0.0 <= v * v <= bound * bound
  {
    if 0.0 <= v { SquaresGrow(v, bound); } else { SquaresGrow(-v, bound); }
  }

  lemma SquaresOrder(x: real, y: real)
    requires 0.0 <= x && 0.0 <= y && x * x <= y * y
    ensures x <= y
  {
    if y < x {
      SquaresAscend(x, y);
    }
  }

  /** A factor that is not zero keeps or turns round the order of three numbers. */
  lemma ScaledBetween(factor: real, s: real, q: real, t: real)
    requires factor != 0.0 && (factor * s <= factor * q <= factor * t || factor * t <= factor * q <= factor * s)
    ensures s <= q <= t || t <= q <= s
  {
    ScaledOrderIff(factor, s, q);
    ScaledOrderIff(factor, q, t);
    ScaledOrderIff(factor, q, s);
    ScaledOrderIff(factor, t, q);
  }

  lemma ScaledOrderIff(factor: real, x: real, y: real)
    requires factor != 0.0
    ensures factor * x <= factor * y <==> if 0.0 < factor then x <= y else y <= x
  {
    if x < y {
      ProductIsPositive(if 0.0 < factor then factor else -factor, y - x);
      assert factor * (y - x) == factor * y - factor * x;
    } else if y < x {
      ProductIsPositive(if 0.0 < factor then factor else -factor, x - y);
      assert factor * (x - y) == factor * x - factor * y;
    }
  }

  lemma QuotientTimes(x: real, y: real)
    requires y != 0.0
    ensures y * (x / y) == x
  {
  }

  /** Real numbers have square roots; `root` gives them. */
  ghost predicate SquareRoots(root: real -> real) {
    forall y {:trigger root(y)} :: 0.0 <= y ==> 0.0 <= root(y) && root(y) * root(y) == y
  }

  // ----- Continuity, piece by piece -----

  ghost predicate ContinuousOn(f: real -> real, lo: real, hi: real) {
    forall a, b, y {:trigger Attains(f, a, b, y)} ::
      lo <= a <= b <= hi && (f(a) <= y <= f(b) || f(b) <= y <= f(a)) ==> Attains(f, a, b, y)
  }

  lemma PiecesJoin(f: real -> real, lo: real, mid: real, hi: real)
    requires lo <= mid <= hi && ContinuousOn(f, lo, mid) && ContinuousOn(f, mid, hi)
    ensures ContinuousOn(f, lo, hi)
  {
    forall a, b, y | lo <= a <= b <= hi && (f(a) <= y <= f(b) || f(b) <= y <= f(a))
      ensures Attains(f, a, b, y)
    {
      if a <= mid <= b {
        assert Attains(f, a, mid, y) || Attains(f, mid, b, y);
      }
    }
  }

  lemma LinePoint(slope: real, anchor: real, start: real, a: real, b: real, fa: real, fb: real, y: real) returns (t: real)
    requires a <= b && fa == start + slope * (a - anchor) && fb == start + slope * (b - anchor)
    requires fa <= y <= fb || fb <= y <= fa
    ensures a <= t <= b && start + slope * (t - anchor) == y
  {
    t := a;
    if slope != 0.0 {
      var d := (y - start) / slope;
      QuotientTimes(y - start, slope);
      ScaledBetween(slope, a - anchor, d, b - anchor);
      t := d + anchor;
      assert t - anchor == d;
    }
  }

  ghost predicate IsLine(f: real -> real, lo: real, hi: real, anchor: real, start: real, slope: real) {
    forall x :: lo <= x <= hi ==> f(x) == start + slope * (x - anchor)
  }

  lemma LinearPiece(f: real -> real, lo: real, hi: real, anchor: real, start: real, slope: real)
    requires IsLine(f, lo, hi, anchor, start, slope)
    ensures ContinuousOn(f, lo, hi)
  {
    forall a, b, y | lo <= a <= b <= hi && (f(a) <= y <= f(b) || f(b) <= y <= f(a))
      ensures Attains(f, a, b, y)
    {
      var t := LinePoint(slope, anchor, start, a, b, f(a), f(b), y);
      assert f(t) == y;
    }
  }

  lemma SquareBetween(top: real, bend: real, s: real, t: real, fs: real, ft: real, y: real) returns (square: real)
    requires bend != 0.0 && fs == top + bend * s && ft == top + bend * t
    requires fs <= y <= ft || ft <= y <= fs
    ensures top + bend * square == y && (s <= square <= t || t <= square <= s)
  {
    square := (y - top) / bend;
    QuotientTimes(y - top, bend);
    ScaledBetween(bend, s, square, t);
  }

  lemma RootBetween(root: real -> real, da: real, db: real, sa: real, sb: real, square: real) returns (r: real)
    requires SquareRoots(root) && 0.0 <= da && 0.0 <= db && sa == da * da && sb == db * db
    requires sa <= square <= sb || sb <= square <= sa
    ensures r * r == square && (da <= r <= db || db <= r <= da)
  {
    SquareIsNonnegative(da);
    SquareIsNonnegative(db);
    r := root(square);
    if sa <= square <= sb {
      SquaresOrder(da, r);
      SquaresOrder(r, db);
    } else {
      SquaresOrder(db, r);
      SquaresOrder(r, da);
    }
  }

  lemma ParabolaPoint(
    root: real -> real, vertex: real, top: real, bend: real, right: bool, a: real, b: real, fa: real, fb: real, y: real)
    returns (t: real)
    requires SquareRoots(root) && bend != 0.0
    requires a <= b && if right then vertex <= a else b <= vertex
    requires fa == top + bend * ((a - vertex) * (a - vertex)) && fb == top + bend * ((b - vertex) * (b - vertex))
    requires fa <= y <= fb || fb <= y <= fa
    ensures a <= t <= b && top + bend * ((t - vertex) * (t - vertex)) == y
  {
    var da, db := if right then a - vertex else vertex - a, if right then b - vertex else vertex - b;
    var sa, sb := da * da, db * db;
    assert sa == (a - vertex) * (a - vertex) && sb == (b - vertex) * (b - vertex);
    var square := SquareBetween(top, bend, sa, sb, fa, fb, y);
    var r := RootBetween(root, da, db, sa, sb, square);
    t := if right then vertex + r else vertex - r;
    assert (t - vertex) * (t - vertex) == r * r;
  }

  ghost predicate IsParabola(f: real -> real, lo: real, hi: real, vertex: real, top: real, bend: real) {
    forall x :: lo <= x <= hi ==> f(x) == top + bend * ((x - vertex) * (x - vertex))
  }

  /** An arc of a parabola on one side of its vertex takes every value in between. */
  lemma ParabolaPiece(
    f: real -> real, root: real -> real, vertex: real, top: real, bend: real, right: bool, lo: real, hi: real)
    requires SquareRoots(root) && bend != 0.0 && if right then vertex <= lo else hi <= vertex
    requires IsParabola(f, lo, hi, vertex, top, bend)
    ensures ContinuousOn(f, lo, hi)
  {
    forall a, b, y | lo <= a <= b <= hi && (f(a) <= y <= f(b) || f(b) <= y <= f(a))
      ensures Attains(f, a, b, y)
    {
      var t := ParabolaPoint(root, vertex, top, bend, right, a, b, f(a), f(b), y);
      assert f(t) == y;
    }
  }

  // ----- The speed is the rate -----

  ghost predicate RateOn(m: Motion, lo: real, hi: real) {
    forall a, b {:trigger MeanSpeedTaken(m, a, b)} :: lo <= a < b <= hi ==> MeanSpeedTaken(m, a, b)
  }

  lemma SumIsPositive(u: real, v: real, x: real, y: real)
    requires 0.0 < u && 0.0 < v && 0.0 < x && 0.0 < y
    ensures 0.0 < u * x + v * y
  {
  }

  /** A mean of two speeds weighted by positive times lies between them. */
  lemma MeanLiesBetween(p: real, q: real, x: real, y: real, mean: real)
    requires 0.0 < x && 0.0 < y && p * x + q * y == mean * (x + y)
    ensures p <= mean <= q || q <= mean <= p
  {
    assert (p - mean) * x + (q - mean) * y == 0.0 && (mean - p) * x + (mean - q) * y == 0.0;
    if mean < p && mean < q {
      SumIsPositive(p - mean, q - mean, x, y);
    } else if p < mean && q < mean {
      SumIsPositive(mean - p, mean - q, x, y);
    }
  }

  lemma MeanOf(way1: real, way2: real, way: real, p: real, q: real, x: real, y: real, z: real) returns (mean: real)
    requires 0.0 < x && 0.0 < y && way1 == p * x && way2 == q * y && way == way1 + way2 && z == x + y
    ensures way == mean * z && (p <= mean <= q || q <= mean <= p)
  {
    mean := way / z;
    assert mean * z == way;
    MeanLiesBetween(p, q, x, y, mean);
  }

  lemma RateInstant(m: Motion, a: real, b: real) returns (t: real, rate: real)
    requires MeanSpeedTaken(m, a, b)
    ensures a < t < b && rate == m.speed(t) && m.lift(b) - m.lift(a) == rate * (b - a)
  {
    t :| a < t < b && m.lift(b) - m.lift(a) == m.speed(t) * (b - a);
    rate := m.speed(t);
  }

  lemma RateTaken(m: Motion, a: real, b: real, t1: real, t2: real, rate: real)
    requires Continuous(m.speed) && a < t1 < t2 < b && m.lift(b) - m.lift(a) == rate * (b - a)
    requires m.speed(t1) <= rate <= m.speed(t2) || m.speed(t2) <= rate <= m.speed(t1)
    ensures MeanSpeedTaken(m, a, b)
  {
    assert Attains(m.speed, t1, t2, rate);
    var t :| t1 <= t <= t2 && m.speed(t) == rate;
  }

  lemma RateAcross(m: Motion, a: real, mid: real, b: real)
    requires a < mid < b && MeanSpeedTaken(m, a, mid) && MeanSpeedTaken(m, mid, b) && Continuous(m.speed)
    ensures MeanSpeedTaken(m, a, b)
  {
    var t1, rate1 := RateInstant(m, a, mid);
    var t2, rate2 := RateInstant(m, mid, b);
    var rate := MeanOf(m.lift(mid) - m.lift(a), m.lift(b) - m.lift(mid), m.lift(b) - m.lift(a),
                       rate1, rate2, mid - a, b - mid, b - a);
    RateTaken(m, a, b, t1, t2, rate);
  }

  lemma RatesJoin(m: Motion, lo: real, mid: real, hi: real)
    requires lo <= mid <= hi && RateOn(m, lo, mid) && RateOn(m, mid, hi) && Continuous(m.speed)
    ensures RateOn(m, lo, hi)
  {
    forall a, b | lo <= a < b <= hi
      ensures MeanSpeedTaken(m, a, b)
    {
      if a < mid < b {
        RateAcross(m, a, mid, b);
      } else {
        assert b <= mid || mid <= a;
      }
    }
  }

  lemma EvenPiece(m: Motion, lo: real, hi: real, anchor: real, start: real, slope: real)
    requires IsLine(m.lift, lo, hi, anchor, start, slope)
    requires forall x :: lo <= x <= hi ==> m.speed(x) == slope
    ensures RateOn(m, lo, hi)
  {
    forall a, b | lo <= a < b <= hi
      ensures MeanSpeedTaken(m, a, b)
    {
      var t := (a + b) / 2.0;
      assert m.speed(t) == slope && slope * (b - anchor) - slope * (a - anchor) == slope * (b - a);
      assert a < t < b && m.lift(b) - m.lift(a) == m.speed(t) * (b - a);
    }
  }

  lemma MidpointRate(a: real, b: real, vertex: real, bend: real)
    ensures bend * ((b - vertex) * (b - vertex)) - bend * ((a - vertex) * (a - vertex))
         == 2.0 * bend * ((a + b) / 2.0 - vertex) * (b - a)
  {
    var x, y := a - vertex, b - vertex;
    assert (a + b) / 2.0 - vertex == (x + y) / 2.0 && b - a == y - x;
    assert y * y - x * x == (x + y) * (y - x);
    assert bend * (y * y) - bend * (x * x) == bend * (y * y - x * x);
    assert 2.0 * bend * ((x + y) / 2.0) * (y - x) == bend * ((x + y) * (y - x));
  }

  lemma BentPiece(m: Motion, lo: real, hi: real, vertex: real, top: real, bend: real)
    requires IsParabola(m.lift, lo, hi, vertex, top, bend) && IsLine(m.speed, lo, hi, vertex, 0.0, 2.0 * bend)
    ensures RateOn(m, lo, hi)
  {
    forall a, b | lo <= a < b <= hi
      ensures MeanSpeedTaken(m, a, b)
    {
      var t := (a + b) / 2.0;
      MidpointRate(a, b, vertex, bend);
      assert m.speed(t) == 2.0 * bend * (t - vertex);
      assert m.lift(b) - m.lift(a) == 2.0 * bend * (t - vertex) * (b - a);
      assert a < t < b && m.lift(b) - m.lift(a) == m.speed(t) * (b - a);
    }
  }

  // ----- Slope -----

  /** The true node's bound on how fast its speed changes, a day. */
  const STEEPEST := 2.5

  ghost predicate SlopeOn(f: real -> real, lo: real, hi: real) {
    forall s, t :: lo <= s <= t <= hi ==> -(STEEPEST * (t - s)) <= f(s) - f(t) <= STEEPEST * (t - s)
  }

  lemma SlopesJoin(f: real -> real, lo: real, mid: real, hi: real)
    requires lo <= mid <= hi && SlopeOn(f, lo, mid) && SlopeOn(f, mid, hi)
    ensures SlopeOn(f, lo, hi)
  {
    forall s, t | lo <= s <= t <= hi
      ensures -(STEEPEST * (t - s)) <= f(s) - f(t) <= STEEPEST * (t - s)
    {
      if s <= mid <= t {
        assert -(STEEPEST * (mid - s)) <= f(s) - f(mid) <= STEEPEST * (mid - s);
        assert -(STEEPEST * (t - mid)) <= f(mid) - f(t) <= STEEPEST * (t - mid);
      }
    }
  }

  // ----- All of it together -----

  /** The motion is smooth over a stretch. That the speed is the rate is said once the speed is continuous. */
  ghost predicate Good(m: Motion, lo: real, hi: real) {
    && ContinuousOn(m.lift, lo, hi) && ContinuousOn(m.speed, lo, hi) && SlopeOn(m.speed, lo, hi)
    && (Continuous(m.speed) ==> RateOn(m, lo, hi))
  }

  lemma SlopePiece(f: real -> real, lo: real, hi: real, anchor: real, bend: real)
    requires bend == 1.25 || bend == -1.25 || bend == 0.15 || bend == -0.15
    requires IsLine(f, lo, hi, anchor, 0.0, 2.0 * bend)
    ensures SlopeOn(f, lo, hi)
  {
  }

  lemma BentIsGood(m: Motion, root: real -> real, lo: real, hi: real, vertex: real, top: real, bend: real, right: bool)
    requires SquareRoots(root) && (bend == 1.25 || bend == -1.25 || bend == 0.15 || bend == -0.15)
    requires if right then vertex <= lo else hi <= vertex
    requires IsParabola(m.lift, lo, hi, vertex, top, bend) && IsLine(m.speed, lo, hi, vertex, 0.0, 2.0 * bend)
    ensures Good(m, lo, hi)
  {
    ParabolaPiece(m.lift, root, vertex, top, bend, right, lo, hi);
    LinearPiece(m.speed, lo, hi, vertex, 0.0, 2.0 * bend);
    BentPiece(m, lo, hi, vertex, top, bend);
    SlopePiece(m.speed, lo, hi, vertex, bend);
  }

  lemma GoodJoin(m: Motion, lo: real, mid: real, hi: real)
    requires lo <= mid <= hi && Good(m, lo, mid) && Good(m, mid, hi)
    ensures Good(m, lo, hi)
  {
    PiecesJoin(m.lift, lo, mid, hi);
    PiecesJoin(m.speed, lo, mid, hi);
    SlopesJoin(m.speed, lo, mid, hi);
    if Continuous(m.speed) {
      RatesJoin(m, lo, mid, hi);
    }
  }

  lemma LineIsGood(m: Motion, lo: real, hi: real, anchor: real, start: real, slope: real)
    requires IsLine(m.lift, lo, hi, anchor, start, slope) && IsLine(m.speed, lo, hi, anchor, slope, 0.0)
    ensures Good(m, lo, hi)
  {
    LinearPiece(m.lift, lo, hi, anchor, start, slope);
    LinearPiece(m.speed, lo, hi, anchor, slope, 0.0);
    EvenPiece(m, lo, hi, anchor, start, slope);
  }

  ghost predicate GoodAround(m: Motion, a: real, b: real) {
    exists lo, hi :: lo <= a && b <= hi && Good(m, lo, hi)
  }

  /** A motion that is good around every stretch is smooth. */
  lemma GoodIsSmooth(m: Motion)
    requires forall a, b {:trigger GoodAround(m, a, b)} :: a <= b ==> GoodAround(m, a, b)
    ensures Smooth(m) && Lipschitz(m.speed, STEEPEST)
  {
    forall a, b, y | a <= b && (m.lift(a) <= y <= m.lift(b) || m.lift(b) <= y <= m.lift(a))
      ensures Attains(m.lift, a, b, y)
    {
      assert GoodAround(m, a, b);
    }
    forall a, b, y | a <= b && (m.speed(a) <= y <= m.speed(b) || m.speed(b) <= y <= m.speed(a))
      ensures Attains(m.speed, a, b, y)
    {
      assert GoodAround(m, a, b);
    }
    forall s, t | s <= t
      ensures -(STEEPEST * (t - s)) <= m.speed(s) - m.speed(t) <= STEEPEST * (t - s)
    {
      assert GoodAround(m, s, t);
    }
    forall a, b | a < b
      ensures MeanSpeedTaken(m, a, b)
    {
      assert GoodAround(m, a, b);
    }
  }
}
