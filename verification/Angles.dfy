/** Angles in degrees, and the rounding primitives the scanners use on reals. */
module Angles {

  function Sign(x: real): int {
    if x > 0.0 then 1 else if x < 0.0 then -1 else 0
  }

  function Abs(x: real): real {
    if x < 0.0 then -x else x
  }

  function Min(x: real, y: real): real {
    if x <= y then x else y
  }

  function Max(x: real, y: real): real {
    if x <= y then y else x
  }

  /** The least integer that is not below `x`. */
  function Ceil(x: real): int {
    -((-x).Floor)
  }

  /** The nearest integer, halves going up. */
  function Round(x: real): int {
    (x + 0.5).Floor
  }

  /** `k` whole revolutions, in degrees. */
  function Turns(k: int): real {
    360.0 * (k as real)
  }

  /** Two longitudes name the same direction. */
  ghost predicate SameDirection(x: real, y: real) {
    exists k: int :: x == y + Turns(k)
  }

  /** The remainder of division by 360 that keeps the sign of the dividend. */
  function TruncatedRemainder(x: real): real {
    if x >= 0.0 then x - Turns((x / 360.0).Floor) else x + Turns(((-x) / 360.0).Floor)
  }

  /** The representative of `x` in [0, 360). */
  function Norm360(x: real): (r: real)
    ensures 0.0 <= r < 360.0
    ensures SameDirection(r, x)
  {
    Norm360IsFloored(x);
    var v := TruncatedRemainder(x);
    if v < 0.0 then v + 360.0 else v
  }

  /** Repairing the sign of a truncated remainder gives the floored remainder. */
  lemma Norm360IsFloored(x: real)
    ensures var v := TruncatedRemainder(x);
            (if v < 0.0 then v + 360.0 else v) == x + Turns(-(x / 360.0).Floor)
  {
    if x < 0.0 {
      var q := (-x) / 360.0;
      if q == q.Floor as real {
        assert (x / 360.0).Floor == -q.Floor;
      } else {
        assert (x / 360.0).Floor == -q.Floor - 1;
      }
    }
  }

  /** The representative of `x` in [-180, 180). */
  function Wrap180(x: real): (r: real)
    ensures -180.0 <= r < 180.0
    ensures SameDirection(r, x)
  {
    var r := x - Turns(((x + 180.0) / 360.0).Floor);
    assert r == x + Turns(-((x + 180.0) / 360.0).Floor);
    r
  }

  /** A direction has one representative in [-180, 180). */
  lemma WrapIsUnique(x: real, d: real)
    requires SameDirection(x, d) && -180.0 <= d < 180.0
    ensures Wrap180(x) == d
  {
    var k :| x == d + Turns(k);
    assert ((x + 180.0) / 360.0).Floor == k;
  }

  /** A direction has one representative in [0, 360). */
  lemma NormIsUnique(x: real, d: real)
    requires SameDirection(x, d) && 0.0 <= d < 360.0
    ensures Norm360(x) == d
  {
    var k :| x == d + Turns(k);
    Norm360IsFloored(x);
    assert (x / 360.0).Floor == k;
  }

  lemma SameDirectionIsEquivalence(x: real, y: real, z: real)
    ensures SameDirection(x, x)
    ensures SameDirection(x, y) ==> SameDirection(y, x)
    ensures SameDirection(x, y) && SameDirection(y, z) ==> SameDirection(x, z)
  {
    assert x == x + Turns(0);
    if SameDirection(x, y) {
      var k :| x == y + Turns(k);
      assert y == x + Turns(-k);
      if SameDirection(y, z) {
        var j :| y == z + Turns(j);
        assert x == z + Turns(k + j);
      }
    }
  }

  lemma DirectionsSubtract(x: real, x': real, y: real, y': real)
    requires SameDirection(x, x') && SameDirection(y, y')
    ensures SameDirection(x - y, x' - y')
  {
    var k :| x == x' + Turns(k);
    var j :| y == y' + Turns(j);
    assert x - y == x' - y' + Turns(k - j);
  }

  /** The wrapped difference of two reduced longitudes is the true motion whenever
      that motion stays inside half a revolution. */
  lemma WrappedDifferenceIsMotion(x: real, y: real)
    requires -180.0 <= x - y < 180.0
    ensures Wrap180(Norm360(x) - Norm360(y)) == x - y
  {
    DirectionsSubtract(Norm360(x), x, Norm360(y), y);
    WrapIsUnique(Norm360(x) - Norm360(y), x - y);
  }

  lemma ProductOrder(k: real, x: real, y: real)
    requires 0.0 <= k && x <= y
    ensures k * x <= k * y
  {
  }

  lemma SquareIsNonnegative(x: real)
    ensures 0.0 <= x * x
  {
  }
}
