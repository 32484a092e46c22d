/** Separations, oriented targets, and whether an aspect is applying. */
module Aspects {
  import opened Angles
  import opened CyclePolicy

  /** The smallest angle between two longitudes, in [0, 180]. */
  function AngularSeparation(a: real, b: real): (d: real)
    ensures 0.0 <= d <= 180.0
  {
    var d := TruncatedRemainder(Abs(Norm360(a) - Norm360(b)));
    if d > 180.0 then 360.0 - d else d
  }

  datatype OrientedBranch = Plus | Minus | Single

  datatype OrientedTarget = OrientedTarget(branch: OrientedBranch, targetDeg: real)

  const TARGET_MERGE_TOLERANCE := 0.000000001

  /** The distinct oriented target longitudes for a natal longitude and an aspect. */
  function OrientedTargets(natalLongitude: real, aspectAngle: real): seq<OrientedTarget> {
    var plus := Norm360(natalLongitude + aspectAngle);
    var minus := Norm360(natalLongitude - aspectAngle);
    if Abs(Wrap180(plus - minus)) < TARGET_MERGE_TOLERANCE then [OrientedTarget(Single, plus)]
    else [OrientedTarget(Plus, plus), OrientedTarget(Minus, minus)]
  }

  // ----- A separation is a target hit -----

  /** The separation is the size of the wrapped difference. */
  lemma SeparationIsWrapped(a: real, b: real)
    ensures AngularSeparation(a, b) == Abs(Wrap180(a - b))
  {
    var d := Norm360(a) - Norm360(b);
    assert TruncatedRemainder(Abs(d)) == Abs(d);
    var wrapped := if d >= 180.0 then d - 360.0 else if d < -180.0 then d + 360.0 else d;
    assert wrapped == d + Turns(0) || wrapped == d + Turns(1) || wrapped == d + Turns(-1);
    DirectionsSubtract(Norm360(a), a, Norm360(b), b);
    SameDirectionIsEquivalence(wrapped, d, a - b);
    SameDirectionIsEquivalence(wrapped, a - b, wrapped);
    WrapIsUnique(a - b, wrapped);
  }

  ghost predicate Hits(targets: seq<OrientedTarget>, lon: real) {
    exists i :: 0 <= i < |targets| && SameDirection(lon, targets[i].targetDeg)
  }

  lemma SameAngleSum(x: real, y: real, s: real)
    ensures SameDirection(x - y, s) <==> SameDirection(x, y + s)
  {
    if SameDirection(x - y, s) {
      var k :| x - y == s + Turns(k);
      assert x == y + s + Turns(k);
    }
    if SameDirection(x, y + s) {
      var k :| x == y + s + Turns(k);
      assert x - y == s + Turns(k);
    }
  }

  /** The body stands at `natal + angle` or at `natal - angle`. */
  lemma SeparationHoldsAtTwoPlaces(lon: real, natal: real, angle: real)
    requires 0.0 <= angle <= 180.0
    ensures AngularSeparation(lon, natal) == angle
       <==> SameDirection(lon, natal + angle) || SameDirection(lon, natal - angle)
  {
    var wrapped := Wrap180(lon - natal);
    SeparationIsWrapped(lon, natal);
    SameAngleSum(lon, natal, angle);
    SameAngleSum(lon, natal, -angle);
    SameDirectionIsEquivalence(wrapped, lon - natal, wrapped);
    if SameDirection(lon - natal, angle) || SameDirection(lon - natal, -angle) {
      if angle == 180.0 {
        HalfTurnsCoincide(lon - natal);
        WrapIsUnique(lon - natal, -180.0);
      } else if SameDirection(lon - natal, angle) {
        WrapIsUnique(lon - natal, angle);
      } else {
        WrapIsUnique(lon - natal, -angle);
      }
    }
  }

  lemma HalfTurnsCoincide(x: real)
    ensures SameDirection(x, 180.0) <==> SameDirection(x, -180.0)
  {
    if SameDirection(x, 180.0) {
      var k :| x == 180.0 + Turns(k);
      assert x == -180.0 + Turns(k + 1);
    }
    if SameDirection(x, -180.0) {
      var k :| x == -180.0 + Turns(k);
      assert x == 180.0 + Turns(k - 1);
    }
  }

  /** The two branches name one direction exactly at conjunction and opposition. */
  lemma BranchesCoincide(natal: real, angle: real)
    requires 0.0 <= angle <= 180.0
    ensures SameDirection(natal + angle, natal - angle) <==> angle == 0.0 || angle == 180.0
  {
    if SameDirection(natal + angle, natal - angle) {
      var k :| natal + angle == natal - angle + Turns(k);
      assert 2.0 * angle == Turns(k);
    }
    assert natal + 0.0 == natal - 0.0 + Turns(0);
    assert natal + 180.0 == natal - 180.0 + Turns(1);
  }

  lemma MergedExactlyWhenClose(natal: real, angle: real)
    requires 0.0 <= angle <= 180.0
    ensures |OrientedTargets(natal, angle)| == 1
       <==> 2.0 * angle < TARGET_MERGE_TOLERANCE || 360.0 - TARGET_MERGE_TOLERANCE < 2.0 * angle
  {
    var plus, minus := Norm360(natal + angle), Norm360(natal - angle);
    DirectionsSubtract(plus, natal + angle, minus, natal - angle);
    var wrapped := if angle < 90.0 then 2.0 * angle else 2.0 * angle - 360.0;
    assert wrapped == 2.0 * angle + Turns(0) || wrapped == 2.0 * angle + Turns(-1);
    assert (natal + angle) - (natal - angle) == 2.0 * angle;
    SameDirectionIsEquivalence(wrapped, 2.0 * angle, plus - minus);
    SameDirectionIsEquivalence(plus - minus, 2.0 * angle, wrapped);
    WrapIsUnique(plus - minus, wrapped);
  }

  lemma HitsOneOrTwo(targets: seq<OrientedTarget>, lon: real)
    ensures |targets| == 1 ==> (Hits(targets, lon) <==> SameDirection(lon, targets[0].targetDeg))
    ensures |targets| == 2 ==>
      (Hits(targets, lon) <==> SameDirection(lon, targets[0].targetDeg) || SameDirection(lon, targets[1].targetDeg))
  {
  }

  lemma TargetsHitTheirPlaces(lon: real, natal: real, angle: real)
    requires 0.0 <= angle <= 180.0
    ensures |OrientedTargets(natal, angle)| == 1 ==>
      (Hits(OrientedTargets(natal, angle), lon) <==> SameDirection(lon, natal + angle))
    ensures |OrientedTargets(natal, angle)| != 1 ==>
      (Hits(OrientedTargets(natal, angle), lon) <==> SameDirection(lon, natal + angle) || SameDirection(lon, natal - angle))
  {
    HitsOneOrTwo(OrientedTargets(natal, angle), lon);
    ReducedTargetIsHit(lon, natal + angle);
    ReducedTargetIsHit(lon, natal - angle);
  }

  /** The targets are merged only where they truly coincide. */
  predicate MergesOnlyEquals(angle: real) {
    angle == 0.0 || angle == 180.0 || TARGET_MERGE_TOLERANCE <= 2.0 * angle <= 360.0 - TARGET_MERGE_TOLERANCE
  }

  /** A separation of `angle` holds exactly when some oriented target is hit. */
  lemma SeparationIsATargetHit(lon: real, natal: real, angle: real)
    requires 0.0 <= angle <= 180.0 && MergesOnlyEquals(angle)
    ensures AngularSeparation(lon, natal) == angle <==> Hits(OrientedTargets(natal, angle), lon)
  {
    SeparationHoldsAtTwoPlaces(lon, natal, angle);
    TargetsHitTheirPlaces(lon, natal, angle);
    MergedExactlyWhenClose(natal, angle);
    BranchesCoincide(natal, angle);
    SameDirectionIsEquivalence(lon, natal - angle, natal + angle);
    SameDirectionIsEquivalence(natal + angle, natal - angle, natal + angle);
  }

  /** For which angles the oriented targets catch every separation: exactly those that the merge
      tolerance does not blur. Below it the branch at `natal - angle` is lost. */
  lemma TargetsAreExactIff(natal: real, angle: real)
    requires 0.0 <= angle <= 180.0
    ensures (forall lon :: AngularSeparation(lon, natal) == angle <==> Hits(OrientedTargets(natal, angle), lon))
       <==> MergesOnlyEquals(angle)
  {
    if MergesOnlyEquals(angle) {
      forall lon
        ensures AngularSeparation(lon, natal) == angle <==> Hits(OrientedTargets(natal, angle), lon)
      {
        SeparationIsATargetHit(lon, natal, angle);
      }
    } else {
      var lost := natal - angle;
      SeparationHoldsAtTwoPlaces(lost, natal, angle);
      TargetsHitTheirPlaces(lost, natal, angle);
      MergedExactlyWhenClose(natal, angle);
      BranchesCoincide(natal, angle);
      SameDirectionIsEquivalence(lost, natal + angle, lost);
      SameDirectionIsEquivalence(natal + angle, lost, lost);
    }
  }

  lemma ReducedTargetIsHit(lon: real, target: real)
    ensures SameDirection(lon, Norm360(target)) <==> SameDirection(lon, target)
  {
    SameDirectionIsEquivalence(lon, Norm360(target), target);
    SameDirectionIsEquivalence(Norm360(target), target, lon);
    SameDirectionIsEquivalence(lon, target, Norm360(target));
  }

  /** Which direction a label names: plus the natal longitude advanced by the angle, minus the one set back by
      it, and single both, exactly at conjunction and opposition. */
  ghost predicate Names(branch: OrientedBranch, direction: real, natal: real, angle: real) {
    match branch
    case Plus => SameDirection(direction, natal + angle) && 0.0 < angle < 180.0
    case Minus => SameDirection(direction, natal - angle) && 0.0 < angle < 180.0
    case Single => SameDirection(direction, natal + angle) && SameDirection(direction, natal - angle)
  }

  lemma LabelsNameTheirSide(natal: real, angle: real, t: OrientedTarget)
    requires 0.0 <= angle <= 180.0 && MergesOnlyEquals(angle) && t in OrientedTargets(natal, angle)
    ensures 0.0 <= t.targetDeg < 360.0 && Names(t.branch, t.targetDeg, natal, angle)
  {
    MergedExactlyWhenClose(natal, angle);
    BranchesCoincide(natal, angle);
    if t.branch == Single {
      SameDirectionIsEquivalence(t.targetDeg, natal + angle, natal - angle);
    }
  }

  /** For every aspect in the table: the separation is exact exactly on its oriented targets. */
  lemma EveryAspectIsATargetHit(lon: real, natal: real, aspect: AspectType)
    ensures AngularSeparation(lon, natal) == AspectAngle(aspect) <==> Hits(OrientedTargets(natal, AspectAngle(aspect)), lon)
  {
    SeparationIsATargetHit(lon, natal, AspectAngle(aspect));
  }

  // ----- Applying and separating -----

  function IsApplying(lonA: real, lonB: real, speedA: real, speedB: real, aspectAngle: real): bool {
    var d := Norm360(lonA - lonB);
    var separation := if d <= 180.0 then d else 360.0 - d;
    var separationRate := if d <= 180.0 then speedA - speedB else speedB - speedA;
    var offset := separation - aspectAngle;
    if offset == 0.0 then false else (Sign(offset) as real) * separationRate < 0.0
  }

  /** The distance from exactness when both bodies have moved on for `h` days. */
  function OrbAfter(lonA: real, lonB: real, speedA: real, speedB: real, aspectAngle: real, h: real): real {
    Abs(AngularSeparation(lonA + speedA * h, lonB + speedB * h) - aspectAngle)
  }

  ghost predicate ShrinksUntil(lonA: real, lonB: real, speedA: real, speedB: real, aspectAngle: real, soon: real) {
    forall h :: 0.0 < h < soon ==>
      OrbAfter(lonA, lonB, speedA, speedB, aspectAngle, h) < OrbAfter(lonA, lonB, speedA, speedB, aspectAngle, 0.0)
  }

  /** At every sufficiently short later time the orb is strictly smaller. */
  ghost predicate OrbShrinks(lonA: real, lonB: real, speedA: real, speedB: real, aspectAngle: real) {
    exists soon :: 0.0 < soon && ShrinksUntil(lonA, lonB, speedA, speedB, aspectAngle, soon)
  }

  /** The orb as a function of the difference of the two longitudes. */
  function OrbOfDifference(x: real, aspectAngle: real): real {
    Abs(Abs(Wrap180(x)) - aspectAngle)
  }

  lemma OrbDependsOnTravel(lonA: real, lonB: real, speedA: real, speedB: real, aspectAngle: real, h: real, travel: real)
    requires travel == speedA * h - speedB * h
    ensures OrbAfter(lonA, lonB, speedA, speedB, aspectAngle, h) == OrbOfDifference(lonA - lonB + travel, aspectAngle)
  {
    var x, y := lonA + speedA * h, lonB + speedB * h;
    SeparationIsWrapped(x, y);
    assert x - y == lonA - lonB + travel;
  }

  /** The room a difference in (0, 360) has before it leaves its half of the circle. */
  function Room(d: real): real {
    if d < 180.0 then Min(d, 180.0 - d) else Min(d - 180.0, 360.0 - d)
  }

  /** On its half of the circle the separation moves as the difference does, or against it. */
  function SeparationAfter(d: real, travel: real): real {
    if d < 180.0 then d + travel else 360.0 - d - travel
  }

  lemma OrbMovesLinearly(x: real, d: real, travel: real, aspectAngle: real)
    requires d == Norm360(x) && 0.0 < d && d != 180.0 && -Room(d) < travel < Room(d)
    ensures OrbOfDifference(x + travel, aspectAngle) == Abs(SeparationAfter(d, travel) - aspectAngle)
  {
    var wrapped := if d < 180.0 then d + travel else d + travel - 360.0;
    var k :| d == x + Turns(k);
    assert x + travel == if d < 180.0 then wrapped + Turns(-k) else wrapped + Turns(1 - k);
    WrapIsUnique(x + travel, wrapped);
  }

  /** Offset from the aspect and rate of the separation have opposite signs. */
  predicate Closing(d: real, rate: real, aspectAngle: real) {
    var offset := (if d <= 180.0 then d else 360.0 - d) - aspectAngle;
    var separationRate := if d <= 180.0 then rate else -rate;
    (offset < 0.0 && 0.0 < separationRate) || (0.0 < offset && separationRate < 0.0)
  }

  lemma ApplyingIsClosing(lonA: real, lonB: real, speedA: real, speedB: real, aspectAngle: real)
    ensures IsApplying(lonA, lonB, speedA, speedB, aspectAngle)
       <==> Closing(Norm360(lonA - lonB), speedA - speedB, aspectAngle)
  {
  }

  /** A step too short to leave the half circle or to pass the aspect. */
  lemma ShortStepCloses(x: real, d: real, rate: real, travel: real, aspectAngle: real, room: real)
    requires d == Norm360(x) && 0.0 < d && d != 180.0
    requires room <= Room(d) && room <= Abs(SeparationAfter(d, 0.0) - aspectAngle)
    requires -room < travel < room && Sign(travel) == Sign(rate) != 0
    ensures OrbOfDifference(x + travel, aspectAngle) < OrbOfDifference(x, aspectAngle) <==> Closing(d, rate, aspectAngle)
  {
    OrbMovesLinearly(x, d, travel, aspectAngle);
    OrbMovesLinearly(x, d, 0.0, aspectAngle);
    assert x + 0.0 == x;
  }

  lemma ShortTravel(rate: real, h: real, room: real, travel: real)
    requires rate != 0.0 && 0.0 < h < room / Abs(rate) && travel == rate * h
    ensures -room < travel < room && Sign(travel) == Sign(rate)
  {
    var size := Abs(rate);
    var bound := room / size;
    assert size * bound == room;
    assert size * h < size * bound;
    assert 0.0 < size * h;
    assert travel == size * h || travel == -(size * h);
  }

  lemma SeparationNow(a: real, b: real, d: real)
    requires d == Norm360(a - b)
    ensures AngularSeparation(a, b) == if d <= 180.0 then d else 360.0 - d
  {
    var wrapped := if d < 180.0 then d else d - 360.0;
    var k :| d == a - b + Turns(k);
    assert a - b == if d < 180.0 then wrapped + Turns(-k) else wrapped + Turns(1 - k);
    SeparationIsWrapped(a, b);
    WrapIsUnique(a - b, wrapped);
  }

  lemma DifferenceScales(a: real, b: real, h: real, travel: real)
    requires travel == (a - b) * h
    ensures travel == a * h - b * h
  {
  }

  lemma TravelIn(speedA: real, speedB: real, h: real, room: real) returns (travel: real)
    requires speedA != speedB && 0.0 < h < room / Abs(speedA - speedB)
    ensures travel == speedA * h - speedB * h
    ensures -room < travel < room && Sign(travel) == Sign(speedA - speedB) != 0
  {
    var rate := speedA - speedB;
    travel := rate * h;
    ShortTravel(rate, h, room, travel);
    DifferenceScales(speedA, speedB, h, travel);
  }

  /** At one short enough later time the orb is smaller exactly when the aspect is applying. */
  lemma ShortlyAfter(
    lonA: real, lonB: real, speedA: real, speedB: real, aspectAngle: real, room: real, h: real, travel: real, d: real)
    requires d == Norm360(lonA - lonB) && 0.0 < d && d != 180.0 && room <= Room(d)
    requires room <= Abs(SeparationAfter(d, 0.0) - aspectAngle)
    requires travel == speedA * h - speedB * h
    requires -room < travel < room && Sign(travel) == Sign(speedA - speedB) != 0
    ensures OrbAfter(lonA, lonB, speedA, speedB, aspectAngle, h) < OrbAfter(lonA, lonB, speedA, speedB, aspectAngle, 0.0)
       <==> IsApplying(lonA, lonB, speedA, speedB, aspectAngle)
  {
    var x := lonA - lonB;
    ShortStepCloses(x, d, speedA - speedB, travel, aspectAngle, room);
    OrbDependsOnTravel(lonA, lonB, speedA, speedB, aspectAngle, h, travel);
    OrbDependsOnTravel(lonA, lonB, speedA, speedB, aspectAngle, 0.0, 0.0);
    assert x + 0.0 == x;
    ApplyingIsClosing(lonA, lonB, speedA, speedB, aspectAngle);
  }

  lemma NoRelativeMotion(lonA: real, lonB: real, speed: real, aspectAngle: real, soon: real)
    requires 0.0 < soon
    ensures !ShrinksUntil(lonA, lonB, speed, speed, aspectAngle, soon)
  {
    var h := soon / 2.0;
    OrbDependsOnTravel(lonA, lonB, speed, speed, aspectAngle, h, 0.0);
    OrbDependsOnTravel(lonA, lonB, speed, speed, aspectAngle, 0.0, 0.0);
    assert !(OrbAfter(lonA, lonB, speed, speed, aspectAngle, h) < OrbAfter(lonA, lonB, speed, speed, aspectAngle, 0.0));
  }

  lemma ShrinksSoon(lonA: real, lonB: real, speedA: real, speedB: real, aspectAngle: real, soon: real, h: real)
    requires ShrinksUntil(lonA, lonB, speedA, speedB, aspectAngle, soon) && 0.0 < h < soon
    ensures OrbAfter(lonA, lonB, speedA, speedB, aspectAngle, h) < OrbAfter(lonA, lonB, speedA, speedB, aspectAngle, 0.0)
  {
  }

  lemma ShortStepsDecide(lonA: real, lonB: real, speedA: real, speedB: real, aspectAngle: real, soon: real)
    requires 0.0 < soon
    requires forall h :: 0.0 < h < soon ==>
      (OrbAfter(lonA, lonB, speedA, speedB, aspectAngle, h) < OrbAfter(lonA, lonB, speedA, speedB, aspectAngle, 0.0)
       <==> IsApplying(lonA, lonB, speedA, speedB, aspectAngle))
    ensures IsApplying(lonA, lonB, speedA, speedB, aspectAngle) <==> OrbShrinks(lonA, lonB, speedA, speedB, aspectAngle)
  {
    if IsApplying(lonA, lonB, speedA, speedB, aspectAngle) {
      assert ShrinksUntil(lonA, lonB, speedA, speedB, aspectAngle, soon);
    } else if other: real :| 0.0 < other && ShrinksUntil(lonA, lonB, speedA, speedB, aspectAngle, other) {
      ShrinksSoon(lonA, lonB, speedA, speedB, aspectAngle, other, Min(soon, other) / 2.0);
      assert false;
    }
  }

  /** Off the aspect and off 0 and 180, an aspect is applying exactly when the orb is strictly smaller
      at every sufficiently short later time: on either side of the aspect angle, across the wrap,
      and with either body retrograde. */
  lemma ApplyingMeansShrinking(lonA: real, lonB: real, speedA: real, speedB: real, aspectAngle: real)
    requires AngularSeparation(lonA, lonB) != aspectAngle && 0.0 < AngularSeparation(lonA, lonB) < 180.0
    ensures IsApplying(lonA, lonB, speedA, speedB, aspectAngle) <==> OrbShrinks(lonA, lonB, speedA, speedB, aspectAngle)
  {
    var d := Norm360(lonA - lonB);
    SeparationNow(lonA, lonB, d);
    if speedA == speedB {
      ApplyingIsClosing(lonA, lonB, speedA, speedB, aspectAngle);
      forall soon | 0.0 < soon
        ensures !ShrinksUntil(lonA, lonB, speedA, speedB, aspectAngle, soon)
      {
        NoRelativeMotion(lonA, lonB, speedA, aspectAngle, soon);
      }
    } else {
      var room := Min(Room(d), Abs(SeparationAfter(d, 0.0) - aspectAngle));
      var soon := room / Abs(speedA - speedB);
      assert 0.0 < soon;
      forall h | 0.0 < h < soon
        ensures OrbAfter(lonA, lonB, speedA, speedB, aspectAngle, h) < OrbAfter(lonA, lonB, speedA, speedB, aspectAngle, 0.0)
           <==> IsApplying(lonA, lonB, speedA, speedB, aspectAngle)
      {
        var travel := TravelIn(speedA, speedB, h, room);
        ShortlyAfter(lonA, lonB, speedA, speedB, aspectAngle, room, h, travel, d);
      }
      ShortStepsDecide(lonA, lonB, speedA, speedB, aspectAngle, soon);
    }
  }
}
