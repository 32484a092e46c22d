/** The epoch-anchored lift: a memoised chain of checkpoints, and why it recovers the true motion. */
module LiftChain {
  import opened Optional
  import opened Angles
  import opened CyclePolicy
  import opened Sky

  datatype Checkpoint = Checkpoint(jd: real, lon: real, lift: real)

  datatype Chain = Chain(points: map<int, Checkpoint>, min: int, max: int)

  /** The instant of checkpoint `index`. */
  function Instant(step: real, index: int): real {
    EPOCH + (index as real) * step
  }

  lemma InstantsAdvance(step: real, index: int)
    ensures Instant(step, index + 1) == Instant(step, index) + step
  {
    assert ((index + 1) as real) * step == (index as real) * step + step;
  }

  /** The lift that the recurrence assigns to a checkpoint, walking outward from the epoch. */
  function WalkedLift(source: EphemerisSource, body: TransitingBody, step: real, index: int): real
    decreases if index < 0 then -index else index
  {
    var lon := Lon(source, body, Instant(step, index));
    if index == 0 then Norm360(lon)
    else
      var previous := if index > 0 then index - 1 else index + 1;
      WalkedLift(source, body, step, previous) + Wrap180(lon - Lon(source, body, Instant(step, previous)))
  }

  lemma WalkTakesOneStep(source: EphemerisSource, body: TransitingBody, step: real, index: int, direction: int)
    requires (direction == 1 && 0 < index) || (direction == -1 && index < 0)
    ensures WalkedLift(source, body, step, index)
         == WalkedLift(source, body, step, index - direction)
          + Wrap180(Lon(source, body, Instant(step, index)) - Lon(source, body, Instant(step, index - direction)))
  {
  }

  function CheckpointAt(source: EphemerisSource, body: TransitingBody, step: real, index: int): Checkpoint {
    var jd := Instant(step, index);
    Checkpoint(jd, Lon(source, body, jd), WalkedLift(source, body, step, index))
  }

  /** The checkpoint nearest to `jd` among those the ephemeris files can answer. */
  function AnchorIndex(step: real, jd: real): int
    requires 0.0 < step
  {
    var nearest := Round((jd - EPOCH) / step);
    var lowest := Ceil((EPHEMERIS_MIN_JD - EPOCH) / step);
    var highest := ((EPHEMERIS_MAX_JD - EPOCH) / step).Floor;
    var raised := if nearest < lowest then lowest else nearest;
    if raised > highest then highest else raised
  }

  /** The lift of a longitude observed at `jd`, measured from its anchor. */
  function LiftedAt(source: EphemerisSource, body: TransitingBody, step: real, jd: real, lon: real): real
    requires 0.0 < step
  {
    var anchor := CheckpointAt(source, body, step, AnchorIndex(step, jd));
    anchor.lift + Wrap180(lon - anchor.lon)
  }

  class LiftChain {
    const source: EphemerisSource
    const stepOverride: Option<TransitingBody -> real>
    var chains: map<TransitingBody, Chain>

    constructor (source: EphemerisSource, stepOverride: Option<TransitingBody -> real>)
      ensures Valid() && chains == map[]
      ensures this.source == source && this.stepOverride == stepOverride
    {
      this.source := source;
      this.stepOverride := stepOverride;
      chains := map[];
    }

    function Step(body: TransitingBody): real {
      match stepOverride
      case Some(choose) => choose(body)
      case None => PolicyOf(body).liftStep
    }

    /** The memo holds exactly the indices `min..max`, and each entry is the walked checkpoint. */
    ghost predicate Memo(body: TransitingBody, points: map<int, Checkpoint>, min: int, max: int) {
      && min <= 0 <= max
      && (forall i :: i in points <==> min <= i <= max)
      && forall i :: i in points ==> points[i] == CheckpointAt(source, body, Step(body), i)
    }

    ghost predicate Valid()
      reads this
    {
      forall body :: body in chains ==> Memo(body, chains[body].points, chains[body].min, chains[body].max)
    }

    method EnsureChain(body: TransitingBody) returns (chain: Chain)
      requires Valid()
      modifies this
      ensures Valid() && body in chains && chain == chains[body]
      ensures old(chains).Keys <= chains.Keys
      ensures forall b :: b in old(chains) ==> chains[b] == old(chains)[b]
    {
      if body !in chains {
        var lon := source.stateAt(body, EPOCH).lon;
        assert Instant(Step(body), 0) == EPOCH;
        chains := chains[body := Chain(map[0 := Checkpoint(EPOCH, lon, Norm360(lon))], 0, 0)];
      }
      chain := chains[body];
    }

    /** Walk from the known end of the chain to `last`, one step at a time. */
    method Extend(body: TransitingBody, points: map<int, Checkpoint>, min: int, max: int, last: int)
      returns (extended: map<int, Checkpoint>)
      requires Memo(body, points, min, max)
      requires last < min || max < last
      ensures Memo(body, extended, if last < min then last else min, if max < last then last else max)
    {
      var direction := if last < min then -1 else 1;
      var cursor := if last < min then min else max;
      extended := points;
      var previous := extended[cursor];
      ghost var low, high := min, max;
      while cursor != last
        invariant Memo(body, extended, low, high) && low <= cursor <= high
        invariant direction == 1 ==> low == min && high == cursor <= last
        invariant direction == -1 ==> last <= cursor == low && high == max
        invariant previous == CheckpointAt(source, body, Step(body), cursor)
        decreases if direction == 1 then last - cursor else cursor - last
      {
        cursor := cursor + direction;
        previous := NextCheckpoint(body, cursor, direction, previous);
        MemoGrows(body, extended, low, high, cursor);
        extended := extended[cursor := previous];
        low, high := if direction == 1 then low else cursor, if direction == 1 then cursor else high;
      }
    }

    /** One step of the recurrence: the wrapped difference is the true motion only while
        the true motion is itself inside [-180, 180). */
    method NextCheckpoint(body: TransitingBody, cursor: int, direction: int, previous: Checkpoint)
      returns (next: Checkpoint)
      requires (direction == 1 && 0 < cursor) || (direction == -1 && cursor < 0)
      requires previous == CheckpointAt(source, body, Step(body), cursor - direction)
      ensures next == CheckpointAt(source, body, Step(body), cursor)
    {
      var jd := Instant(Step(body), cursor);
      var lon := source.stateAt(body, jd).lon;
      WalkTakesOneStep(source, body, Step(body), cursor, direction);
      next := Checkpoint(jd, lon, previous.lift + Wrap180(lon - previous.lon));
    }

    lemma MemoGrows(body: TransitingBody, points: map<int, Checkpoint>, min: int, max: int, index: int)
      requires Memo(body, points, min, max) && (index == min - 1 || index == max + 1)
      ensures Memo(body, points[index := CheckpointAt(source, body, Step(body), index)],
                   if index < min then index else min, if max < index then index else max)
    {
    }

    method CheckpointFor(body: TransitingBody, index: int) returns (checkpoint: Checkpoint)
      requires Valid()
      modifies this
      ensures Valid() && body in chains && index in chains[body].points
      ensures forall b :: b in old(chains) && b != body ==> b in chains && chains[b] == old(chains)[b]
      ensures checkpoint == CheckpointAt(source, body, Step(body), index)
    {
      var chain := EnsureChain(body);
      if index > chain.max {
        var points := Extend(body, chain.points, chain.min, chain.max, index);
        chain := Chain(points, chain.min, index);
      } else if index < chain.min {
        var points := Extend(body, chain.points, chain.min, chain.max, index);
        chain := Chain(points, index, chain.max);
      }
      chains := chains[body := chain];
      checkpoint := chain.points[index];
    }

    /** Whatever was asked before, the answer is the lift that the recurrence assigns:
        the memo is a cache and carries no identity of its own. */
    method LiftedLongitude(body: TransitingBody, jd: real, lon: real) returns (lift: real)
      requires Valid() && 0.0 < Step(body)
      modifies this
      ensures Valid()
      ensures lift == LiftedAt(source, body, Step(body), jd, lon)
    {
      var step := Step(body);
      var nearest := Round((jd - EPOCH) / step);
      var lowest := Ceil((EPHEMERIS_MIN_JD - EPOCH) / step);
      var highest := ((EPHEMERIS_MAX_JD - EPOCH) / step).Floor;
      var index := if nearest < lowest then lowest else nearest;
      index := if index > highest then highest else index;
      var anchor := CheckpointFor(body, index);
      lift := anchor.lift + Wrap180(lon - anchor.lon);
    }
  }

  lemma {:induction false} WalkStartsAtTheEpoch(source: EphemerisSource, body: TransitingBody, m: Motion, step: real)
    requires Observes(source, body, m)
    ensures WalkedLift(source, body, step, 0) == m.lift(Instant(step, 0))
  {
    var start := m.lift(EPOCH);
    assert Instant(step, 0) == EPOCH && ObservesAt(source, body, m, EPOCH);
    SameDirectionIsEquivalence(start, start, start);
    NormIsUnique(start, start);
    NormIsUnique(Norm360(start), start);
  }

  /** Every checkpoint carries the true unwrapped longitude. */
  lemma {:induction false} WalkFollowsTheMotion(
    source: EphemerisSource, body: TransitingBody, m: Motion, step: real, index: int)
    requires Observes(source, body, m) && 0.0 < step && SlowerThanHalfTurn(m, step)
    ensures WalkedLift(source, body, step, index) == m.lift(Instant(step, index))
    decreases if index < 0 then -index else index
  {
    if index == 0 {
      WalkStartsAtTheEpoch(source, body, m, step);
    } else {
      var direction := if index > 0 then 1 else -1;
      WalkFollowsTheMotion(source, body, m, step, index - direction);
      WalkFollowsOneStep(source, body, m, step, index, direction);
    }
  }

  lemma WalkFollowsOneStep(
    source: EphemerisSource, body: TransitingBody, m: Motion, step: real, index: int, direction: int)
    requires Observes(source, body, m) && 0.0 < step && SlowerThanHalfTurn(m, step)
    requires (direction == 1 && 0 < index) || (direction == -1 && index < 0)
    requires WalkedLift(source, body, step, index - direction) == m.lift(Instant(step, index - direction))
    ensures WalkedLift(source, body, step, index) == m.lift(Instant(step, index))
  {
    NeighboursAreOneStepApart(step, index, direction);
    WalkTakesOneStep(source, body, step, index, direction);
    MotionIsReadOff(source, body, m, step, Instant(step, index), Instant(step, index - direction));
  }

  lemma NeighboursAreOneStepApart(step: real, index: int, direction: int)
    requires direction == 1 || direction == -1
    ensures Instant(step, index) - Instant(step, index - direction) == if direction == 1 then step else -step
  {
    if direction == 1 {
      InstantsAdvance(step, index - 1);
    } else {
      InstantsAdvance(step, index);
    }
  }

  /** Two observations within reach of each other differ by the wrapped difference of their longitudes. */
  lemma MotionIsReadOff(source: EphemerisSource, body: TransitingBody, m: Motion, reach: real, t: real, s: real)
    requires Observes(source, body, m) && SlowerThanHalfTurn(m, reach)
    requires -reach <= t - s <= reach
    ensures m.lift(s) + Wrap180(Lon(source, body, t) - Lon(source, body, s)) == m.lift(t)
  {
    assert !HalfTurnApart(m, reach, t, s) && ObservesAt(source, body, m, t) && ObservesAt(source, body, m, s);
    WrappedDifferenceIsMotion(m.lift(t), m.lift(s));
  }

  lemma SlowerOverLess(m: Motion, less: real, reach: real)
    requires SlowerThanHalfTurn(m, reach) && less <= reach
    ensures SlowerThanHalfTurn(m, less)
  {
    forall s, t
      ensures !HalfTurnApart(m, less, s, t)
    {
      assert !HalfTurnApart(m, reach, s, t);
    }
  }

  /** Rounding into an integer range that holds a point within `s` of `x` lands within `1 + s` of `x`. */
  lemma ClampedRoundingIsNear(x: real, lo: real, hi: real, s: real)
    requires lo <= 0.0 <= hi && 0.0 <= s && lo - s <= x <= hi + s
    ensures var nearest := Round(x);
            var raised := if nearest < Ceil(lo) then Ceil(lo) else nearest;
            var index := if raised > hi.Floor then hi.Floor else raised;
            -(1.0 + s) <= x - index as real <= 1.0 + s
  {
  }

  lemma QuotientAdds(x: real, y: real, step: real)
    requires 0.0 < step
    ensures (x + y) / step == x / step + y / step
  {
  }

  lemma QuotientIsMonotone(x: real, y: real, step: real)
    requires 0.0 < step && x <= y
    ensures x / step <= y / step
  {
    QuotientAdds(x, y - x, step);
    assert 0.0 <= (y - x) / step;
  }

  lemma QuotientTimesDivisor(x: real, step: real)
    requires 0.0 < step
    ensures (x / step) * step == x
  {
  }

  lemma ScaledOrder(x: real, y: real, step: real)
    requires 0.0 < step && x <= y
    ensures x * step <= y * step
  {
  }

  lemma AnchorRatioIsNear(step: real, jd: real, slack: real)
    requires 0.0 < step && 0.0 <= slack
    requires EPHEMERIS_MIN_JD - slack <= jd <= EPHEMERIS_MAX_JD + slack
    ensures -(1.0 + slack / step) <= (jd - EPOCH) / step - AnchorIndex(step, jd) as real <= 1.0 + slack / step
  {
    var x := (jd - EPOCH) / step;
    var lo := (EPHEMERIS_MIN_JD - EPOCH) / step;
    var hi := (EPHEMERIS_MAX_JD - EPOCH) / step;
    var s := slack / step;
    QuotientIsMonotone(EPHEMERIS_MIN_JD - EPOCH, 0.0, step);
    QuotientIsMonotone(0.0, EPHEMERIS_MAX_JD - EPOCH, step);
    QuotientIsMonotone(0.0, slack, step);
    QuotientIsMonotone(EPHEMERIS_MIN_JD - EPOCH, jd - EPOCH + slack, step);
    QuotientIsMonotone(jd - EPOCH, EPHEMERIS_MAX_JD - EPOCH + slack, step);
    QuotientAdds(jd - EPOCH, slack, step);
    QuotientAdds(EPHEMERIS_MAX_JD - EPOCH, slack, step);
    ClampedRoundingIsNear(x, lo, hi, s);
  }

  // ----- The anchor is the nearest checkpoint that the files answer -----

  ghost predicate Answerable(jd: real) {
    EPHEMERIS_MIN_JD <= jd <= EPHEMERIS_MAX_JD
  }

  lemma ScalingKeepsOrder(x: real, y: real, step: real)
    requires 0.0 < step
    ensures x <= y <==> x * step <= y * step
  {
    if y < x {
      assert 0.0 < (x - y) * step;
    } else {
      ScaledOrder(x, y, step);
    }
  }

  /** An instant of the chain is answerable if its index is between the bounds of the clamp. */
  lemma AnswerableIff(step: real, index: int)
    requires 0.0 < step
    ensures Answerable(Instant(step, index))
       <==> (EPHEMERIS_MIN_JD - EPOCH) / step <= index as real <= (EPHEMERIS_MAX_JD - EPOCH) / step
  {
    QuotientTimesDivisor(EPHEMERIS_MIN_JD - EPOCH, step);
    QuotientTimesDivisor(EPHEMERIS_MAX_JD - EPOCH, step);
    ScalingKeepsOrder((EPHEMERIS_MIN_JD - EPOCH) / step, index as real, step);
    ScalingKeepsOrder(index as real, (EPHEMERIS_MAX_JD - EPOCH) / step, step);
  }

  lemma RoundIsNear(x: real)
    ensures Round(x) as real - 0.5 <= x <= Round(x) as real + 0.5
  {
  }

  lemma ClampedIsNearest(x: real, lowest: int, highest: int, near: int, anchor: int, index: int)
    requires lowest <= index <= highest && near as real - 0.5 <= x <= near as real + 0.5
    requires anchor == if near < lowest then lowest else if highest < near then highest else near
    ensures Abs(x - anchor as real) <= Abs(x - index as real)
  {
    if index < anchor {
      assert anchor <= near && index as real <= anchor as real - 1.0 && anchor as real - 0.5 <= x;
    } else if anchor < index {
      assert near <= anchor && anchor as real + 1.0 <= index as real && x <= anchor as real + 0.5;
    }
  }

  lemma NearerInDays(step: real, jd: real, x: real, a: int, b: int)
    requires 0.0 < step && x * step == jd - EPOCH && Abs(x - a as real) <= Abs(x - b as real)
    ensures Abs(jd - Instant(step, a)) <= Abs(jd - Instant(step, b))
  {
    ScaledGap(step, jd, x, a);
    ScaledGap(step, jd, x, b);
    ScaledOrder(Abs(x - a as real), Abs(x - b as real), step);
  }

  lemma ScaledGap(step: real, jd: real, x: real, a: int)
    requires 0.0 < step && x * step == jd - EPOCH
    ensures Abs(jd - Instant(step, a)) == Abs(x - a as real) * step
  {
    assert (x - a as real) * step == jd - Instant(step, a);
    if x < a as real {
      assert 0.0 < (a as real - x) * step;
    } else {
      ScaledOrder(0.0, x - a as real, step);
    }
  }

  /** The anchor, and every checkpoint on the way to it from the epoch, is one that the files answer, and no
      checkpoint that they answer is nearer. */
  lemma AnchorIsTheNearest(step: real, jd: real, index: int)
    requires 0.0 < step
    ensures var anchor := AnchorIndex(step, jd);
      && (0 <= index <= anchor || anchor <= index <= 0 ==> Answerable(Instant(step, index)))
      && (Answerable(Instant(step, index)) ==> Abs(jd - Instant(step, anchor)) <= Abs(jd - Instant(step, index)))
  {
    var x, anchor := (jd - EPOCH) / step, AnchorIndex(step, jd);
    QuotientTimesDivisor(jd - EPOCH, step);
    QuotientIsMonotone(EPHEMERIS_MIN_JD - EPOCH, 0.0, step);
    QuotientIsMonotone(0.0, EPHEMERIS_MAX_JD - EPOCH, step);
    AnswerableIff(step, index);
    if Answerable(Instant(step, index)) {
      RoundIsNear(x);
      ClampedIsNearest(x, Ceil((EPHEMERIS_MIN_JD - EPOCH) / step), ((EPHEMERIS_MAX_JD - EPOCH) / step).Floor, Round(x), anchor, index);
      NearerInDays(step, jd, x, anchor, index);
    }
  }

  /** A clamped anchor is at most one step away from every instant the files cover,
      and `slack` days further for an instant that is `slack` days outside them. */
  lemma AnchorIsNear(step: real, jd: real, slack: real)
    requires 0.0 < step && 0.0 <= slack
    requires EPHEMERIS_MIN_JD - slack <= jd <= EPHEMERIS_MAX_JD + slack
    ensures -(step + slack) <= jd - Instant(step, AnchorIndex(step, jd)) <= step + slack
  {
    AnchorRatioIsNear(step, jd, slack);
    QuotientTimesDivisor(jd - EPOCH, step);
    QuotientTimesDivisor(slack, step);
    GapInDays(step, jd, slack, AnchorIndex(step, jd), (jd - EPOCH) / step, slack / step);
  }

  lemma GapInDays(step: real, jd: real, slack: real, index: int, x: real, s: real)
    requires 0.0 < step && x * step == jd - EPOCH && s * step == slack
    requires -(1.0 + s) <= x - index as real <= 1.0 + s
    ensures -(step + slack) <= jd - Instant(step, index) <= step + slack
  {
    ScaledOrder(x - index as real, 1.0 + s, step);
    ScaledOrder(-(x - index as real), 1.0 + s, step);
  }

  /** The lift of an observed longitude is the true motion at that instant. In particular it
      does not depend on the step: any two steps under the half-turn bound agree. */
  lemma LiftIsTheMotion(
    source: EphemerisSource, body: TransitingBody, m: Motion, step: real, slack: real, jd: real)
    requires Observes(source, body, m) && 0.0 < step && 0.0 <= slack
    requires SlowerThanHalfTurn(m, step + slack)
    requires EPHEMERIS_MIN_JD - slack <= jd <= EPHEMERIS_MAX_JD + slack
    ensures LiftedAt(source, body, step, jd, Lon(source, body, jd)) == m.lift(jd)
  {
    var index := AnchorIndex(step, jd);
    SlowerOverLess(m, step, step + slack);
    WalkFollowsTheMotion(source, body, m, step, index);
    AnchorIsNear(step, jd, slack);
    MotionIsReadOff(source, body, m, step + slack, jd, Instant(step, index));
  }

  /** Two runs of one query, whatever came before either, with steps under the bound: one answer. */
  method AnswersAgree(one: LiftChain, other: LiftChain, body: TransitingBody, ghost m: Motion, ghost slack: real, jd: real)
    returns (x: real, y: real)
    requires one.Valid() && other.Valid() && one != other && one.source == other.source
    requires Observes(one.source, body, m) && 0.0 <= slack
    requires 0.0 < one.Step(body) && SlowerThanHalfTurn(m, one.Step(body) + slack)
    requires 0.0 < other.Step(body) && SlowerThanHalfTurn(m, other.Step(body) + slack)
    requires EPHEMERIS_MIN_JD - slack <= jd <= EPHEMERIS_MAX_JD + slack
    modifies one, other
    ensures x == y == m.lift(jd)
  {
    LiftIsTheMotion(one.source, body, m, one.Step(body), slack, jd);
    LiftIsTheMotion(one.source, body, m, other.Step(body), slack, jd);
    var lon := one.source.stateAt(body, jd).lon;
    x := one.LiftedLongitude(body, jd, lon);
    y := other.LiftedLongitude(body, jd, lon);
  }
}
