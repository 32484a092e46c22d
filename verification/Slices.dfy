/** What an encounter proven inside a span shares with every wider span. */
module Slices {
  import opened Optional
  import opened Angles
  import opened CyclePolicy
  import opened Sky
  import opened Stations
  import opened SampleLists
  import opened RootScan
  import opened RootTheorems
  import opened Envelopes
  import opened EnvelopeTheorems

  lemma SceneOfASlice(k: Track, m: Motion, whole: seq<Sample>, reach: real, from: nat, to: nat)
    requires Scene(k, m, whole, reach) && from <= to <= |whole|
    ensures Scene(k, m, whole[from..to], reach)
  {
    var part := whole[from..to];
    forall i | 0 <= i < |part|
      ensures TrueSample(k, m, part[i])
    {
      assert TrueSample(k, m, whole[from + i]);
    }
    forall i | 0 <= i < |part| - 1
      ensures part[i + 1].jd - part[i].jd <= reach
    {
      assert whole[from + i + 1].jd - whole[from + i].jd <= reach;
    }
  }

  lemma SceneOfAlike(k: Track, m: Motion, a: seq<Sample>, b: seq<Sample>, reach: real)
    requires Scene(k, m, a, reach) && Alike(b, a)
    ensures Scene(k, m, b, reach)
  {
    forall i | 0 <= i < |b|
      ensures TrueSample(k, m, b[i])
    {
      assert TrueSample(k, m, a[i]) && SameMoment(b[i], a[i]);
    }
    forall i | 0 <= i < |b| - 1
      ensures b[i + 1].jd - b[i].jd <= reach
    {
      assert a[i + 1].jd - a[i].jd <= reach && SameMoment(b[i], a[i]) && SameMoment(b[i + 1], a[i + 1]);
    }
  }

  ghost predicate MomentAt(part: seq<Sample>, whole: seq<Sample>, from: nat, i: int)
    requires 0 <= i < |part| && from + |part| <= |whole|
  {
    SameMoment(part[i], whole[from + i])
  }

  /** `part` lists a stretch of `whole`, up to the directions of standstills. */
  ghost predicate PartOf(part: seq<Sample>, whole: seq<Sample>, from: nat, to: nat) {
    && from < to <= |whole| && |part| == to - from
    && forall i {:trigger MomentAt(part, whole, from, i)} :: 0 <= i < |part| ==> MomentAt(part, whole, from, i)
  }

  lemma AlikeIsAPart(part: seq<Sample>, whole: seq<Sample>, from: nat, to: nat)
    requires from < to <= |whole| && Alike(part, whole[from..to])
    ensures PartOf(part, whole, from, to)
  {
    forall i | 0 <= i < |part|
      ensures MomentAt(part, whole, from, i)
    {
      assert SameMoment(part[i], whole[from..to][i]);
    }
  }

  lemma PartIsAScene(k: Track, m: Motion, part: seq<Sample>, whole: seq<Sample>, reach: real, from: nat, to: nat)
    requires Scene(k, m, whole, reach) && PartOf(part, whole, from, to)
    ensures Scene(k, m, part, reach)
  {
    SceneOfASlice(k, m, whole, reach, from, to);
    forall i | 0 <= i < |part|
      ensures SameMoment(part[i], whole[from..to][i])
    {
      MomentInAPart(part, whole, from, to, i);
    }
    SceneOfAlike(k, m, whole[from..to], part, reach);
  }

  lemma MomentInAPart(part: seq<Sample>, whole: seq<Sample>, from: nat, to: nat, i: int)
    requires PartOf(part, whole, from, to) && 0 <= i < |part|
    ensures SameMoment(part[i], whole[from + i])
  {
    assert MomentAt(part, whole, from, i);
  }

  lemma TimesAscend(samples: seq<Sample>, i: int, j: int)
    requires Ascending(samples) && 0 <= i <= j < |samples|
    ensures samples[i].jd <= samples[j].jd
  {
  }

  // ----- The bounds of a proven encounter -----

  /** The envelope solved on the slice is proven on both sides, at `p` and `q`. */
  ghost predicate ProvenAt(
    k: Track, samples: seq<Sample>, targetDeg: real, orbDeg: real, w: int, arcDeg: real, p: real, q: real) {
    var levels := LevelsOf(k, samples, targetDeg, orbDeg, w);
    && levels.exact != []
    && var e := EnvelopeOf(k.lon, samples, levels, Level(targetDeg, w), orbDeg, arcDeg);
       e.provenLeft == Some(p) && e.provenRight == Some(q)
  }

  lemma {:induction false} PassInOrder(roots: seq<Root>, r: Root)
    requires r in roots
    ensures |SortedByTime(roots)| == |roots|
    ensures SortedByTime(roots)[0].jd <= r.jd <= SortedByTime(roots)[|roots| - 1].jd
  {
    SortingSorts(roots);
    SortingKeepsTheRoots(roots);
    var passes := SortedByTime(roots);
    var i :| 0 <= i < |passes| && passes[i] == r;
  }

  lemma BoundsAreOutside(samples: seq<Sample>, level: real, beyondReturn: real, first: real, last: real, p: real, q: real)
    requires first <= last
    requires ProvenLeft(samples, level, beyondReturn, first) == Some(p)
    requires ProvenRight(samples, level, beyondReturn, first, last) == Some(q)
    ensures p < first && last < q
  {
    var i := ProvenLeftIsASample(samples, level, beyondReturn, first);
    var j := ProvenRightIsASample(samples, level, beyondReturn, first, last);
  }

  /** What a proof on both sides says of the passes it is about. */
  lemma {:induction false} ProofIsAround(
    k: Track, samples: seq<Sample>, targetDeg: real, orbDeg: real, w: int, arcDeg: real, p: real, q: real,
    exact: seq<Root>, level: real) returns (first: real, last: real)
    requires ProvenAt(k, samples, targetDeg, orbDeg, w, arcDeg, p, q)
    requires exact == Recorded(k, samples, targetDeg, w) && level == Level(targetDeg, w)
    ensures exact != [] && |SortedByTime(exact)| == |exact|
    ensures first == SortedByTime(exact)[0].jd && last == SortedByTime(exact)[|exact| - 1].jd
    ensures p < first <= last < q
    ensures ProvenLeft(samples, level, orbDeg + arcDeg, first) == Some(p)
    ensures ProvenRight(samples, level, orbDeg + arcDeg, first, last) == Some(q)
  {
    FirstPassIsRecorded(exact);
    first, last := SortedByTime(exact)[0].jd, SortedByTime(exact)[|exact| - 1].jd;
    BoundsAreOutside(samples, level, orbDeg + arcDeg, first, last, p, q);
  }

  /** Every exact pass of a proven encounter lies strictly between its two proven bounds. */
  lemma PassesLieBetweenTheBounds(
    k: Track, samples: seq<Sample>, targetDeg: real, orbDeg: real, w: int, arcDeg: real, p: real, q: real, r: Root)
    requires ProvenAt(k, samples, targetDeg, orbDeg, w, arcDeg, p, q)
    requires r in Recorded(k, samples, targetDeg, w)
    ensures p < r.jd < q
  {
    var exact := Recorded(k, samples, targetDeg, w);
    var first, last := ProofIsAround(k, samples, targetDeg, orbDeg, w, arcDeg, p, q, exact, Level(targetDeg, w));
    PassInOrder(exact, r);
  }

  /** A span proven at `p` and `q` sees the body out of orb everywhere else. */
  lemma OutOfOrbOutside(
    k: Track, m: Motion, samples: seq<Sample>, reach: real,
    targetDeg: real, orbDeg: real, w: int, arcDeg: real, p: real, q: real)
    requires Scene(k, m, samples, reach) && ExcursionAtMost(m, arcDeg)
    requires ANGULAR_ZERO_TOLERANCE <= orbDeg && 0.0 <= arcDeg
    requires ProvenAt(k, samples, targetDeg, orbDeg, w, arcDeg, p, q)
    ensures forall t :: t <= p || q <= t ==> !InOrb(m, t, Level(targetDeg, w), orbDeg)
  {
    forall t | t <= p || q <= t
      ensures !InOrb(m, t, Level(targetDeg, w), orbDeg)
    {
      if t <= p {
        NeverInOrbBefore(k, m, samples, reach, targetDeg, orbDeg, w, arcDeg, t);
      } else {
        NeverInOrbAfter(k, m, samples, reach, targetDeg, orbDeg, w, arcDeg, t);
      }
    }
  }

  ghost predicate IsInstant(samples: seq<Sample>, jd: real) {
    exists i :: 0 <= i < |samples| && samples[i].jd == jd
  }

  /** Two sampled instants beyond return, with all in-orb time strictly between them. */
  ghost predicate Encloses(m: Motion, samples: seq<Sample>, level: real, orbDeg: real, arcDeg: real, p: real, q: real) {
    && IsInstant(samples, p) && IsInstant(samples, q) && p < q
    && orbDeg + arcDeg < Abs(m.lift(p) - level) && orbDeg + arcDeg < Abs(m.lift(q) - level)
    && forall t :: t <= p || q <= t ==> !InOrb(m, t, level, orbDeg)
  }

  lemma {:induction false} BoundsAreBeyond(
    samples: seq<Sample>, level: real, beyondReturn: real, first: real, last: real, p: real, q: real)
    returns (i: int, j: int)
    requires first <= last
    requires ProvenLeft(samples, level, beyondReturn, first) == Some(p)
    requires ProvenRight(samples, level, beyondReturn, first, last) == Some(q)
    ensures 0 <= i < |samples| && samples[i].jd == p && Beyond(samples[i], level, beyondReturn)
    ensures 0 <= j < |samples| && samples[j].jd == q && Beyond(samples[j], level, beyondReturn)
    ensures p < q
  {
    i := ProvenLeftIsASample(samples, level, beyondReturn, first);
    j := ProvenRightIsASample(samples, level, beyondReturn, first, last);
  }

  lemma {:induction false} BoundsEnclose(
    k: Track, m: Motion, samples: seq<Sample>, reach: real, level: real, orbDeg: real, arcDeg: real,
    first: real, last: real, p: real, q: real)
    requires Scene(k, m, samples, reach) && first <= last
    requires ProvenLeft(samples, level, orbDeg + arcDeg, first) == Some(p)
    requires ProvenRight(samples, level, orbDeg + arcDeg, first, last) == Some(q)
    requires forall t :: t <= p || q <= t ==> !InOrb(m, t, level, orbDeg)
    ensures Encloses(m, samples, level, orbDeg, arcDeg, p, q)
  {
    var i, j := BoundsAreBeyond(samples, level, orbDeg + arcDeg, first, last, p, q);
    assert TrueSample(k, m, samples[i]) && TrueSample(k, m, samples[j]);
  }

  lemma {:induction false} ProofEncloses(
    k: Track, m: Motion, samples: seq<Sample>, reach: real,
    targetDeg: real, orbDeg: real, w: int, arcDeg: real, p: real, q: real)
    requires Scene(k, m, samples, reach) && ExcursionAtMost(m, arcDeg)
    requires ANGULAR_ZERO_TOLERANCE <= orbDeg && 0.0 <= arcDeg
    requires ProvenAt(k, samples, targetDeg, orbDeg, w, arcDeg, p, q)
    ensures Encloses(m, samples, Level(targetDeg, w), orbDeg, arcDeg, p, q)
  {
    OutOfOrbOutside(k, m, samples, reach, targetDeg, orbDeg, w, arcDeg, p, q);
    var level, exact := Level(targetDeg, w), Recorded(k, samples, targetDeg, w);
    var first, last := ProofIsAround(k, samples, targetDeg, orbDeg, w, arcDeg, p, q, exact, level);
    BoundsEnclose(k, m, samples, reach, level, orbDeg, arcDeg, first, last, p, q);
  }

  lemma WholeEncloses(
    m: Motion, part: seq<Sample>, whole: seq<Sample>, from: nat, to: nat,
    level: real, orbDeg: real, arcDeg: real, p: real, q: real)
    requires PartOf(part, whole, from, to) && Encloses(m, part, level, orbDeg, arcDeg, p, q)
    ensures Encloses(m, whole, level, orbDeg, arcDeg, p, q)
  {
    var i :| 0 <= i < |part| && part[i].jd == p;
    var j :| 0 <= j < |part| && part[j].jd == q;
    MomentInAPart(part, whole, from, to, i);
    MomentInAPart(part, whole, from, to, j);
    assert whole[from + i].jd == p && whole[from + j].jd == q;
  }

  lemma PartCoversItsProof(
    m: Motion, part: seq<Sample>, whole: seq<Sample>, from: nat, to: nat,
    level: real, orbDeg: real, arcDeg: real, p: real, q: real)
    requires Ascending(whole) && PartOf(part, whole, from, to) && Encloses(m, part, level, orbDeg, arcDeg, p, q)
    ensures whole[from].jd <= p < q <= whole[to - 1].jd
  {
    var i :| 0 <= i < |part| && part[i].jd == p;
    var j :| 0 <= j < |part| && part[j].jd == q;
    MomentInAPart(part, whole, from, to, i);
    MomentInAPart(part, whole, from, to, j);
    TimesAscend(whole, from, from + i);
    TimesAscend(whole, from + j, to - 1);
  }

  // ----- The roots of a stretch of time -----

  /** A root without the direction in which it leaves an exact standstill. */
  function Bared(r: Root): Root {
    if r.speed == 0.0 then r.(direction := None) else r
  }

  function AllBared(roots: seq<Root>): seq<Root> {
    seq(|roots|, i requires 0 <= i < |roots| => Bared(roots[i]))
  }

  /** The roots in `[p, q]`, bared. */
  function During(roots: seq<Root>, p: real, q: real): seq<Root> {
    if roots == [] then []
    else (if p <= roots[0].jd <= q then [Bared(roots[0])] else []) + During(roots[1..], p, q)
  }

  lemma {:induction false} DuringJoin(a: seq<Root>, b: seq<Root>, p: real, q: real)
    ensures During(a + b, p, q) == During(a, p, q) + During(b, p, q)
  {
    if a == [] {
      assert a + b == b;
    } else {
      assert (a + b)[0] == a[0] && (a + b)[1..] == a[1..] + b;
      DuringJoin(a[1..], b, p, q);
    }
  }

  lemma {:induction false} DuringMembers(roots: seq<Root>, p: real, q: real)
    ensures forall r :: r in roots && p <= r.jd <= q ==> Bared(r) in During(roots, p, q)
    ensures forall d :: d in During(roots, p, q) ==>
      exists r :: r in roots && p <= r.jd <= q && d == Bared(r)
  {
    if roots != [] {
      DuringMembers(roots[1..], p, q);
      forall d | d in During(roots, p, q)
        ensures exists r :: r in roots && p <= r.jd <= q && d == Bared(r)
      {
        if d in During(roots[1..], p, q) {
          var r :| r in roots[1..] && p <= r.jd <= q && d == Bared(r);
          assert r in roots;
        } else {
          assert roots[0] in roots;
        }
      }
    }
  }

  lemma {:induction false} AllDuring(roots: seq<Root>, p: real, q: real)
    requires forall r :: r in roots ==> p <= r.jd <= q
    ensures During(roots, p, q) == AllBared(roots)
  {
    if roots != [] {
      assert roots[0] in roots;
      AllDuring(roots[1..], p, q);
      assert AllBared(roots) == [Bared(roots[0])] + AllBared(roots[1..]);
    }
  }

  lemma {:induction false} NoneDuring(roots: seq<Root>, p: real, q: real)
    requires forall r :: r in roots ==> !(p <= r.jd <= q)
    ensures During(roots, p, q) == []
  {
    if roots != [] {
      assert roots[0] in roots;
      NoneDuring(roots[1..], p, q);
    }
  }

  /** A root inside `[p, q]` and one outside it never count as one event. */
  ghost predicate Divided(roots: seq<Root>, p: real, q: real) {
    forall a, b :: a in roots && b in roots && p <= a.jd <= q && !(p <= b.jd <= q) ==>
      !SamePhysicalEvent(a, b) && !SamePhysicalEvent(b, a)
  }

  lemma {:induction false} PushedDuring(into: seq<Root>, root: Root, p: real, q: real)
    requires Divided(into + [root], p, q)
    ensures During(Pushed(into, root), p, q) == PushedAll(During(into, p, q), During([root], p, q))
  {
    DuringMembers(into, p, q);
    DuringJoin(into, [root], p, q);
    assert forall r :: r in into ==> r in into + [root];
    assert root in into + [root];
    var kept := During(into, p, q);
    if p <= root.jd <= q {
      var event := Bared(root);
      assert During([root], p, q) == [event];
      assert PushedAll(kept, [event]) == Pushed(kept, event);
      SameRefusal(into, root, p, q, kept, event);
    } else {
      assert During([root], p, q) == [];
      assert kept + [] == kept;
    }
  }

  lemma {:induction false} SameRefusal(
    into: seq<Root>, root: Root, p: real, q: real, kept: seq<Root>, event: Root)
    requires Divided(into + [root], p, q) && p <= root.jd <= q
    requires kept == During(into, p, q) && event == Bared(root)
    ensures (exists r :: r in into && SamePhysicalEvent(r, root)) <==> (exists r :: r in kept && SamePhysicalEvent(r, event))
  {
    DuringMembers(into, p, q);
    if r :| r in into && SamePhysicalEvent(r, root) {
      assert r in into + [root] && root in into + [root];
      var d := Bared(r);
      assert d in kept && SamePhysicalEvent(d, event);
    }
    if d :| d in kept && SamePhysicalEvent(d, event) {
      var r :| r in into && p <= r.jd <= q && d == Bared(r);
      assert SamePhysicalEvent(r, root);
    }
  }

  /** Merging roots into events commutes with looking at a stretch of time that divides them. */
  lemma {:induction false} MergingDuring(into: seq<Root>, events: seq<Root>, p: real, q: real)
    requires Divided(into + events, p, q)
    ensures During(PushedAll(into, events), p, q) == PushedAll(During(into, p, q), During(events, p, q))
    decreases |events|
  {
    if events == [] {
      assert PushedAll(into, events) == into;
    } else {
      var first, rest := events[0], events[1..];
      DividedMembers(into + events, into + [first], p, q);
      DividedMembers(into + events, Pushed(into, first) + rest, p, q);
      PushedDuring(into, first, p, q);
      MergingDuring(Pushed(into, first), rest, p, q);
      DuringJoin([first], rest, p, q);
      assert events == [first] + rest;
      PushedAllJoin(During(into, p, q), During([first], p, q), During(rest, p, q));
    }
  }

  lemma DividedMembers(all: seq<Root>, some: seq<Root>, p: real, q: real)
    requires Divided(all, p, q) && forall r :: r in some ==> r in all
    ensures Divided(some, p, q)
  {
  }

  // ----- What a part and the whole list contribute to it -----

  lemma EventTimes(k: Track, m: Motion, samples: seq<Sample>, reach: real, base: real, w: int, i: nat, e: Root)
    requires Scene(k, m, samples, reach) && i < |samples| && e in EventsAt(k, samples, i, base, w)
    ensures samples[i].jd <= e.jd
    ensures i + 1 < |samples| ==> e.jd < samples[i + 1].jd
    ensures e in OnSample(samples[i], base, w) || samples[i].jd < e.jd
    ensures i + 1 == |samples| ==> e.jd == samples[i].jd
  {
    EventIsGenuine(k, m, samples, reach, base, w, i, e);
    if e in OnSample(samples[i], base, w) && i + 1 < |samples| {
      assert samples[i].jd < samples[i + 1].jd;
    } else if i + 1 < |samples| {
      BracketEventIsGenuine(k, m, samples, reach, i, base, w, e);
    }
  }

  lemma {:induction false} NothingHere(
    k: Track, m: Motion, samples: seq<Sample>, reach: real, base: real, w: int, n: nat, p: real, q: real)
    requires Scene(k, m, samples, reach) && n < |samples|
    requires q < samples[n].jd || (n + 1 < |samples| && samples[n + 1].jd <= p)
    ensures During(EventsAt(k, samples, n, base, w), p, q) == []
  {
    var here := EventsAt(k, samples, n, base, w);
    forall e | e in here
      ensures !(p <= e.jd <= q)
    {
      EventTimes(k, m, samples, reach, base, w, n, e);
    }
    NoneDuring(here, p, q);
  }

  lemma {:induction false} SampleCountsAlike(
    part: seq<Sample>, whole: seq<Sample>, from: nat, to: nat, i: nat, base: real, w: int, p: real, q: real)
    requires PartOf(part, whole, from, to) && i < |part|
    ensures During(OnSample(part[i], base, w), p, q) == During(OnSample(whole[from + i], base, w), p, q)
  {
    MomentInAPart(part, whole, from, to, i);
    var a, b := SampleRoot(part[i]), SampleRoot(whole[from + i]);
    assert Bared(a) == Bared(b);
    assert During([a], p, q) == During([b], p, q);
  }

  lemma {:induction false} BracketCountsAlike(
    k: Track, part: seq<Sample>, whole: seq<Sample>, from: nat, to: nat, i: nat, base: real, w: int)
    requires PartOf(part, whole, from, to) && i + 1 < |part|
    ensures InBracket(k, part[i], part[i + 1], base, w) == InBracket(k, whole[from + i], whole[from + i + 1], base, w)
  {
    MomentInAPart(part, whole, from, to, i);
    MomentInAPart(part, whole, from, to, i + 1);
    SameBracket(k, part[i], part[i + 1], whole[from + i], whole[from + i + 1], base, w);
  }

  lemma {:induction false} SameBisection(lon: real -> real, a: Sample, b: Sample, lo: real, hi: real, level: real, sign: int)
    requires a.lift == b.lift && a.lon == b.lon
    ensures Bisected(lon, a, lo, hi, level, sign) == Bisected(lon, b, lo, hi, level, sign)
    decreases Seconds(hi - lo)
  {
    if hi - lo > ROOT_TIME_TOLERANCE {
      var mid := (lo + hi) / 2.0;
      SameBisection(lon, a, b, mid, hi, level, sign);
      SameBisection(lon, a, b, lo, mid, level, sign);
    }
  }

  lemma {:induction false} SameBracket(k: Track, a: Sample, b: Sample, c: Sample, d: Sample, base: real, w: int)
    requires SameMoment(a, c) && SameMoment(b, d)
    ensures InBracket(k, a, b, base, w) == InBracket(k, c, d, base, w)
  {
    SameBisection(k.lon, a, c, a.jd, b.jd, Level(base, w), Sign(a.lift - Level(base, w)));
  }

  lemma {:induction false} BracketBeyond(
    k: Track, m: Motion, samples: seq<Sample>, reach: real, base: real, w: int, i: nat, p: real, q: real)
    requires Scene(k, m, samples, reach) && i + 1 < |samples| && q <= samples[i].jd
    ensures During(InBracket(k, samples[i], samples[i + 1], base, w), p, q) == []
  {
    var bracket := InBracket(k, samples[i], samples[i + 1], base, w);
    forall e | e in bracket
      ensures !(p <= e.jd <= q)
    {
      BracketEventIsGenuine(k, m, samples, reach, i, base, w, e);
    }
    NoneDuring(bracket, p, q);
  }

  lemma {:induction false} SumsAgree(
    a: seq<Root>, b: seq<Root>, x: seq<Root>, y: seq<Root>, c: seq<Root>, d: seq<Root>, p: real, q: real)
    requires a == x + c && b == y + d
    requires During(x, p, q) == During(y, p, q) && During(c, p, q) == During(d, p, q)
    ensures During(a, p, q) == During(b, p, q)
  {
    DuringJoin(x, c, p, q);
    DuringJoin(y, d, p, q);
  }

  lemma {:induction false} StepCountsAlike(
    k: Track, part: seq<Sample>, whole: seq<Sample>, from: nat, to: nat, i: nat,
    base: real, w: int, p: real, q: real, a: seq<Root>, b: seq<Root>)
    requires PartOf(part, whole, from, to) && i + 1 < |part|
    requires a == EventsAt(k, part, i, base, w) && b == EventsAt(k, whole, from + i, base, w)
    ensures During(a, p, q) == During(b, p, q)
  {
    SampleCountsAlike(part, whole, from, to, i, base, w, p, q);
    BracketCountsAlike(k, part, whole, from, to, i, base, w);
    var bracket := InBracket(k, part[i], part[i + 1], base, w);
    SumsAgree(a, b, OnSample(part[i], base, w), OnSample(whole[from + i], base, w), bracket, bracket, p, q);
  }

  lemma {:induction false} LastCountsAlike(
    k: Track, part: seq<Sample>, whole: seq<Sample>, from: nat, to: nat,
    base: real, w: int, p: real, q: real, a: seq<Root>, b: seq<Root>, after: seq<Root>)
    requires PartOf(part, whole, from, to)
    requires after == if to < |whole| then InBracket(k, whole[to - 1], whole[to], base, w) else []
    requires During(after, p, q) == []
    requires a == EventsAt(k, part, |part| - 1, base, w) && b == EventsAt(k, whole, to - 1, base, w)
    ensures During(a, p, q) == During(b, p, q)
  {
    var i := |part| - 1;
    SampleCountsAlike(part, whole, from, to, i, base, w, p, q);
    SumsAgree(a, b, OnSample(part[i], base, w), OnSample(whole[from + i], base, w), [], after, p, q);
  }

  lemma {:induction false} NothingAfterThePart(
    k: Track, m: Motion, whole: seq<Sample>, reach: real, base: real, w: int, to: nat, p: real, q: real)
    returns (after: seq<Root>)
    requires Scene(k, m, whole, reach) && 0 < to <= |whole| && q <= whole[to - 1].jd
    ensures after == if to < |whole| then InBracket(k, whole[to - 1], whole[to], base, w) else []
    ensures During(after, p, q) == []
  {
    after := [];
    if to < |whole| {
      after := InBracket(k, whole[to - 1], whole[to], base, w);
      BracketBeyond(k, m, whole, reach, base, w, to - 1, p, q);
    }
  }

  function Flat(parts: seq<seq<Root>>): seq<Root> {
    if parts == [] then [] else Flat(parts[..|parts| - 1]) + parts[|parts| - 1]
  }

  lemma {:induction false} FlatJoin(a: seq<seq<Root>>, b: seq<seq<Root>>)
    ensures Flat(a + b) == Flat(a) + Flat(b)
    decreases |b|
  {
    if b == [] {
      assert a + b == a;
    } else {
      var init := b[..|b| - 1];
      FlatJoin(a, init);
      assert (a + b)[..|a + b| - 1] == a + init;
    }
  }

  lemma {:induction false} FlatOfEmpty(parts: seq<seq<Root>>)
    requires forall i :: 0 <= i < |parts| ==> parts[i] == []
    ensures Flat(parts) == []
  {
    if parts != [] {
      FlatOfEmpty(parts[..|parts| - 1]);
    }
  }

  lemma {:induction false} FlatOfASlice(parts: seq<seq<Root>>, from: nat, to: nat)
    requires from <= to <= |parts|
    requires forall i :: 0 <= i < from || to <= i < |parts| ==> parts[i] == []
    ensures Flat(parts) == Flat(parts[from..to])
  {
    assert parts == parts[..from] + parts[from..to] + parts[to..];
    FlatJoin(parts[..from] + parts[from..to], parts[to..]);
    FlatJoin(parts[..from], parts[from..to]);
    FlatOfEmpty(parts[..from]);
    FlatOfEmpty(parts[to..]);
  }

  /** `parts` lists what each sample contributes. */
  ghost predicate Lists(parts: seq<seq<Root>>, k: Track, samples: seq<Sample>, base: real, w: int) {
    && |parts| == |samples|
    && forall i {:trigger parts[i]} :: 0 <= i < |samples| ==> parts[i] == EventsAt(k, samples, i, base, w)
  }

  lemma {:induction false} EventsAreFlat(
    parts: seq<seq<Root>>, k: Track, samples: seq<Sample>, n: nat, base: real, w: int)
    requires Lists(parts, k, samples, base, w) && n <= |samples|
    ensures Events(k, samples, n, base, w) == Flat(parts[..n])
    decreases n
  {
    if n > 0 {
      EventsAreFlat(parts, k, samples, n - 1, base, w);
      assert parts[..n][..n - 1] == parts[..n - 1];
      assert parts[..n][n - 1] == parts[n - 1];
    }
  }

  /** The stretch of time, looked at part by part. */
  function DuringEach(parts: seq<seq<Root>>, p: real, q: real): seq<seq<Root>> {
    seq(|parts|, i requires 0 <= i < |parts| => During(parts[i], p, q))
  }

  lemma {:induction false} DuringFlat(parts: seq<seq<Root>>, p: real, q: real)
    ensures During(Flat(parts), p, q) == Flat(DuringEach(parts, p, q))
  {
    if parts != [] {
      var init, last := parts[..|parts| - 1], parts[|parts| - 1];
      DuringFlat(init, p, q);
      DuringJoin(Flat(init), last, p, q);
      assert DuringEach(parts, p, q)[..|parts| - 1] == DuringEach(init, p, q);
    }
  }

  lemma {:induction false} FlatAgrees(
    some: seq<seq<Root>>, all: seq<seq<Root>>, from: nat, to: nat, p: real, q: real)
    requires from <= to <= |all| && |some| == to - from
    requires forall i :: 0 <= i < from || to <= i < |all| ==> During(all[i], p, q) == []
    requires forall i :: 0 <= i < |some| ==> During(some[i], p, q) == During(all[from + i], p, q)
    ensures During(Flat(some), p, q) == During(Flat(all), p, q)
  {
    DuringFlat(some, p, q);
    DuringFlat(all, p, q);
    FlatOfASlice(DuringEach(all, p, q), from, to);
    SliceOfEach(some, all, from, to, p, q);
  }

  lemma {:induction false} SliceOfEach(
    some: seq<seq<Root>>, all: seq<seq<Root>>, from: nat, to: nat, p: real, q: real)
    requires from <= to <= |all| && |some| == to - from
    requires forall i :: 0 <= i < |some| ==> During(some[i], p, q) == During(all[from + i], p, q)
    ensures DuringEach(all, p, q)[from..to] == DuringEach(some, p, q)
  {
    var slice := DuringEach(all, p, q)[from..to];
    forall i | 0 <= i < |some|
      ensures slice[i] == DuringEach(some, p, q)[i]
    {
    }
  }

  lemma {:induction false} PartCountsAlike(
    k: Track, part: seq<Sample>, whole: seq<Sample>, from: nat, to: nat,
    base: real, w: int, p: real, q: real, after: seq<Root>, some: seq<seq<Root>>, all: seq<seq<Root>>)
    requires PartOf(part, whole, from, to)
    requires after == if to < |whole| then InBracket(k, whole[to - 1], whole[to], base, w) else []
    requires During(after, p, q) == []
    requires Lists(some, k, part, base, w) && Lists(all, k, whole, base, w)
    ensures forall i :: 0 <= i < |some| ==> During(some[i], p, q) == During(all[from + i], p, q)
  {
    forall i | 0 <= i < |some|
      ensures During(some[i], p, q) == During(all[from + i], p, q)
    {
      if i + 1 < |part| {
        StepCountsAlike(k, part, whole, from, to, i, base, w, p, q, some[i], all[from + i]);
      } else {
        LastCountsAlike(k, part, whole, from, to, base, w, p, q, some[i], all[from + i], after);
      }
    }
  }

  lemma {:induction false} RestIsOutside(
    k: Track, m: Motion, whole: seq<Sample>, reach: real, from: nat, to: nat,
    base: real, w: int, p: real, q: real, all: seq<seq<Root>>)
    requires Scene(k, m, whole, reach) && from < to <= |whole| && Lists(all, k, whole, base, w)
    requires whole[from].jd <= p && q <= whole[to - 1].jd
    ensures forall i :: 0 <= i < from || to <= i < |all| ==> During(all[i], p, q) == []
  {
    forall i | 0 <= i < from || to <= i < |all|
      ensures During(all[i], p, q) == []
    {
      if i < from {
        TimesAscend(whole, i + 1, from);
      } else {
        assert whole[to - 1].jd < whole[i].jd;
      }
      NothingHere(k, m, whole, reach, base, w, i, p, q);
    }
  }

  lemma {:induction false} EventsFromLists(parts: seq<seq<Root>>, k: Track, samples: seq<Sample>, base: real, w: int)
    requires Lists(parts, k, samples, base, w)
    ensures Events(k, samples, |samples|, base, w) == Flat(parts)
  {
    EventsAreFlat(parts, k, samples, |samples|, base, w);
    assert parts[..|samples|] == parts;
  }

  lemma ListOfEvents(k: Track, samples: seq<Sample>, base: real, w: int) returns (parts: seq<seq<Root>>)
    ensures Lists(parts, k, samples, base, w)
  {
    parts := seq(|samples|, i requires 0 <= i < |samples| => EventsAt(k, samples, i, base, w));
  }

  /** Between the bounds, a part of the list contributes what the whole list contributes. */
  lemma {:induction false} SameEventsDuring(
    k: Track, m: Motion, part: seq<Sample>, whole: seq<Sample>, reach: real, from: nat, to: nat,
    base: real, w: int, p: real, q: real)
    requires Scene(k, m, whole, reach) && PartOf(part, whole, from, to)
    requires whole[from].jd <= p && q <= whole[to - 1].jd
    ensures During(Events(k, part, |part|, base, w), p, q) == During(Events(k, whole, |whole|, base, w), p, q)
  {
    var some := ListOfEvents(k, part, base, w);
    var all := ListOfEvents(k, whole, base, w);
    EventsFromLists(some, k, part, base, w);
    EventsFromLists(all, k, whole, base, w);
    var after := NothingAfterThePart(k, m, whole, reach, base, w, to, p, q);
    PartCountsAlike(k, part, whole, from, to, base, w, p, q, after, some, all);
    RestIsOutside(k, m, whole, reach, from, to, base, w, p, q, all);
    FlatAgrees(some, all, from, to, p, q);
  }

  /** Roots merged on either list agree between the bounds, when the bounds divide the contributions. */
  lemma {:induction false} SameRecordDuring(
    k: Track, m: Motion, part: seq<Sample>, whole: seq<Sample>, reach: real, from: nat, to: nat,
    base: real, w: int, p: real, q: real)
    requires Scene(k, m, whole, reach) && PartOf(part, whole, from, to)
    requires whole[from].jd <= p && q <= whole[to - 1].jd
    requires Divided(Events(k, part, |part|, base, w), p, q) && Divided(Events(k, whole, |whole|, base, w), p, q)
    ensures During(Recorded(k, part, base, w), p, q) == During(Recorded(k, whole, base, w), p, q)
  {
    var some, all := Events(k, part, |part|, base, w), Events(k, whole, |whole|, base, w);
    SameEventsDuring(k, m, part, whole, reach, from, to, base, w, p, q);
    assert [] + some == some && [] + all == all;
    MergingDuring([], some, p, q);
    MergingDuring([], all, p, q);
  }

  // ----- The exact family: nothing outside the bounds -----

  lemma {:induction false} PassesAreEnclosed(
    k: Track, m: Motion, samples: seq<Sample>, reach: real, base: real, w: int, orbDeg: real, arcDeg: real, p: real, q: real, e: Root)
    requires Scene(k, m, samples, reach) && ANGULAR_ZERO_TOLERANCE <= orbDeg
    requires Encloses(m, samples, Level(base, w), orbDeg, arcDeg, p, q)
    requires e in Events(k, samples, |samples|, base, w)
    ensures p <= e.jd <= q
  {
    EventsComeFromTheirSamples(k, samples, |samples|, base, w);
    assert Contributed(k, samples, |samples|, base, w, e);
    var i :| 0 <= i < |samples| && e in EventsAt(k, samples, i, base, w);
    EventIsGenuine(k, m, samples, reach, base, w, i, e);
    var t := GenuineStandsForAnInstant(m, samples, Level(base, w), e);
    assert InOrb(m, t, Level(base, w), orbDeg);
  }

  /** The exact passes of a proven encounter are those of every wider list, but for the directions in
      which exact standstills are left. */
  lemma {:induction false} SamePasses(
    k: Track, m: Motion, part: seq<Sample>, whole: seq<Sample>, reach: real, from: nat, to: nat,
    base: real, w: int, orbDeg: real, arcDeg: real, p: real, q: real)
    requires Scene(k, m, whole, reach) && PartOf(part, whole, from, to)
    requires ANGULAR_ZERO_TOLERANCE <= orbDeg && Encloses(m, part, Level(base, w), orbDeg, arcDeg, p, q)
    ensures AllBared(Recorded(k, part, base, w)) == AllBared(Recorded(k, whole, base, w))
  {
    PartIsAScene(k, m, part, whole, reach, from, to);
    WholeEncloses(m, part, whole, from, to, Level(base, w), orbDeg, arcDeg, p, q);
    PartCoversItsProof(m, part, whole, from, to, Level(base, w), orbDeg, arcDeg, p, q);
    AllPassesDuring(k, m, part, reach, base, w, orbDeg, arcDeg, p, q);
    AllPassesDuring(k, m, whole, reach, base, w, orbDeg, arcDeg, p, q);
    SameRecordDuring(k, m, part, whole, reach, from, to, base, w, p, q);
  }

  lemma {:induction false} AllPassesDuring(
    k: Track, m: Motion, samples: seq<Sample>, reach: real, base: real, w: int, orbDeg: real, arcDeg: real, p: real, q: real)
    requires Scene(k, m, samples, reach) && ANGULAR_ZERO_TOLERANCE <= orbDeg
    requires Encloses(m, samples, Level(base, w), orbDeg, arcDeg, p, q)
    ensures During(Recorded(k, samples, base, w), p, q) == AllBared(Recorded(k, samples, base, w))
    ensures Divided(Events(k, samples, |samples|, base, w), p, q)
  {
    forall e | e in Events(k, samples, |samples|, base, w)
      ensures p <= e.jd <= q
    {
      PassesAreEnclosed(k, m, samples, reach, base, w, orbDeg, arcDeg, p, q, e);
    }
    PushedAllKeepsAndInvents([], Events(k, samples, |samples|, base, w));
    AllDuring(Recorded(k, samples, base, w), p, q);
  }

  // ----- The boundary families: the bounds divide what is recorded -----

  /** Two roots merged into one event, one of them a second away from the instant it stands for, span less than this. */
  const MERGING := 5.0 / 86400.0

  ghost predicate Sparse(samples: seq<Sample>) {
    forall i :: 0 <= i < |samples| - 1 ==> ROOT_DEDUPE_TOLERANCE < samples[i + 1].jd - samples[i].jd
  }

  /** While two roots can merge the body moves less than its arc, or else no two samples are close enough to merge. */
  ghost predicate BoundsDivide(m: Motion, samples: seq<Sample>, arcDeg: real) {
    || (forall s, t :: -MERGING <= s - t <= MERGING ==> Abs(m.lift(s) - m.lift(t)) + ANGULAR_ZERO_TOLERANCE < arcDeg)
    || Sparse(samples)
  }

  ghost predicate BoundaryBase(level: real, orbDeg: real, base: real, w: int) {
    Level(base, w) == level - orbDeg || Level(base, w) == level + orbDeg
  }

  lemma NoInstantInside(samples: seq<Sample>, i: int, jd: real)
    requires Ascending(samples) && 0 <= i < |samples| - 1 && IsInstant(samples, jd)
    ensures jd <= samples[i].jd || samples[i + 1].jd <= jd
  {
    var n :| 0 <= n < |samples| && samples[n].jd == jd;
    if n <= i {
      TimesAscend(samples, n, i);
    } else {
      TimesAscend(samples, i + 1, n);
    }
  }

  lemma OutOfOrbIsUncrossed(m: Motion, lo: real, hi: real, level: real, orbDeg: real, boundary: real, jd: real)
    requires 0.0 <= orbDeg && (boundary == level - orbDeg || boundary == level + orbDeg)
    requires forall t :: lo <= t <= hi ==> !InOrb(m, t, level, orbDeg)
    ensures !CrossingNear(m.lift, lo, hi, boundary, jd)
  {
    forall c | lo <= c <= hi
      ensures m.lift(c) != boundary
    {
      assert !InOrb(m, c, level, orbDeg);
    }
  }

  /** Outside the bounds only a sample can count as lying on the orb boundary. */
  lemma {:induction false} OutsideOnlySamples(
    k: Track, m: Motion, samples: seq<Sample>, reach: real, level: real, orbDeg: real, arcDeg: real, p: real, q: real,
    base: real, w: int, i: nat, e: Root)
    requires Scene(k, m, samples, reach) && 0.0 <= orbDeg && BoundaryBase(level, orbDeg, base, w)
    requires Encloses(m, samples, level, orbDeg, arcDeg, p, q) && i < |samples|
    requires e in EventsAt(k, samples, i, base, w) && !(p <= e.jd <= q)
    ensures e.jd == samples[i].jd && OnLevel(m.lift(e.jd), Level(base, w))
  {
    EventIsGenuine(k, m, samples, reach, base, w, i, e);
    if InACrossedBracket(m, samples, Level(base, w), e, i) {
      NoInstantInside(samples, i, p);
      NoInstantInside(samples, i, q);
      OutOfOrbIsUncrossed(m, samples[i].jd, samples[i + 1].jd, level, orbDeg, Level(base, w), e.jd);
    }
  }

  lemma GrazeIsFarFromABound(m: Motion, level: real, orbDeg: real, arcDeg: real, boundary: real, bound: real, t: real)
    requires forall x, y :: -MERGING <= x - y <= MERGING ==> Abs(m.lift(x) - m.lift(y)) + ANGULAR_ZERO_TOLERANCE < arcDeg
    requires 0.0 <= orbDeg && (boundary == level - orbDeg || boundary == level + orbDeg)
    requires orbDeg + arcDeg < Abs(m.lift(bound) - level) && OnLevel(m.lift(t), boundary)
    ensures t < bound - MERGING || bound + MERGING < t
  {
  }

  lemma SparseNeighbours(samples: seq<Sample>, i: int, jd: real)
    requires Ascending(samples) && Sparse(samples) && 0 <= i < |samples| && IsInstant(samples, jd)
    ensures samples[i].jd < jd ==> samples[i].jd + ROOT_DEDUPE_TOLERANCE < jd
    ensures jd < samples[i].jd ==> jd + ROOT_DEDUPE_TOLERANCE < samples[i].jd
  {
    var n :| 0 <= n < |samples| && samples[n].jd == jd;
    if samples[i].jd < jd {
      TimesAscend(samples, if i < n then i else n, if i < n then n else i);
      assert i < n;
      TimesAscend(samples, i + 1, n);
    } else if jd < samples[i].jd {
      TimesAscend(samples, if i < n then i else n, if i < n then n else i);
      assert n < i;
      TimesAscend(samples, n, i - 1);
    }
  }

  lemma {:induction false} OutsideIsFar(
    k: Track, m: Motion, samples: seq<Sample>, reach: real, level: real, orbDeg: real, arcDeg: real, p: real, q: real,
    base: real, w: int, inside: Root, outside: Root)
    requires Scene(k, m, samples, reach) && 0.0 <= orbDeg && BoundaryBase(level, orbDeg, base, w)
    requires Encloses(m, samples, level, orbDeg, arcDeg, p, q) && BoundsDivide(m, samples, arcDeg)
    requires outside in Events(k, samples, |samples|, base, w)
    requires p <= inside.jd <= q && !(p <= outside.jd <= q)
    ensures !SamePhysicalEvent(inside, outside) && !SamePhysicalEvent(outside, inside)
  {
    EventsComeFromTheirSamples(k, samples, |samples|, base, w);
    assert Contributed(k, samples, |samples|, base, w, outside);
    var i :| 0 <= i < |samples| && outside in EventsAt(k, samples, i, base, w);
    OutsideOnlySamples(k, m, samples, reach, level, orbDeg, arcDeg, p, q, base, w, i, outside);
    if Sparse(samples) {
      SparseNeighbours(samples, i, p);
      SparseNeighbours(samples, i, q);
    } else {
      GrazeIsFarFromABound(m, level, orbDeg, arcDeg, Level(base, w), p, outside.jd);
      GrazeIsFarFromABound(m, level, orbDeg, arcDeg, Level(base, w), q, outside.jd);
    }
  }

  lemma {:induction false} BoundsDivideTheEvents(
    k: Track, m: Motion, samples: seq<Sample>, reach: real, level: real, orbDeg: real, arcDeg: real, p: real, q: real,
    base: real, w: int)
    requires Scene(k, m, samples, reach) && 0.0 <= orbDeg && BoundaryBase(level, orbDeg, base, w)
    requires Encloses(m, samples, level, orbDeg, arcDeg, p, q) && BoundsDivide(m, samples, arcDeg)
    ensures Divided(Events(k, samples, |samples|, base, w), p, q)
  {
    var events := Events(k, samples, |samples|, base, w);
    forall a, b | a in events && b in events && p <= a.jd <= q && !(p <= b.jd <= q)
      ensures !SamePhysicalEvent(a, b) && !SamePhysicalEvent(b, a)
    {
      OutsideIsFar(k, m, samples, reach, level, orbDeg, arcDeg, p, q, base, w, a, b);
    }
  }

  lemma SparsePart(part: seq<Sample>, whole: seq<Sample>, from: nat, to: nat)
    requires PartOf(part, whole, from, to) && Sparse(whole)
    ensures Sparse(part)
  {
    forall i | 0 <= i < |part| - 1
      ensures ROOT_DEDUPE_TOLERANCE < part[i + 1].jd - part[i].jd
    {
      MomentInAPart(part, whole, from, to, i);
      MomentInAPart(part, whole, from, to, i + 1);
      assert ROOT_DEDUPE_TOLERANCE < whole[from + i + 1].jd - whole[from + i].jd;
    }
  }

  /** Between the bounds of a proven encounter, a part and the whole list record the same boundary roots. */
  lemma {:induction false} SameBoundaries(
    k: Track, m: Motion, part: seq<Sample>, whole: seq<Sample>, reach: real, from: nat, to: nat,
    level: real, orbDeg: real, arcDeg: real, p: real, q: real, base: real, w: int)
    requires Scene(k, m, whole, reach) && PartOf(part, whole, from, to)
    requires 0.0 <= orbDeg && BoundaryBase(level, orbDeg, base, w)
    requires Encloses(m, part, level, orbDeg, arcDeg, p, q) && BoundsDivide(m, whole, arcDeg)
    ensures During(Recorded(k, part, base, w), p, q) == During(Recorded(k, whole, base, w), p, q)
  {
    PartIsAScene(k, m, part, whole, reach, from, to);
    WholeEncloses(m, part, whole, from, to, level, orbDeg, arcDeg, p, q);
    PartCoversItsProof(m, part, whole, from, to, level, orbDeg, arcDeg, p, q);
    if Sparse(whole) {
      SparsePart(part, whole, from, to);
    }
    BoundsDivideTheEvents(k, m, part, reach, level, orbDeg, arcDeg, p, q, base, w);
    BoundsDivideTheEvents(k, m, whole, reach, level, orbDeg, arcDeg, p, q, base, w);
    SameRecordDuring(k, m, part, whole, reach, from, to, base, w, p, q);
  }
}
