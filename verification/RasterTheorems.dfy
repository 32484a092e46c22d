/** The z-buffer is a per-pixel minimum, and the boxes lose nothing. */
module RasterTheorems {
  import opened Angles
  import opened Optional
  import opened Raster

  // ----- Barycentric weights -----

  /** Three edges seen from a point: the weighted corners balance. */
  lemma CornersBalance(xa: real, ya: real, xb: real, yb: real, xc: real, yc: real)
    ensures (xb * yc - yb * xc) * xa + (xc * ya - yc * xa) * xb + (xa * yb - ya * xb) * xc == 0.0
    ensures (xb * yc - yb * xc) * ya + (xc * ya - yc * xa) * yb + (xa * yb - ya * xb) * yc == 0.0
  {
  }

  lemma AreaIsTheSum(xa: real, ya: real, xb: real, yb: real, xc: real, yc: real)
    ensures (xb - xa) * (yc - ya) - (yb - ya) * (xc - xa)
         == (xb * yc - yb * xc) + (xc * ya - yc * xa) + (xa * yb - ya * xb)
  {
  }

  lemma ScaledShares(na: real, nb: real, nc: real, area: real, xa: real, xb: real, xc: real)
    requires area != 0.0 && na + nb + nc == area && na * xa + nb * xb + nc * xc == 0.0
    ensures (na / area) * xa + (nb / area) * xb + (1.0 - na / area - nb / area) * xc == 0.0
  {
    var wa, wb := na / area, nb / area;
    assert na == wa * area && nb == wb * area;
    assert nc == (1.0 - wa - wb) * area;
    var balance := wa * xa + wb * xb + (1.0 - wa - wb) * xc;
    assert area * balance == na * xa + nb * xb + nc * xc;
  }

  lemma SpannedIsTheShare(t: Triangle, px: real, py: real, xa: real, ya: real, xb: real, yb: real, xc: real, yc: real)
    requires xa == t.a.x - px && xb == t.b.x - px && xc == t.c.x - px
    requires ya == t.a.y - py && yb == t.b.y - py && yc == t.c.y - py
    ensures Spanned(t.b, t.c, px, py) == xb * yc - yb * xc && Spanned(t.c, t.a, px, py) == xc * ya - yc * xa
    ensures Area(t) == (xb - xa) * (yc - ya) - (yb - ya) * (xc - xa)
  {
  }

  /** The weights add up to one and take the corners back to the point. */
  lemma WeightsReproduceThePoint(t: Triangle, px: real, py: real)
    requires Faces(t)
    ensures var w := WeightsAt(t, px, py);
      && w.a + w.b + w.c == 1.0
      && w.Mix(t.a.x - px, t.b.x - px, t.c.x - px) == 0.0
      && w.Mix(t.a.y - py, t.b.y - py, t.c.y - py) == 0.0
  {
    var xa, xb, xc := t.a.x - px, t.b.x - px, t.c.x - px;
    var ya, yb, yc := t.a.y - py, t.b.y - py, t.c.y - py;
    var na, nb, nc := xb * yc - yb * xc, xc * ya - yc * xa, xa * yb - ya * xb;
    SpannedIsTheShare(t, px, py, xa, ya, xb, yb, xc, yc);
    AreaIsTheSum(xa, ya, xb, yb, xc, yc);
    CornersBalance(xa, ya, xb, yb, xc, yc);
    ScaledShares(na, nb, nc, Area(t), xa, xb, xc);
    ScaledShares(na, nb, nc, Area(t), ya, yb, yc);
  }

  // ----- How far a mixture can leave the range of its corners -----

  lemma TermBound(w: real, d: real, span: real)
    requires -EDGE <= w && -span <= d <= 0.0
    ensures w * d <= EDGE * span
    ensures 0.0 <= w ==> w * d <= 0.0
  {
    var a, b := -w, -d;
    assert w * d == b * a;
    if w < 0.0 {
      ProductOrder(b, a, EDGE);
    } else {
      ProductOrder(b, a, 0.0);
    }
  }

  lemma MixSplits(w: Weights, x: real, y: real, z: real, hi: real)
    requires w.a + w.b + w.c == 1.0
    ensures w.Mix(x, y, z) == hi + w.a * (x - hi) + w.b * (y - hi) + w.c * (z - hi)
  {
    assert w.a * (x - hi) == w.a * x - w.a * hi;
    assert w.b * (y - hi) == w.b * y - w.b * hi;
    assert w.c * (z - hi) == w.c * z - w.c * hi;
    assert w.a * hi + w.b * hi + w.c * hi == (w.a + w.b + w.c) * hi;
  }

  /** Weights that may be slightly negative leave the range of three values by two edge widths at most. */
  lemma MixStaysBelow(w: Weights, x: real, y: real, z: real, lo: real, hi: real)
    requires w.Inside() && w.a + w.b + w.c == 1.0
    requires lo <= x <= hi && lo <= y <= hi && lo <= z <= hi
    ensures w.Mix(x, y, z) <= hi + 2.0 * (EDGE * (hi - lo))
  {
    MixSplits(w, x, y, z, hi);
    TermBound(w.a, x - hi, hi - lo);
    TermBound(w.b, y - hi, hi - lo);
    TermBound(w.c, z - hi, hi - lo);
    assert 0.0 <= w.a || 0.0 <= w.b || 0.0 <= w.c;
  }

  lemma MixOfOpposites(w: Weights, x: real, y: real, z: real)
    ensures w.Mix(-x, -y, -z) == -w.Mix(x, y, z)
  {
    assert w.a * (-x) == -(w.a * x) && w.b * (-y) == -(w.b * y) && w.c * (-z) == -(w.c * z);
  }

  lemma MixStaysNear(w: Weights, x: real, y: real, z: real, lo: real, hi: real)
    requires w.Inside() && w.a + w.b + w.c == 1.0
    requires lo <= x <= hi && lo <= y <= hi && lo <= z <= hi
    ensures lo - 2.0 * (EDGE * (hi - lo)) <= w.Mix(x, y, z) <= hi + 2.0 * (EDGE * (hi - lo))
  {
    MixStaysBelow(w, x, y, z, lo, hi);
    MixStaysBelow(w, -x, -y, -z, -hi, -lo);
    MixOfOpposites(w, x, y, z);
  }

  // ----- The box -----

  /** Canvas lengths below which the box is safe. */
  const SAFE_EXTENT := 2500000.0

  ghost predicate SafeExtent(x: real, y: real, z: real) {
    Max3(x, y, z) - Min3(x, y, z) < SAFE_EXTENT
  }

  lemma CoveredLiesBetween(w: Weights, x: real, y: real, z: real, pixel: int)
    requires w.Inside() && w.a + w.b + w.c == 1.0 && SafeExtent(x, y, z) && 0 <= pixel < SIZE
    requires var p := pixel as real + 0.5; w.Mix(x - p, y - p, z - p) == 0.0
    ensures ClippedLow(Min3(x, y, z)) <= pixel <= ClippedHigh(Max3(x, y, z))
  {
    var p := pixel as real + 0.5;
    var lo, hi := Min3(x, y, z) - p, Max3(x, y, z) - p;
    MixStaysNear(w, x - p, y - p, z - p, lo, hi);
    assert 2.0 * (EDGE * (hi - lo)) < 0.5;
  }

  /** No covered pixel is outside its box: drawing through the box is drawing everywhere. */
  lemma BoxHoldsEveryCoveredPixel(t: Triangle, x: int, y: int)
    requires OnCanvas(x, y) && FragmentAt(t, x, y).Hit?
    requires SafeExtent(t.a.x, t.b.x, t.c.x) && SafeExtent(t.a.y, t.b.y, t.c.y)
    ensures BoxOf(t).Has(x, y)
  {
    var px, py := x as real + 0.5, y as real + 0.5;
    var w := WeightsAt(t, px, py);
    WeightsReproduceThePoint(t, px, py);
    CoveredLiesBetween(w, t.a.x, t.b.x, t.c.x, x);
    CoveredLiesBetween(w, t.a.y, t.b.y, t.c.y, y);
  }

  // ----- Colours -----

  lemma MixedByteRoundsToAByte(w: Weights, x: real, y: real, z: real)
    requires w.Inside() && w.a + w.b + w.c == 1.0
    requires 0.0 <= x <= 255.0 && 0.0 <= y <= 255.0 && 0.0 <= z <= 255.0
    ensures 0 <= Round(w.Mix(x, y, z)) <= 255
  {
    MixStaysNear(w, x, y, z, 0.0, 255.0);
  }

  ghost predicate ShadedInBytes(v: Vertex) {
    0.0 <= v.r <= 255.0 && 0.0 <= v.g <= 255.0 && 0.0 <= v.b <= 255.0
  }

  /** Interpolated colours fit the byte buffer although weights may be slightly negative. */
  lemma ColoursStayBytes(t: Triangle, x: int, y: int)
    requires FragmentAt(t, x, y).Hit? && ShadedInBytes(t.a) && ShadedInBytes(t.b) && ShadedInBytes(t.c)
    ensures var c := FragmentAt(t, x, y).color; 0 <= c.r <= 255 && 0 <= c.g <= 255 && 0 <= c.b <= 255
  {
    var px, py := x as real + 0.5, y as real + 0.5;
    var w := WeightsAt(t, px, py);
    WeightsReproduceThePoint(t, px, py);
    MixedByteRoundsToAByte(w, t.a.r, t.b.r, t.c.r);
    MixedByteRoundsToAByte(w, t.a.g, t.b.g, t.c.g);
    MixedByteRoundsToAByte(w, t.a.b, t.b.b, t.c.b);
  }

  // ----- The minimum -----

  /** What every triangle of a list shows at one pixel, boxes aside. */
  function Fragments(triangles: seq<Triangle>, x: int, y: int): seq<Fragment> {
    seq(|triangles|, i requires 0 <= i < |triangles| => FragmentAt(triangles[i], x, y))
  }

  /** The pixel shows the nearest fragment, the first of them where several are equally near, and the
      background where there is none. */
  ghost predicate ShowsTheNearest(fragments: seq<Fragment>, p: Pixel) {
    || (p == BACKGROUND && forall i :: 0 <= i < |fragments| ==> fragments[i].Miss?)
    || exists i :: 0 <= i < |fragments| && IsNearest(fragments, i) && p == Pixel(Some(fragments[i].z), fragments[i].color)
  }

  ghost predicate IsNearest(fragments: seq<Fragment>, i: nat)
    requires i < |fragments|
  {
    && fragments[i].Hit?
    && (forall j :: 0 <= j < |fragments| && fragments[j].Hit? ==> fragments[i].z <= fragments[j].z)
    && (forall j :: 0 <= j < i && fragments[j].Hit? ==> fragments[i].z < fragments[j].z)
  }

  lemma PaintingKeepsTheNearest(fragments: seq<Fragment>, p: Pixel, f: Fragment)
    requires ShowsTheNearest(fragments, p)
    ensures ShowsTheNearest(fragments + [f], Painted(p, f))
  {
    var all, n := fragments + [f], |fragments|;
    if i :| 0 <= i < n && IsNearest(fragments, i) && p == Pixel(Some(fragments[i].z), fragments[i].color) {
      assert all[i] == fragments[i];
      if f.Hit? && f.z < fragments[i].z {
        assert IsNearest(all, n);
      } else {
        assert IsNearest(all, i);
      }
    } else if f.Hit? {
      assert IsNearest(all, n);
    }
  }

  ghost predicate AllSafe(triangles: seq<Triangle>) {
    forall i :: 0 <= i < |triangles| ==>
      && SafeExtent(triangles[i].a.x, triangles[i].b.x, triangles[i].c.x)
      && SafeExtent(triangles[i].a.y, triangles[i].b.y, triangles[i].c.y)
  }

  /** The whole z-buffer refines the per-pixel minimum over all triangles, whichever way they face. */
  lemma {:induction false} ZBufferIsTheMinimum(triangles: seq<Triangle>, x: int, y: int)
    requires AllSafe(Kept(Faces, triangles)) && OnCanvas(x, y)
    ensures ShowsTheNearest(Fragments(triangles, x, y), PixelAfter(Kept(Faces, triangles), x, y))
  {
    if triangles != [] {
      var init, t := triangles[..|triangles| - 1], triangles[|triangles| - 1];
      var f, kept := FragmentAt(t, x, y), Kept(Faces, init);
      assert Fragments(triangles, x, y) == Fragments(init, x, y) + [f];
      if Faces(t) {
        assert Kept(Faces, triangles) == kept + [t] && (kept + [t])[..|kept|] == kept;
        SafeInit(kept, t);
        ZBufferIsTheMinimum(init, x, y);
        if f.Hit? {
          BoxHoldsEveryCoveredPixel(t, x, y);
        }
      } else {
        assert kept + [] == kept;
        ZBufferIsTheMinimum(init, x, y);
      }
      PaintingKeepsTheNearest(Fragments(init, x, y), PixelAfter(kept, x, y), f);
    }
  }

  lemma SafeInit(triangles: seq<Triangle>, t: Triangle)
    requires AllSafe(triangles + [t])
    ensures AllSafe(triangles) && SafeExtent(t.a.x, t.b.x, t.c.x) && SafeExtent(t.a.y, t.b.y, t.c.y)
  {
    assert (triangles + [t])[|triangles|] == t;
    assert forall i :: 0 <= i < |triangles| ==> (triangles + [t])[i] == triangles[i];
  }

  // ----- What the boxes cost -----

  /** The pixels tried are those of the canvas less than one pixel outside the triangle's bounds. */
  lemma BoxIsTight(t: Triangle, x: int, y: int)
    ensures BoxOf(t).Has(x, y) <==>
      && OnCanvas(x, y)
      && (t.a.x < x as real + 1.0 || t.b.x < x as real + 1.0 || t.c.x < x as real + 1.0)
      && (x as real - 1.0 < t.a.x || x as real - 1.0 < t.b.x || x as real - 1.0 < t.c.x)
      && (t.a.y < y as real + 1.0 || t.b.y < y as real + 1.0 || t.c.y < y as real + 1.0)
      && (y as real - 1.0 < t.a.y || y as real - 1.0 < t.b.y || y as real - 1.0 < t.c.y)
  {
  }

  function Row(x0: int, x1: int, y: int): set<(int, int)> {
    set x | x0 <= x <= x1 :: (x, y)
  }

  function Rows(x0: int, x1: int, y0: int, y1: int): set<(int, int)> {
    set x, y | x0 <= x <= x1 && y0 <= y <= y1 :: (x, y)
  }

  lemma {:induction false} RowHas(x0: int, x1: int, y: int)
    ensures |Row(x0, x1, y)| == if x0 <= x1 then x1 - x0 + 1 else 0
    decreases x1 - x0
  {
    if x0 <= x1 {
      RowHas(x0, x1 - 1, y);
      assert Row(x0, x1, y) == Row(x0, x1 - 1, y) + {(x1, y)};
    } else {
      assert Row(x0, x1, y) == {};
    }
  }

  lemma {:induction false} RowsHave(x0: int, x1: int, y0: int, y1: int)
    ensures |Rows(x0, x1, y0, y1)| == Box(x0, x1, y0, y1).Samples()
    decreases y1 - y0
  {
    if y0 <= y1 {
      var width := if x0 <= x1 then x1 - x0 + 1 else 0;
      RowsHave(x0, x1, y0, y1 - 1);
      RowHas(x0, x1, y1);
      assert Rows(x0, x1, y0, y1) == Rows(x0, x1, y0, y1 - 1) + Row(x0, x1, y1);
      OneMoreRow(width, y1 - y0);
    } else {
      assert Rows(x0, x1, y0, y1) == {};
    }
  }
}
