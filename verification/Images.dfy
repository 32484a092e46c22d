/** What a preview shows of the model: the point of its surface that is nearest to the viewer. */
module Images {
  import opened Angles
  import opened Optional
  import opened Raster
  import opened RasterTheorems
  import opened Preview

  // ----- The model, as it stands in space -----

  /** One triangle of a model with the shades of its corners. */
  datatype Corners = Corners(p: Point, q: Point, r: Point, shadeP: Shade, shadeQ: Shade, shadeR: Shade)

  function Minus(p: Point, q: Point): Point {
    Point(p.x - q.x, p.y - q.y, p.z - q.z)
  }

  function Mixed(w: Weights, p: Point, q: Point, r: Point): Point {
    Point(w.Mix(p.x, q.x, r.x), w.Mix(p.y, q.y, r.y), w.Mix(p.z, q.z, r.z))
  }

  /** The normal of a triangle, twice its area long, towards the side from which its corners run counterclockwise. */
  function Normal(t: Corners): Point {
    Cross(Minus(t.q, t.p), Minus(t.r, t.p))
  }

  /** The triangle is turned towards the viewer, and not edge on. */
  ghost predicate TurnedTo(t: Corners, view: View) {
    0.000001 < 25600.0 * Dot(Normal(t), view.direction)
  }

  /** The point of the triangle with these weights, slightly beyond its edges at most, lies in the line of sight
      through the centre of a pixel: 160 pixels to the unit, rightwards and upwards from the middle of the canvas. */
  ghost predicate InSight(t: Corners, view: View, x: int, y: int, w: Weights) {
    && w.a + w.b + w.c == 1.0 && -0.0000001 <= w.a && -0.0000001 <= w.b && -0.0000001 <= w.c
    && x as real + 0.5 == 256.0 + 160.0 * Dot(Mixed(w, t.p, t.q, t.r), view.right)
    && y as real + 0.5 == 256.0 - 160.0 * Dot(Mixed(w, t.p, t.q, t.r), view.up)
  }

  /** How near to the viewer that point is. */
  function Nearness(t: Corners, view: View, w: Weights): real {
    Dot(Mixed(w, t.p, t.q, t.r), view.direction)
  }

  ghost predicate Visible(t: Corners, view: View, x: int, y: int, w: Weights) {
    TurnedTo(t, view) && InSight(t, view, x, y, w)
  }

  function Blend(t: Corners, w: Weights): Color {
    Color(Round(w.Mix(t.shadeP.r, t.shadeQ.r, t.shadeR.r)), Round(w.Mix(t.shadeP.g, t.shadeQ.g, t.shadeR.g)),
          Round(w.Mix(t.shadeP.b, t.shadeQ.b, t.shadeR.b)))
  }

  ghost predicate NearestOf(surface: seq<Corners>, view: View, x: int, y: int, i: nat, w: Weights)
    requires i < |surface|
  {
    && Visible(surface[i], view, x, y, w)
    && (forall j, v :: 0 <= j < |surface| && Visible(surface[j], view, x, y, v) ==>
          Nearness(surface[j], view, v) <= Nearness(surface[i], view, w))
    && (forall j, v :: 0 <= j < i && Visible(surface[j], view, x, y, v) ==>
          Nearness(surface[j], view, v) < Nearness(surface[i], view, w))
  }

  /** The pixel shows the point of the surface in its line of sight that is nearest to the viewer, the first such
      triangle where several are equally near, and the background where there is none. */
  ghost predicate ShowsTheSurface(surface: seq<Corners>, view: View, x: int, y: int, shown: Color) {
    || (shown == Color(243, 240, 232) && forall j, v :: 0 <= j < |surface| ==> !Visible(surface[j], view, x, y, v))
    || exists i, w :: 0 <= i < |surface| && NearestOf(surface, view, x, y, i, w) && shown == Blend(surface[i], w)
  }

  /** A pixel at `at` is less than a pixel outside the range of the corners, which are at `p`, `q` and `r` on that axis. */
  predicate Within(at: int, p: real, q: real, r: real) {
    && (p < at as real + 1.0 || q < at as real + 1.0 || r < at as real + 1.0)
    && (at as real - 1.0 < p || at as real - 1.0 < q || at as real - 1.0 < r)
  }

  /** The pixel is less than one pixel outside the bounds of the triangle's image. */
  ghost predicate Framed(t: Corners, view: View, x: int, y: int) {
    && Within(x, 256.0 + 160.0 * Dot(t.p, view.right), 256.0 + 160.0 * Dot(t.q, view.right), 256.0 + 160.0 * Dot(t.r, view.right))
    && Within(y, 256.0 - 160.0 * Dot(t.p, view.up), 256.0 - 160.0 * Dot(t.q, view.up), 256.0 - 160.0 * Dot(t.r, view.up))
  }

  ghost function FrameOf(t: Corners, view: View): set<(int, int)> {
    set x, y | 0 <= x < 512 && 0 <= y < 512 && Framed(t, view, x, y) :: (x, y)
  }

  /** The pixels that the triangles turned to the viewer are tried on, counted once for each triangle. */
  ghost function Burden(surface: seq<Corners>, view: View): nat {
    if surface == [] then 0
    else
      var last := surface[|surface| - 1];
      Burden(surface[..|surface| - 1], view) + if TurnedTo(last, view) then |FrameOf(last, view)| else 0
  }

  /** The triangles of one mesh. */
  function CornersAt(group: MeshGroup, i: nat): Corners
    requires group.Valid() && 3 * i + 2 < |group.indices|
  {
    var a, b, c := group.indices[3 * i], group.indices[3 * i + 1], group.indices[3 * i + 2];
    Corners(group.positions[a], group.positions[b], group.positions[c], group.shades[a], group.shades[b], group.shades[c])
  }

  function MeshOf(group: MeshGroup): (t: seq<Corners>)
    requires group.Valid()
    ensures |t| == |group.indices| / 3
  {
    seq(|group.indices| / 3, i requires 0 <= i < |group.indices| / 3 => CornersAt(group, i))
  }

  /** All triangles of a model, in order. */
  function Surface(model: seq<MeshGroup>): seq<Corners>
    requires ValidModel(model)
  {
    if model == [] then [] else Surface(model[..|model| - 1]) + MeshOf(model[|model| - 1])
  }

  // ----- The projection of one triangle -----

  function ProjectedTriangle(t: Corners, view: View): Triangle {
    Triangle(Projected(t.p, t.shadeP, view), Projected(t.q, t.shadeQ, view), Projected(t.r, t.shadeR, view))
  }

  lemma DotOfMix(w: Weights, p: Point, q: Point, r: Point, u: Point)
    ensures Dot(Mixed(w, p, q, r), u) == w.Mix(Dot(p, u), Dot(q, u), Dot(r, u))
  {
    MixTimes(w, p.x, q.x, r.x, u.x);
    MixTimes(w, p.y, q.y, r.y, u.y);
    MixTimes(w, p.z, q.z, r.z, u.z);
    MixOfSums(w, p.x * u.x, q.x * u.x, r.x * u.x, p.y * u.y, q.y * u.y, r.y * u.y);
    MixOfSums(w, p.x * u.x + p.y * u.y, q.x * u.x + q.y * u.y, r.x * u.x + r.y * u.y, p.z * u.z, q.z * u.z, r.z * u.z);
  }

  lemma MixTimes(w: Weights, x: real, y: real, z: real, k: real)
    ensures w.Mix(x, y, z) * k == w.Mix(x * k, y * k, z * k)
  {
    assert w.a * x * k == w.a * (x * k) && w.b * y * k == w.b * (y * k) && w.c * z * k == w.c * (z * k);
  }

  lemma MixOfSums(w: Weights, x: real, y: real, z: real, u: real, v: real, s: real)
    ensures w.Mix(x + u, y + v, z + s) == w.Mix(x, y, z) + w.Mix(u, v, s)
  {
    assert w.a * (x + u) == w.a * x + w.a * u && w.b * (y + v) == w.b * y + w.b * v && w.c * (z + s) == w.c * z + w.c * s;
  }

  /** A mixture of shifted and stretched values is the mixture, shifted and stretched. */
  lemma MixShifts(w: Weights, x: real, y: real, z: real, at: real, k: real)
    requires w.a + w.b + w.c == 1.0
    ensures w.Mix(at + k * x, at + k * y, at + k * z) == at + k * w.Mix(x, y, z)
  {
    MixTimes(w, x, y, z, k);
    MixOfSums(w, at, at, at, k * x, k * y, k * z);
    assert w.a * at + w.b * at + w.c * at == (w.a + w.b + w.c) * at;
  }

  /** Which side of a triangle a view sees is the sign of its projected area. */
  lemma ProjectedArea(t: Corners, view: View)
    requires RightHanded(view)
    ensures Area(ProjectedTriangle(t, view)) == -25600.0 * Dot(Normal(t), view.direction)
  {
    var e, f := Minus(t.q, t.p), Minus(t.r, t.p);
    var er, fr, eu, fu := Dot(e, view.right), Dot(f, view.right), Dot(e, view.up), Dot(f, view.up);
    DotOfDifference(t.q, t.p, view.right);
    DotOfDifference(t.r, t.p, view.right);
    DotOfDifference(t.q, t.p, view.up);
    DotOfDifference(t.r, t.p, view.up);
    AreaOfLegs(ProjectedTriangle(t, view), er, fr, eu, fu);
    CrossesAgree(e, f, view.right, view.up);
  }

  lemma DotOfDifference(p: Point, q: Point, u: Point)
    ensures Dot(Minus(p, q), u) == Dot(p, u) - Dot(q, u)
  {
  }

  lemma AreaOfLegs(t: Triangle, er: real, fr: real, eu: real, fu: real)
    requires t.b.x - t.a.x == 160.0 * er && t.c.x - t.a.x == 160.0 * fr
    requires t.b.y - t.a.y == -160.0 * eu && t.c.y - t.a.y == -160.0 * fu
    ensures Area(t) == -25600.0 * (er * fu - eu * fr)
  {
    assert (160.0 * er) * (-160.0 * fu) == -25600.0 * (er * fu);
    assert (-160.0 * eu) * (160.0 * fr) == -25600.0 * (eu * fr);
  }

  /** The product of two cross products. */
  lemma CrossesAgree(e: Point, f: Point, r: Point, u: Point)
    ensures Dot(Cross(e, f), Cross(r, u)) == Dot(e, r) * Dot(f, u) - Dot(e, u) * Dot(f, r)
  {
  }

  // ----- The weights are the only ones -----

  /** Weights that add up to one and take the corners to a point are its barycentric weights. */
  lemma WeightsAreUnique(t: Triangle, px: real, py: real, w: Weights)
    requires Faces(t) && w.a + w.b + w.c == 1.0
    requires w.Mix(t.a.x, t.b.x, t.c.x) == px && w.Mix(t.a.y, t.b.y, t.c.y) == py
    ensures WeightsAt(t, px, py) == w
  {
    ShareOfThePoint(t.a, t.b, t.c, w.a, w.b, w.c, px, py);
    ShareOfThePoint(t.b, t.c, t.a, w.b, w.c, w.a, px, py);
    AreaTurns(t);
    Divided(w.a, Area(t));
    Divided(w.b, Area(t));
  }

  lemma Divided(share: real, area: real)
    requires area != 0.0
    ensures share * area / area == share
  {
  }

  lemma AreaTurns(t: Triangle)
    ensures Area(Triangle(t.b, t.c, t.a)) == Area(t)
  {
  }

  lemma ShareOfThePoint(a: Vertex, b: Vertex, c: Vertex, wa: real, wb: real, wc: real, px: real, py: real)
    requires wa + wb + wc == 1.0
    requires wa * a.x + wb * b.x + wc * c.x == px && wa * a.y + wb * b.y + wc * c.y == py
    ensures Spanned(b, c, px, py) == wa * Area(Triangle(a, b, c))
  {
    var ex, ey, fx, fy := b.x - a.x, b.y - a.y, c.x - a.x, c.y - a.y;
    FromTheCorner(a.x, b.x, c.x, wa, wb, wc, px);
    FromTheCorner(a.y, b.y, c.y, wa, wb, wc, py);
    LegsSpan(ex, ey, fx, fy, wb, wc, b.x - px, b.y - py, c.x - px, c.y - py);
    assert 1.0 - wb - wc == wa;
  }

  lemma FromTheCorner(a: real, b: real, c: real, wa: real, wb: real, wc: real, p: real)
    requires wa + wb + wc == 1.0 && wa * a + wb * b + wc * c == p
    ensures b - p == (1.0 - wb) * (b - a) - wc * (c - a)
    ensures c - p == (1.0 - wc) * (c - a) - wb * (b - a)
  {
    assert wa == 1.0 - wb - wc;
    assert wb * (b - a) == wb * b - wb * a && wc * (c - a) == wc * c - wc * a;
    assert (1.0 - wb - wc) * a == a - wb * a - wc * a;
    assert (1.0 - wb) * (b - a) == (b - a) - wb * (b - a);
    assert (1.0 - wc) * (c - a) == (c - a) - wc * (c - a);
  }

  lemma LegsSpan(ex: real, ey: real, fx: real, fy: real, v: real, w: real, hx: real, hy: real, kx: real, ky: real)
    requires hx == (1.0 - v) * ex - w * fx && hy == (1.0 - v) * ey - w * fy
    requires kx == (1.0 - w) * fx - v * ex && ky == (1.0 - w) * fy - v * ey
    ensures hx * ky - hy * kx == (1.0 - v - w) * (ex * fy - ey * fx)
  {
    var s, u := 1.0 - v, 1.0 - w;
    CrossOfCombinations(ex, ey, fx, fy, s, -w, -v, u);
    assert (-w) * fx == -(w * fx) && (-w) * fy == -(w * fy) && (-v) * ex == -(v * ex) && (-v) * ey == -(v * ey);
    assert s * u - (-w) * (-v) == 1.0 - v - w;
  }

  /** The determinant of two combinations is that of their coefficients times that of the legs. */
  lemma CrossOfCombinations(ex: real, ey: real, fx: real, fy: real, k: real, l: real, m: real, n: real)
    ensures (k * ex + l * fx) * (m * ey + n * fy) - (k * ey + l * fy) * (m * ex + n * fx)
         == (k * n - l * m) * (ex * fy - ey * fx)
  {
  }

  // ----- A triangle is hit where it is in sight -----

  lemma HitIsVisible(t: Corners, view: View, x: int, y: int) returns (w: Weights)
    requires RightHanded(view) && FragmentAt(ProjectedTriangle(t, view), x, y).Hit?
    ensures Visible(t, view, x, y, w)
    ensures FragmentAt(ProjectedTriangle(t, view), x, y) == Hit(-Nearness(t, view, w), Blend(t, w))
  {
    var projected := ProjectedTriangle(t, view);
    var px, py := x as real + 0.5, y as real + 0.5;
    w := WeightsAt(projected, px, py);
    ProjectedArea(t, view);
    WeightsReproduceThePoint(projected, px, py);
    CanvasOfMix(t, view, w);
    MixMinus(w, projected.a.x, projected.b.x, projected.c.x, px);
    MixMinus(w, projected.a.y, projected.b.y, projected.c.y, py);
  }

  lemma MixMinus(w: Weights, x: real, y: real, z: real, p: real)
    requires w.a + w.b + w.c == 1.0
    ensures w.Mix(x - p, y - p, z - p) == w.Mix(x, y, z) - p
  {
    MixOfSums(w, x, y, z, -p, -p, -p);
    assert w.a * (-p) + w.b * (-p) + w.c * (-p) == (w.a + w.b + w.c) * (-p);
  }

  /** Where the projection takes the point with these weights. */
  lemma CanvasOfMix(t: Corners, view: View, w: Weights)
    requires w.a + w.b + w.c == 1.0
    ensures var p, q := ProjectedTriangle(t, view), Mixed(w, t.p, t.q, t.r);
      && w.Mix(p.a.x, p.b.x, p.c.x) == 256.0 + 160.0 * Dot(q, view.right)
      && w.Mix(p.a.y, p.b.y, p.c.y) == 256.0 - 160.0 * Dot(q, view.up)
      && w.Mix(p.a.z, p.b.z, p.c.z) == -Dot(q, view.direction)
  {
    DotOfMix(w, t.p, t.q, t.r, view.right);
    DotOfMix(w, t.p, t.q, t.r, view.up);
    DotOfMix(w, t.p, t.q, t.r, view.direction);
    MixShifts(w, Dot(t.p, view.right), Dot(t.q, view.right), Dot(t.r, view.right), 256.0, 160.0);
    MixShifts(w, Dot(t.p, view.up), Dot(t.q, view.up), Dot(t.r, view.up), 256.0, -160.0);
    MixOfOpposites(w, Dot(t.p, view.direction), Dot(t.q, view.direction), Dot(t.r, view.direction));
  }

  lemma VisibleIsHit(t: Corners, view: View, x: int, y: int, w: Weights)
    requires RightHanded(view) && Visible(t, view, x, y, w)
    ensures FragmentAt(ProjectedTriangle(t, view), x, y) == Hit(-Nearness(t, view, w), Blend(t, w))
  {
    var projected := ProjectedTriangle(t, view);
    ProjectedArea(t, view);
    CanvasOfMix(t, view, w);
    WeightsAreUnique(projected, x as real + 0.5, y as real + 0.5, w);
  }

  lemma MissedIsOutOfSight(t: Corners, view: View, x: int, y: int, w: Weights)
    requires RightHanded(view) && FragmentAt(ProjectedTriangle(t, view), x, y).Miss?
    ensures !Visible(t, view, x, y, w)
  {
    if Visible(t, view, x, y, w) {
      VisibleIsHit(t, view, x, y, w);
    }
  }

  // ----- The model and its projection -----

  ghost predicate Projects(surface: seq<Corners>, view: View, triangles: seq<Triangle>) {
    |triangles| == |surface| && forall i :: 0 <= i < |surface| ==> triangles[i] == ProjectedTriangle(surface[i], view)
  }

  lemma GroupProjects(group: MeshGroup, view: View)
    requires group.Valid()
    ensures Projects(MeshOf(group), view, ProjectedGroup(group, view).Triangles())
  {
    var g := ProjectedGroup(group, view);
    forall i | 0 <= i < |group.indices| / 3
      ensures g.Triangles()[i] == ProjectedTriangle(MeshOf(group)[i], view)
    {
      assert g.Triangles()[i] == g.TriangleAt(i);
    }
  }

  lemma ProjectionsJoin(a: seq<Corners>, b: seq<Corners>, view: View, s: seq<Triangle>, t: seq<Triangle>)
    requires Projects(a, view, s) && Projects(b, view, t)
    ensures Projects(a + b, view, s + t)
  {
  }

  lemma {:induction false} ModelProjects(model: seq<MeshGroup>, view: View)
    requires ValidModel(model)
    ensures Projects(Surface(model), view, AllTriangles(ProjectedModel(model, view)))
  {
    if model != [] {
      var n := |model| - 1;
      ModelProjects(model[..n], view);
      GroupProjects(model[n], view);
      assert ProjectedModel(model, view)[..n] == ProjectedModel(model[..n], view);
      ProjectionsJoin(Surface(model[..n]), MeshOf(model[n]), view,
                      AllTriangles(ProjectedModel(model[..n], view)), ProjectedGroup(model[n], view).Triangles());
    }
  }

  // ----- The budget -----

  lemma FrameIsTheBox(t: Corners, view: View)
    ensures |FrameOf(t, view)| == SamplesOf(ProjectedTriangle(t, view))
  {
    var projected := ProjectedTriangle(t, view);
    var box := BoxOf(projected);
    forall x, y
      ensures box.Has(x, y) <==> OnCanvas(x, y) && Framed(t, view, x, y)
    {
      BoxIsTight(projected, x, y);
    }
    assert FrameOf(t, view) == Rows(box.x0, box.x1, box.y0, box.y1);
    RowsHave(box.x0, box.x1, box.y0, box.y1);
  }

  lemma OneMoreKept(triangles: seq<Triangle>, t: Triangle)
    ensures Total(SamplesOf, Kept(Faces, triangles + [t]))
         == Total(SamplesOf, Kept(Faces, triangles)) + if Faces(t) then SamplesOf(t) else 0
  {
    var kept := Kept(Faces, triangles);
    KeptExtends(Faces, SamplesOf, triangles, t);
    KeptExtends(Faces, SamplesOf, kept, t);
    assert kept + [] == kept;
  }

  lemma TurnedIsFacing(t: Corners, view: View)
    requires RightHanded(view)
    ensures TurnedTo(t, view) <==> Faces(ProjectedTriangle(t, view))
  {
    ProjectedArea(t, view);
  }

  lemma {:induction false} BurdenIsTheTotal(surface: seq<Corners>, view: View, triangles: seq<Triangle>)
    requires RightHanded(view) && Projects(surface, view, triangles)
    ensures Burden(surface, view) == Total(SamplesOf, Kept(Faces, triangles))
  {
    if surface != [] {
      var n := |surface| - 1;
      BurdenIsTheTotal(surface[..n], view, triangles[..n]);
      FrameIsTheBox(surface[n], view);
      TurnedIsFacing(surface[n], view);
      OneMoreKept(triangles[..n], triangles[n]);
      assert triangles == triangles[..n] + [triangles[n]];
    }
  }

  // ----- The image -----

  lemma NearestIsShown(surface: seq<Corners>, view: View, triangles: seq<Triangle>, x: int, y: int, i: nat) returns (w: Weights)
    requires RightHanded(view) && Projects(surface, view, triangles) && i < |surface|
    requires IsNearest(Fragments(triangles, x, y), i)
    ensures NearestOf(surface, view, x, y, i, w)
    ensures FragmentAt(triangles[i], x, y) == Hit(-Nearness(surface[i], view, w), Blend(surface[i], w))
  {
    var fragments := Fragments(triangles, x, y);
    w := HitIsVisible(surface[i], view, x, y);
    forall j, v | 0 <= j < |surface| && Visible(surface[j], view, x, y, v)
      ensures Nearness(surface[j], view, v) <= Nearness(surface[i], view, w)
      ensures j < i ==> Nearness(surface[j], view, v) < Nearness(surface[i], view, w)
    {
      VisibleIsHit(surface[j], view, x, y, v);
      assert fragments[j].Hit? && fragments[j].z == -Nearness(surface[j], view, v);
    }
  }

  lemma NearestShowsTheSurface(surface: seq<Corners>, view: View, triangles: seq<Triangle>, x: int, y: int, p: Pixel)
    requires RightHanded(view) && Projects(surface, view, triangles) && ShowsTheNearest(Fragments(triangles, x, y), p)
    ensures ShowsTheSurface(surface, view, x, y, p.color)
  {
    var fragments := Fragments(triangles, x, y);
    if i :| 0 <= i < |fragments| && IsNearest(fragments, i) && p == Pixel(Some(fragments[i].z), fragments[i].color) {
      var w := NearestIsShown(surface, view, triangles, x, y, i);
    } else {
      forall j, v | 0 <= j < |surface|
        ensures !Visible(surface[j], view, x, y, v)
      {
        assert fragments[j].Miss?;
        MissedIsOutOfSight(surface[j], view, x, y, v);
      }
    }
  }

  method ProjectModel(model: seq<MeshGroup>, view: View) returns (groups: seq<Group>)
    requires ValidModel(model)
    ensures groups == ProjectedModel(model, view)
  {
    groups := [];
    var i := 0;
    while i < |model|
      invariant 0 <= i <= |model| && groups == ProjectedModel(model[..i], view)
    {
      assert model[..i + 1][..i] == model[..i];
      var group := ProjectGroup(model[i], view);
      groups := groups + [group];
      i := i + 1;
    }
    assert model[..i] == model;
  }

  /** One view of a normalized model: refused exactly when its boxes hold too many samples, and otherwise every
      pixel shows what of the model's surface is turned to the viewer and nearest in its line of sight. */
  method RenderView(model: seq<MeshGroup>, view: View) returns (canvas: Option<Canvas>)
    requires ValidModel(model) && NormalizedModel(model) && Orthonormal(view) && RightHanded(view)
    ensures canvas.Some? <==> Burden(Surface(model), view) <= 16000000
    ensures canvas.Some? ==> canvas.value.Valid() && forall x, y {:trigger canvas.value.At(x, y)} :: OnCanvas(x, y) ==>
      ShowsTheSurface(Surface(model), view, x, y, canvas.value.At(x, y).color)
  {
    var groups := ProjectModel(model, view);
    ProjectedModelIsSafe(model, view);
    ModelProjects(model, view);
    BurdenIsTheTotal(Surface(model), view, AllTriangles(groups));
    var tried;
    canvas, tried := Rasterize(groups);
    forall x, y | OnCanvas(x, y)
      ensures ShowsTheSurface(Surface(model), view, x, y, PixelAfter(Facing(groups), x, y).color)
    {
      ZBufferIsTheMinimum(AllTriangles(groups), x, y);
      NearestShowsTheSurface(Surface(model), view, AllTriangles(groups), x, y, PixelAfter(Facing(groups), x, y));
    }
  }
}
