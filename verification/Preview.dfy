/** From compiled geometry to the preview: normalization into the unit cube, orthographic projection, and the
    image that the z-buffer then shows. */
module Preview {
  import opened Angles
  import opened Optional
  import opened Raster
  import opened RasterTheorems

  datatype Point = Point(x: real, y: real, z: real)

  function Dot(p: Point, q: Point): real {
    p.x * q.x + p.y * q.y + p.z * q.z
  }

  function Cross(p: Point, q: Point): Point {
    Point(p.y * q.z - p.z * q.y, p.z * q.x - p.x * q.z, p.x * q.y - p.y * q.x)
  }

  // ----- The bounding box -----

  datatype Bounds = Bounds(lo: Point, hi: Point)
  {
    function With(p: Point): Bounds {
      Bounds(Point(Min(lo.x, p.x), Min(lo.y, p.y), Min(lo.z, p.z)), Point(Max(hi.x, p.x), Max(hi.y, p.y), Max(hi.z, p.z)))
    }

    function Size(): Point {
      Point(hi.x - lo.x, hi.y - lo.y, hi.z - lo.z)
    }

    function Center(): Point {
      Point((lo.x + hi.x) / 2.0, (lo.y + hi.y) / 2.0, (lo.z + hi.z) / 2.0)
    }

    ghost predicate Holds(p: Point) {
      lo.x <= p.x <= hi.x && lo.y <= p.y <= hi.y && lo.z <= p.z <= hi.z
    }
  }

  /** Every face of the box is touched. */
  ghost predicate Tight(b: Bounds, points: seq<Point>) {
    && (exists i :: 0 <= i < |points| && points[i].x == b.lo.x) && (exists i :: 0 <= i < |points| && points[i].x == b.hi.x)
    && (exists i :: 0 <= i < |points| && points[i].y == b.lo.y) && (exists i :: 0 <= i < |points| && points[i].y == b.hi.y)
    && (exists i :: 0 <= i < |points| && points[i].z == b.lo.z) && (exists i :: 0 <= i < |points| && points[i].z == b.hi.z)
  }

  ghost predicate BoundsOf(b: Bounds, points: seq<Point>) {
    Tight(b, points) && forall i :: 0 <= i < |points| ==> b.Holds(points[i])
  }

  lemma BoundsGrow(b: Bounds, points: seq<Point>, p: Point)
    requires BoundsOf(b, points)
    ensures BoundsOf(b.With(p), points + [p])
  {
    var all, n := points + [p], |points|;
    assert all[n] == p && forall i :: 0 <= i < n ==> all[i] == points[i];
  }

  /** The smallest box around all points. */
  method BoxAround(points: seq<Point>) returns (b: Bounds)
    requires points != []
    ensures BoundsOf(b, points)
  {
    b := Bounds(points[0], points[0]);
    var i := 1;
    while i < |points|
      invariant 1 <= i <= |points| && BoundsOf(b, points[..i])
    {
      BoundsGrow(b, points[..i], points[i]);
      assert points[..i + 1] == points[..i] + [points[i]];
      b := b.With(points[i]);
      i := i + 1;
    }
    assert points[..i] == points;
  }

  // ----- Normalization -----

  function Longest(size: Point): real {
    Max3(size.x, size.y, size.z)
  }

  /** The model is refused when it is a point or almost flat. */
  predicate LacksDepth(size: Point) {
    Longest(size) <= 0.0 || Min3(size.x, size.y, size.z) / Longest(size) < 0.01
  }

  function Shifted(v: real, center: real, scale: real): real {
    (v - center) * scale
  }

  function Placed(p: Point, center: Point, scale: real): Point {
    Point(Shifted(p.x, center.x, scale), Shifted(p.y, center.y, scale), Shifted(p.z, center.z, scale))
  }

  ghost predicate InUnitCube(p: Point) {
    -1.0 <= p.x <= 1.0 && -1.0 <= p.y <= 1.0 && -1.0 <= p.z <= 1.0
  }

  ghost predicate AllInUnitCube(points: seq<Point>) {
    forall i :: 0 <= i < |points| ==> InUnitCube(points[i])
  }

  /** One axis runs all the way from -1 to 1. */
  ghost predicate FillsTheCube(points: seq<Point>) {
    || ((exists i :: 0 <= i < |points| && points[i].x == -1.0) && (exists i :: 0 <= i < |points| && points[i].x == 1.0))
    || ((exists i :: 0 <= i < |points| && points[i].y == -1.0) && (exists i :: 0 <= i < |points| && points[i].y == 1.0))
    || ((exists i :: 0 <= i < |points| && points[i].z == -1.0) && (exists i :: 0 <= i < |points| && points[i].z == 1.0))
  }

  lemma ScaleHalves(longest: real) returns (scale: real)
    requires 0.0 < longest
    ensures scale == 2.0 / longest && 0.0 < scale && scale * (longest / 2.0) == 1.0
  {
    scale := 2.0 / longest;
  }

  lemma AxisFits(v: real, lo: real, hi: real, center: real, longest: real, scale: real)
    requires lo <= v <= hi && hi - lo <= longest && 0.0 < scale
    requires center == (lo + hi) / 2.0 && scale * (longest / 2.0) == 1.0
    ensures -1.0 <= Shifted(v, center, scale) <= 1.0
  {
    var d, half := v - center, longest / 2.0;
    ProductOrder(scale, d, half);
    ProductOrder(scale, -half, d);
    assert Shifted(v, center, scale) == scale * d && scale * (-half) == -(scale * half);
  }

  lemma AxisEnds(lo: real, hi: real, center: real, longest: real, scale: real)
    requires hi - lo == longest && center == (lo + hi) / 2.0 && scale * (longest / 2.0) == 1.0
    ensures Shifted(lo, center, scale) == -1.0 && Shifted(hi, center, scale) == 1.0
  {
    var half := longest / 2.0;
    assert lo - center == -half && hi - center == half;
    assert (-half) * scale == -(scale * half) && half * scale == scale * half;
  }

  lemma PlacedFits(p: Point, b: Bounds, scale: real)
    requires b.Holds(p) && 0.0 < scale && scale * (Longest(b.Size()) / 2.0) == 1.0
    ensures InUnitCube(Placed(p, b.Center(), scale))
  {
    var longest, center := Longest(b.Size()), b.Center();
    AxisFits(p.x, b.lo.x, b.hi.x, center.x, longest, scale);
    AxisFits(p.y, b.lo.y, b.hi.y, center.y, longest, scale);
    AxisFits(p.z, b.lo.z, b.hi.z, center.z, longest, scale);
  }

  function AllPlaced(points: seq<Point>, center: Point, scale: real): seq<Point> {
    seq(|points|, i requires 0 <= i < |points| => Placed(points[i], center, scale))
  }

  lemma FillsAlongX(points: seq<Point>, b: Bounds, center: Point, longest: real, scale: real)
    requires BoundsOf(b, points) && b.hi.x - b.lo.x == longest && center == b.Center() && scale * (longest / 2.0) == 1.0
    ensures FillsTheCube(AllPlaced(points, center, scale))
  {
    var placed := AllPlaced(points, center, scale);
    var i :| 0 <= i < |points| && points[i].x == b.lo.x;
    var j :| 0 <= j < |points| && points[j].x == b.hi.x;
    AxisEnds(b.lo.x, b.hi.x, center.x, longest, scale);
    assert placed[i].x == -1.0 && placed[j].x == 1.0;
  }

  lemma FillsAlongY(points: seq<Point>, b: Bounds, center: Point, longest: real, scale: real)
    requires BoundsOf(b, points) && b.hi.y - b.lo.y == longest && center == b.Center() && scale * (longest / 2.0) == 1.0
    ensures FillsTheCube(AllPlaced(points, center, scale))
  {
    var placed := AllPlaced(points, center, scale);
    var i :| 0 <= i < |points| && points[i].y == b.lo.y;
    var j :| 0 <= j < |points| && points[j].y == b.hi.y;
    AxisEnds(b.lo.y, b.hi.y, center.y, longest, scale);
    assert placed[i].y == -1.0 && placed[j].y == 1.0;
  }

  lemma FillsAlongZ(points: seq<Point>, b: Bounds, center: Point, longest: real, scale: real)
    requires BoundsOf(b, points) && b.hi.z - b.lo.z == longest && center == b.Center() && scale * (longest / 2.0) == 1.0
    ensures FillsTheCube(AllPlaced(points, center, scale))
  {
    var placed := AllPlaced(points, center, scale);
    var i :| 0 <= i < |points| && points[i].z == b.lo.z;
    var j :| 0 <= j < |points| && points[j].z == b.hi.z;
    AxisEnds(b.lo.z, b.hi.z, center.z, longest, scale);
    assert placed[i].z == -1.0 && placed[j].z == 1.0;
  }

  lemma PlacedFill(points: seq<Point>, b: Bounds, longest: real, scale: real)
    requires BoundsOf(b, points) && longest == Longest(b.Size()) && scale * (longest / 2.0) == 1.0
    ensures FillsTheCube(AllPlaced(points, b.Center(), scale))
  {
    if b.hi.x - b.lo.x == longest {
      FillsAlongX(points, b, b.Center(), longest, scale);
    } else if b.hi.y - b.lo.y == longest {
      FillsAlongY(points, b, b.Center(), longest, scale);
    } else {
      FillsAlongZ(points, b, b.Center(), longest, scale);
    }
  }

  /** All points of a model, one list for each material. */
  function Concat(parts: seq<seq<Point>>): seq<Point> {
    if parts == [] then [] else Concat(parts[..|parts| - 1]) + parts[|parts| - 1]
  }

  lemma {:induction false} ConcatHolds(parts: seq<seq<Point>>, n: nat)
    requires n < |parts|
    ensures forall i :: 0 <= i < |parts[n]| ==> parts[n][i] in Concat(parts)
  {
    if n < |parts| - 1 {
      ConcatHolds(parts[..|parts| - 1], n);
    }
  }

  function PlacedParts(parts: seq<seq<Point>>, center: Point, scale: real): seq<seq<Point>> {
    seq(|parts|, n requires 0 <= n < |parts| => AllPlaced(parts[n], center, scale))
  }

  /** What becomes of a model: refused, or every point placed. */
  ghost predicate NormalizedAs(parts: seq<seq<Point>>, placed: Option<seq<seq<Point>>>) {
    if Concat(parts) == [] then placed.None?
    else exists b :: BoundsOf(b, Concat(parts)) && NormalizedIn(b, parts, placed)
  }

  /** Some side of the box is less than a hundredth of another, or all of them are nothing. */
  ghost predicate Flat(size: Point) {
    || (size.x <= 0.0 && size.y <= 0.0 && size.z <= 0.0)
    || 100.0 * size.x < size.y || 100.0 * size.x < size.z || 100.0 * size.y < size.x
    || 100.0 * size.y < size.z || 100.0 * size.z < size.x || 100.0 * size.z < size.y
  }

  lemma FlatIff(size: Point)
    requires 0.0 <= size.x && 0.0 <= size.y && 0.0 <= size.z
    ensures LacksDepth(size) <==> Flat(size)
  {
    var least, most := Min3(size.x, size.y, size.z), Longest(size);
    if 0.0 < most {
      ShareBelow(least, most);
    }
  }

  lemma ShareBelow(least: real, most: real)
    requires 0.0 < most
    ensures least / most < 0.01 <==> 100.0 * least < most
  {
    var share := least / most;
    assert share * most == least;
    if share < 0.01 {
      assert (0.01 - share) * most == 0.01 * most - least;
    } else {
      ProductOrder(most, 0.01, share);
    }
  }

  ghost predicate NormalizedIn(b: Bounds, parts: seq<seq<Point>>, placed: Option<seq<seq<Point>>>) {
    if Flat(b.Size()) then placed.None?
    else placed == Some(PlacedParts(parts, b.Center(), 2.0 / Longest(b.Size())))
  }

  lemma {:induction false} PartsFit(parts: seq<seq<Point>>, b: Bounds, scale: real, n: nat)
    requires BoundsOf(b, Concat(parts)) && n < |parts| && 0.0 < scale && scale * (Longest(b.Size()) / 2.0) == 1.0
    ensures AllInUnitCube(AllPlaced(parts[n], b.Center(), scale))
  {
    ConcatHolds(parts, n);
    forall i | 0 <= i < |parts[n]|
      ensures InUnitCube(Placed(parts[n][i], b.Center(), scale))
    {
      var all := Concat(parts);
      var j :| 0 <= j < |all| && all[j] == parts[n][i];
      PlacedFits(parts[n][i], b, scale);
    }
  }

  method AllPoints(parts: seq<seq<Point>>) returns (points: seq<Point>)
    ensures points == Concat(parts)
  {
    points := [];
    var n := 0;
    while n < |parts|
      invariant 0 <= n <= |parts| && points == Concat(parts[..n])
    {
      assert parts[..n + 1][..n] == parts[..n];
      points := points + parts[n];
      n := n + 1;
    }
    assert parts[..n] == parts;
  }

  /** Center the model and scale it so that the longest side of its box is two; refuse a flat one. */
  method Normalize(parts: seq<seq<Point>>) returns (placed: Option<seq<seq<Point>>>)
    ensures NormalizedAs(parts, placed)
    ensures placed.Some? ==> |placed.value| == |parts| && forall n :: 0 <= n < |parts| ==> AllInUnitCube(placed.value[n])
    ensures placed.Some? ==> exists center, scale :: placed.value == PlacedParts(parts, center, scale)
                                               && FillsTheCube(AllPlaced(Concat(parts), center, scale))
  {
    var points := AllPoints(parts);
    if points == [] { return None; }
    var b := BoxAround(points);
    FlatIff(b.Size());
    if LacksDepth(b.Size()) { return None; }
    var scale := 2.0 / Longest(b.Size());
    placed := Some(PlacedParts(parts, b.Center(), scale));
    var halving := ScaleHalves(Longest(b.Size()));
    forall n | 0 <= n < |parts|
      ensures AllInUnitCube(placed.value[n])
    {
      PartsFit(parts, b, scale, n);
    }
    PlacedFill(points, b, Longest(b.Size()), scale);
    assert NormalizedIn(b, parts, placed);
  }

  // ----- Projection -----

  /** A view: the directions that point right, up and at the viewer. */
  datatype View = View(right: Point, up: Point, direction: Point)

  ghost predicate IsUnit(p: Point) {
    Dot(p, p) == 1.0
  }

  ghost predicate Orthonormal(v: View) {
    && IsUnit(v.right) && IsUnit(v.up) && IsUnit(v.direction)
    && Dot(v.right, v.up) == 0.0 && Dot(v.right, v.direction) == 0.0 && Dot(v.up, v.direction) == 0.0
  }

  /** Right, up and towards the viewer turn as the axes of the model do. */
  ghost predicate RightHanded(v: View) {
    Cross(v.right, v.up) == v.direction
  }

  /** The view along a direction that is not vertical; `ground` is the length of its horizontal part. */
  function ViewAlong(d: Point, ground: real): View
    requires ground != 0.0
  {
    var right := Point(d.z / ground, 0.0, -d.x / ground);
    View(right, Cross(d, right), d)
  }

  lemma CrossOfUnits(d: Point, r: Point)
    requires IsUnit(d) && IsUnit(r) && Dot(d, r) == 0.0
    ensures IsUnit(Cross(d, r)) && Dot(Cross(d, r), d) == 0.0 && Dot(r, Cross(d, r)) == 0.0
  {
    LagrangeIdentity(d, r);
    assert Dot(Cross(d, r), d) == 0.0;
    assert Dot(r, Cross(d, r)) == 0.0;
  }

  lemma LagrangeIdentity(p: Point, q: Point)
    ensures Dot(Cross(p, q), Cross(p, q)) == Dot(p, p) * Dot(q, q) - Dot(p, q) * Dot(p, q)
  {
  }

  /** One component of a vector that is crossed with a perpendicular unit vector and back. */
  lemma CrossBackAlong(dx: real, dy: real, dz: real, rx: real, ry: real, rz: real, cy: real, cz: real)
    requires rx * rx + ry * ry + rz * rz == 1.0 && dx * rx + dy * ry + dz * rz == 0.0
    requires cz == dx * ry - dy * rx && cy == dz * rx - dx * rz
    ensures ry * cz - rz * cy == dx
  {
    var rest, along := ry * ry + rz * rz, dy * ry + dz * rz;
    assert ry * cz == dx * (ry * ry) - rx * (dy * ry);
    assert rz * cy == rx * (dz * rz) - dx * (rz * rz);
    assert dx * (ry * ry) + dx * (rz * rz) == dx * rest && rx * (dy * ry) + rx * (dz * rz) == rx * along;
    assert rest == 1.0 - rx * rx && along == -(dx * rx);
    assert dx * (1.0 - rx * rx) == dx - dx * (rx * rx) && rx * (-(dx * rx)) == -(dx * (rx * rx));
  }

  lemma CrossBack(d: Point, r: Point)
    requires IsUnit(r) && Dot(d, r) == 0.0
    ensures Cross(r, Cross(d, r)) == d
  {
    var c := Cross(d, r);
    CrossBackAlong(d.x, d.y, d.z, r.x, r.y, r.z, c.y, c.z);
    CrossBackAlong(d.y, d.z, d.x, r.y, r.z, r.x, c.z, c.x);
    CrossBackAlong(d.z, d.x, d.y, r.z, r.x, r.y, c.x, c.y);
  }

  /** Every view looks along its direction, its right is level and its up points upwards: perpendicular unit
      axes, right-handed. */
  lemma ViewsAreOrthonormal(d: Point, ground: real)
    requires IsUnit(d) && 0.0 < ground && ground * ground == d.x * d.x + d.z * d.z
    ensures Orthonormal(ViewAlong(d, ground)) && RightHanded(ViewAlong(d, ground))
    ensures var v := ViewAlong(d, ground); v.direction == d && v.right.y == 0.0 && 0.0 < v.up.y
  {
    var x, z := d.x / ground, d.z / ground;
    assert d.x == x * ground && d.z == z * ground;
    UnitGround(d.x, d.z, x, z, ground);
    var right := ViewAlong(d, ground).right;
    assert Dot(d, right) == d.x * z - d.z * x == 0.0;
    CrossOfUnits(d, right);
    CrossBack(d, right);
    assert Cross(d, right).y == d.z * z + d.x * x == ground * (z * z) + ground * (x * x) == ground * (x * x + z * z);
  }

  lemma Cancel(u: real, v: real, y: real)
    requires y != 0.0 && u * y == v * y
    ensures u == v
  {
    assert u == (u * y) / y;
    assert v == (v * y) / y;
  }

  lemma UnitGround(dx: real, dz: real, x: real, z: real, ground: real)
    requires 0.0 < ground && dx == x * ground && dz == z * ground && ground * ground == dx * dx + dz * dz
    ensures x * x + z * z == 1.0 && dx * z == dz * x
  {
    assert dx * dx == (x * dx) * ground;
    assert dz * dz == (z * dz) * ground;
    Cancel(x * dx + z * dz, ground, ground);
    assert x * dx == (x * x) * ground && z * dz == (z * z) * ground;
    Cancel(x * x + z * z, 1.0, ground);
  }

  /** A shaded vertex colour. */
  datatype Shade = Shade(r: real, g: real, b: real)

  /** One material's mesh as the compiler leaves it: positions, their shades for one view, and a triangle list. */
  datatype MeshGroup = MeshGroup(positions: seq<Point>, shades: seq<Shade>, indices: seq<nat>)
  {
    predicate Valid() {
      |shades| == |positions| && |indices| % 3 == 0 && forall i :: 0 <= i < |indices| ==> indices[i] < |positions|
    }
  }

  /** Where a point falls on the canvas, 160 pixels to the unit and y pointing down. */
  function Projected(p: Point, shade: Shade, view: View): Vertex {
    Vertex(256.0 + 160.0 * Dot(p, view.right), 256.0 - 160.0 * Dot(p, view.up), -Dot(p, view.direction), shade.r, shade.g, shade.b)
  }

  function ProjectedGroup(group: MeshGroup, view: View): (g: Group)
    requires group.Valid()
    ensures g.Valid()
  {
    Group(seq(|group.positions|, i requires 0 <= i < |group.positions| => Projected(group.positions[i], group.shades[i], view)),
          group.indices)
  }

  predicate ValidModel(model: seq<MeshGroup>) {
    forall i :: 0 <= i < |model| ==> model[i].Valid()
  }

  ghost predicate NormalizedModel(model: seq<MeshGroup>) {
    forall i :: 0 <= i < |model| ==> AllInUnitCube(model[i].positions)
  }

  /** The whole model as one view sees it. */
  function ProjectedModel(model: seq<MeshGroup>, view: View): (groups: seq<Group>)
    requires ValidModel(model)
    ensures |groups| == |model| && forall i :: 0 <= i < |groups| ==> groups[i].Valid()
  {
    if model == [] then []
    else ProjectedModel(model[..|model| - 1], view) + [ProjectedGroup(model[|model| - 1], view)]
  }

  method ProjectGroup(group: MeshGroup, view: View) returns (g: Group)
    requires group.Valid()
    ensures g == ProjectedGroup(group, view)
  {
    var vertices: seq<Vertex> := [];
    var i := 0;
    while i < |group.positions|
      invariant 0 <= i <= |group.positions| && |vertices| == i
      invariant forall j :: 0 <= j < i ==> vertices[j] == Projected(group.positions[j], group.shades[j], view)
    {
      vertices := vertices + [Projected(group.positions[i], group.shades[i], view)];
      i := i + 1;
    }
    g := Group(vertices, group.indices);
  }

  // ----- A normalized model stays near the canvas -----

  lemma UnitComponent(u: real, rest: real)
    requires u * u + rest == 1.0 && 0.0 <= rest
    ensures -1.0 <= u <= 1.0
  {
    if 1.0 < u {
      ProductOrder(u, 1.0, u);
    } else if u < -1.0 {
      ProductOrder(-u, 1.0, -u);
    }
  }

  lemma NonnegativeProduct(x: real, y: real)
    requires 0.0 <= x && 0.0 <= y
    ensures 0.0 <= x * y
  {
  }

  lemma SmallPart(p: real, u: real)
    requires 0.0 <= p <= 1.0 && -1.0 <= u <= 1.0
    ensures -1.0 <= p * u <= 1.0
  {
    var product := p * u;
    NonnegativeProduct(p, 1.0 - u);
    assert p * (1.0 - u) == p - product;
    NonnegativeProduct(p, 1.0 + u);
    assert p * (1.0 + u) == p + product;
  }

  lemma SmallTerm(p: real, u: real) returns (term: real)
    requires -1.0 <= p <= 1.0 && -1.0 <= u <= 1.0
    ensures term == p * u && -1.0 <= term <= 1.0
  {
    term := p * u;
    if 0.0 <= p {
      SmallPart(p, u);
    } else {
      SmallPart(-p, u);
      assert (-p) * u == -term;
    }
  }

  lemma UnitIsInUnitCube(u: Point)
    requires IsUnit(u)
    ensures InUnitCube(u)
  {
    SquareIsNonnegative(u.x);
    SquareIsNonnegative(u.y);
    SquareIsNonnegative(u.z);
    UnitComponent(u.x, u.y * u.y + u.z * u.z);
    UnitComponent(u.y, u.x * u.x + u.z * u.z);
    UnitComponent(u.z, u.x * u.x + u.y * u.y);
  }

  lemma DotIsBounded(p: Point, u: Point)
    requires InUnitCube(p) && InUnitCube(u)
    ensures -3.0 <= Dot(p, u) <= 3.0
  {
    var x := SmallTerm(p.x, u.x);
    var y := SmallTerm(p.y, u.y);
    var z := SmallTerm(p.z, u.z);
    assert Dot(p, u) == x + y + z;
  }

  ghost predicate NearCanvas(v: Vertex) {
    -224.0 <= v.x <= 736.0 && -224.0 <= v.y <= 736.0
  }

  ghost predicate TriangleNearCanvas(t: Triangle) {
    NearCanvas(t.a) && NearCanvas(t.b) && NearCanvas(t.c)
  }

  ghost predicate AllNearCanvas(triangles: seq<Triangle>) {
    forall i :: 0 <= i < |triangles| ==> TriangleNearCanvas(triangles[i])
  }

  lemma ProjectedIsNear(p: Point, shade: Shade, view: View)
    requires InUnitCube(p) && InUnitCube(view.right) && InUnitCube(view.up)
    ensures NearCanvas(Projected(p, shade, view))
  {
    DotIsBounded(p, view.right);
    DotIsBounded(p, view.up);
  }

  lemma GroupIsNear(group: MeshGroup, view: View)
    requires group.Valid() && AllInUnitCube(group.positions) && Orthonormal(view)
    ensures AllNearCanvas(ProjectedGroup(group, view).Triangles())
  {
    var g := ProjectedGroup(group, view);
    UnitIsInUnitCube(view.right);
    UnitIsInUnitCube(view.up);
    forall i | 0 <= i < |g.vertices|
      ensures NearCanvas(g.vertices[i])
    {
      ProjectedIsNear(group.positions[i], group.shades[i], view);
    }
    forall i | 0 <= i < |g.Triangles()|
      ensures TriangleNearCanvas(g.Triangles()[i])
    {
      assert g.Triangles()[i] == g.TriangleAt(i);
    }
  }

  lemma {:induction false} ModelIsNear(model: seq<MeshGroup>, view: View)
    requires ValidModel(model) && NormalizedModel(model) && Orthonormal(view)
    ensures AllNearCanvas(AllTriangles(ProjectedModel(model, view)))
  {
    if model != [] {
      var n := |model| - 1;
      ModelIsNear(model[..n], view);
      GroupIsNear(model[n], view);
      assert ProjectedModel(model, view)[..n] == ProjectedModel(model[..n], view);
    }
  }

  lemma {:induction false} KeptAreNear(faces: Triangle -> bool, triangles: seq<Triangle>)
    requires AllNearCanvas(triangles)
    ensures AllNearCanvas(Kept(faces, triangles))
  {
    if triangles != [] {
      KeptAreNear(faces, triangles[..|triangles| - 1]);
    }
  }

  /** Every triangle of a normalized model is narrow enough for its box. */
  lemma NearIsSafe(triangles: seq<Triangle>)
    requires AllNearCanvas(triangles)
    ensures AllSafe(triangles)
  {
    forall i | 0 <= i < |triangles|
      ensures SafeExtent(triangles[i].a.x, triangles[i].b.x, triangles[i].c.x)
      ensures SafeExtent(triangles[i].a.y, triangles[i].b.y, triangles[i].c.y)
    {
      assert TriangleNearCanvas(triangles[i]);
    }
  }

  /** No triangle of a normalized model is too wide for its box, whichever way it is viewed. */
  lemma {:induction false} ProjectedModelIsSafe(model: seq<MeshGroup>, view: View)
    requires ValidModel(model) && NormalizedModel(model) && Orthonormal(view)
    ensures AllSafe(Facing(ProjectedModel(model, view)))
  {
    ModelIsNear(model, view);
    KeptAreNear(Faces, AllTriangles(ProjectedModel(model, view)));
    NearIsSafe(Facing(ProjectedModel(model, view)));
  }
}
