/** The preview rasterizer: a bounded z-buffer over projected, shaded triangles. */
module Raster {
  import opened Angles
  import opened Optional

  const SIZE := 512
  const RASTER_BUDGET := 16000000
  const FACING := -0.000001
  const EDGE := 0.0000001

  /** A projected vertex: canvas position (y pointing down), depth, and shaded colour channels. */
  datatype Vertex = Vertex(x: real, y: real, z: real, r: real, g: real, b: real)

  datatype Triangle = Triangle(a: Vertex, b: Vertex, c: Vertex)

  datatype Color = Color(r: int, g: int, b: int)

  datatype Pixel = Pixel(depth: Option<real>, color: Color)

  /** What one triangle shows at one pixel centre. */
  datatype Fragment = Miss | Hit(z: real, color: Color)

  const BACKGROUND := Pixel(None, Color(243, 240, 232))

  // ----- Geometry -----

  function Area(t: Triangle): real {
    (t.b.x - t.a.x) * (t.c.y - t.a.y) - (t.b.y - t.a.y) * (t.c.x - t.a.x)
  }

  predicate Faces(t: Triangle) {
    Area(t) < FACING
  }

  function Min3(x: real, y: real, z: real): real {
    Min(Min(x, y), z)
  }

  function Max3(x: real, y: real, z: real): real {
    Max(Max(x, y), z)
  }

  /** The pixels a triangle is tried on. */
  datatype Box = Box(x0: int, x1: int, y0: int, y1: int)
  {
    predicate Has(x: int, y: int) {
      x0 <= x <= x1 && y0 <= y <= y1
    }

    function Samples(): nat {
      (if x0 <= x1 then x1 - x0 + 1 else 0) * (if y0 <= y1 then y1 - y0 + 1 else 0)
    }
  }

  function ClippedLow(v: real): int {
    if v.Floor < 0 then 0 else v.Floor
  }

  function ClippedHigh(v: real): int {
    if SIZE - 1 < Ceil(v) then SIZE - 1 else Ceil(v)
  }

  function BoxOf(t: Triangle): Box {
    Box(ClippedLow(Min3(t.a.x, t.b.x, t.c.x)), ClippedHigh(Max3(t.a.x, t.b.x, t.c.x)),
        ClippedLow(Min3(t.a.y, t.b.y, t.c.y)), ClippedHigh(Max3(t.a.y, t.b.y, t.c.y)))
  }

  datatype Weights = Weights(a: real, b: real, c: real)
  {
    predicate Inside() {
      -EDGE <= a && -EDGE <= b && -EDGE <= c
    }

    function Mix(x: real, y: real, z: real): real {
      a * x + b * y + c * z
    }
  }

  /** Twice the signed area that a point spans with one edge. */
  function Spanned(p: Vertex, q: Vertex, px: real, py: real): real {
    (p.x - px) * (q.y - py) - (p.y - py) * (q.x - px)
  }

  /** The barycentric weights of a point. */
  function WeightsAt(t: Triangle, px: real, py: real): Weights
    requires Faces(t)
  {
    var area := Area(t);
    var wa := Spanned(t.b, t.c, px, py) / area;
    var wb := Spanned(t.c, t.a, px, py) / area;
    Weights(wa, wb, 1.0 - wa - wb)
  }

  function Shown(t: Triangle, w: Weights): Fragment {
    Hit(w.Mix(t.a.z, t.b.z, t.c.z),
        Color(Round(w.Mix(t.a.r, t.b.r, t.c.r)), Round(w.Mix(t.a.g, t.b.g, t.c.g)), Round(w.Mix(t.a.b, t.b.b, t.c.b))))
  }

  /** What a triangle shows at a pixel, with no clipping box at all. */
  function FragmentAt(t: Triangle, x: int, y: int): Fragment {
    if !Faces(t) then Miss
    else
      var w := WeightsAt(t, x as real + 0.5, y as real + 0.5);
      if w.Inside() then Shown(t, w) else Miss
  }

  // ----- One pixel -----

  /** The nearer fragment wins; of two at the same depth, the earlier. */
  function Painted(p: Pixel, f: Fragment): Pixel {
    match f
    case Miss => p
    case Hit(z, color) => if p.depth.Some? && p.depth.value <= z then p else Pixel(Some(z), color)
  }

  /** A pixel after one triangle has been drawn through its box. */
  function Drawn(p: Pixel, t: Triangle, x: int, y: int): Pixel {
    if BoxOf(t).Has(x, y) then Painted(p, FragmentAt(t, x, y)) else p
  }

  function PixelAfter(triangles: seq<Triangle>, x: int, y: int): Pixel {
    if triangles == [] then BACKGROUND
    else Drawn(PixelAfter(triangles[..|triangles| - 1], x, y), triangles[|triangles| - 1], x, y)
  }

  predicate OnCanvas(x: int, y: int) {
    0 <= x < SIZE && 0 <= y < SIZE
  }

  function Index(x: int, y: int): (i: nat)
    requires OnCanvas(x, y)
    ensures i < SIZE * SIZE
  {
    y * SIZE + x
  }

  // ----- The canvas -----

  class Canvas {
    const pixels: array<int>
    const depth: array<Option<real>>

    ghost predicate Valid()
      reads this
    {
      pixels.Length == 3 * SIZE * SIZE && depth.Length == SIZE * SIZE
    }

    ghost function At(x: int, y: int): Pixel
      requires Valid() && OnCanvas(x, y)
      reads this, pixels, depth
    {
      var i := Index(x, y);
      Pixel(depth[i], Color(pixels[3 * i], pixels[3 * i + 1], pixels[3 * i + 2]))
    }

    constructor ()
      ensures Valid() && fresh(pixels) && fresh(depth)
      ensures forall u, v {:trigger At(u, v)} :: OnCanvas(u, v) ==> At(u, v) == BACKGROUND
    {
      pixels := new int[3 * SIZE * SIZE](i => if i % 3 == 0 then 243 else if i % 3 == 1 then 240 else 232);
      depth := new Option<real>[SIZE * SIZE](_ => None);
    }

    method Store(x: int, y: int, z: real, color: Color)
      requires Valid() && OnCanvas(x, y)
      modifies pixels, depth
      ensures At(x, y) == Pixel(Some(z), color)
      ensures forall u, v :: OnCanvas(u, v) && (u, v) != (x, y) ==> At(u, v) == old(At(u, v))
    {
      var i := Index(x, y);
      depth[i] := Some(z);
      pixels[3 * i] := color.r;
      pixels[3 * i + 1] := color.g;
      pixels[3 * i + 2] := color.b;
    }

    /** Try one triangle on one pixel. */
    method Sample(t: Triangle, x: int, y: int)
      requires Valid() && OnCanvas(x, y) && Faces(t)
      modifies pixels, depth
      ensures At(x, y) == Painted(old(At(x, y)), FragmentAt(t, x, y))
      ensures forall u, v :: OnCanvas(u, v) && (u, v) != (x, y) ==> At(u, v) == old(At(u, v))
    {
      var f := Probe(t, x, y);
      if f.Miss? { return; }
      var i := Index(x, y);
      if depth[i].Some? && depth[i].value <= f.z { return; }
      Store(x, y, f.z, f.color);
    }
  
    method DrawRow(t: Triangle, y: int, x0: int, x1: int) returns (tried: nat)
      requires Valid() && Faces(t) && 0 <= y < SIZE && 0 <= x0 && x1 < SIZE
      modifies pixels, depth
      ensures forall u, v {:trigger At(u, v)} :: OnCanvas(u, v) ==>
        At(u, v) == if v == y && x0 <= u <= x1 then Painted(old(At(u, v)), FragmentAt(t, u, v)) else old(At(u, v))
      ensures tried == if x0 <= x1 then x1 - x0 + 1 else 0
    {
      var x := x0;
      tried := 0;
      while x <= x1
        invariant x0 <= x && (x <= x1 + 1 || x == x0) && tried == x - x0
        invariant forall u, v {:trigger At(u, v)} :: OnCanvas(u, v) ==>
          At(u, v) == if v == y && x0 <= u < x then Painted(old(At(u, v)), FragmentAt(t, u, v)) else old(At(u, v))
      {
        Sample(t, x, y);
        x := x + 1;
        tried := tried + 1;
      }
    }

    /** Try one triangle on every pixel of its box. */
    method DrawTriangle(t: Triangle) returns (tried: nat)
      requires Valid() && Faces(t)
      modifies pixels, depth
      ensures forall u, v {:trigger At(u, v)} :: OnCanvas(u, v) ==> At(u, v) == Drawn(old(At(u, v)), t, u, v)
      ensures tried == SamplesOf(t)
    {
      var box := BoxOf(t);
      var y := box.y0;
      tried := 0;
      var width := if box.x0 <= box.x1 then box.x1 - box.x0 + 1 else 0;
      while y <= box.y1
        invariant box.y0 <= y && (y <= box.y1 + 1 || y == box.y0) && tried == width * (y - box.y0)
        invariant forall u, v {:trigger At(u, v)} :: OnCanvas(u, v) ==>
          At(u, v) == if box.Has(u, v) && v < y then Painted(old(At(u, v)), FragmentAt(t, u, v)) else old(At(u, v))
      {
        var more := DrawRow(t, y, box.x0, box.x1);
        OneMoreRow(width, y - box.y0);
        y := y + 1;
        tried := tried + more;
      }
    }

    /** Draw the triangles in order. */
    method DrawAll(triangles: seq<Triangle>) returns (tried: nat)
      requires Valid() && forall i :: 0 <= i < |triangles| ==> Faces(triangles[i])
      requires forall u, v {:trigger At(u, v)} :: OnCanvas(u, v) ==> At(u, v) == BACKGROUND
      modifies pixels, depth
      ensures forall u, v {:trigger At(u, v)} :: OnCanvas(u, v) ==> At(u, v) == PixelAfter(triangles, u, v)
      ensures tried == Total(SamplesOf, triangles)
    {
      tried := 0;
      var i := 0;
      while i < |triangles|
        invariant 0 <= i <= |triangles| && tried == Total(SamplesOf, triangles[..i])
        invariant forall u, v {:trigger At(u, v)} :: OnCanvas(u, v) ==> At(u, v) == PixelAfter(triangles[..i], u, v)
      {
        var more := DrawTriangle(triangles[i]);
        assert triangles[..i + 1][..i] == triangles[..i];
        tried := tried + more;
        i := i + 1;
      }
      assert triangles[..i] == triangles;
    }
  }

  lemma OneMoreRow(width: nat, rows: int)
    ensures width * (rows + 1) == width * rows + width
  {
  }

  /** The weights, depth and colour of one triangle at one pixel. */
  method Probe(t: Triangle, x: int, y: int) returns (f: Fragment)
    requires Faces(t)
    ensures f == FragmentAt(t, x, y)
  {
    var w := WeightsAt(t, x as real + 0.5, y as real + 0.5);
    if w.a < -EDGE || w.b < -EDGE || w.c < -EDGE { return Miss; }
    f := Shown(t, w);
  }

  // ----- Gathering the triangles -----

  /** One material's mesh: projected vertices and a triangle list. */
  datatype Group = Group(vertices: seq<Vertex>, indices: seq<nat>)
  {
    predicate Valid() {
      |indices| % 3 == 0 && forall i :: 0 <= i < |indices| ==> indices[i] < |vertices|
    }

    function TriangleAt(i: nat): Triangle
      requires Valid() && 3 * i + 2 < |indices|
    {
      Triangle(vertices[indices[3 * i]], vertices[indices[3 * i + 1]], vertices[indices[3 * i + 2]])
    }

    function Triangles(): seq<Triangle>
      requires Valid()
    {
      seq(|indices| / 3, i requires 0 <= i < |indices| / 3 => TriangleAt(i))
    }
  }

  function AllTriangles(groups: seq<Group>): seq<Triangle>
    requires forall i :: 0 <= i < |groups| ==> groups[i].Valid()
  {
    if groups == [] then []
    else AllTriangles(groups[..|groups| - 1]) + groups[|groups| - 1].Triangles()
  }

  function SamplesOf(t: Triangle): nat {
    BoxOf(t).Samples()
  }

  /** The triangles that `faces` admits, in order. */
  function Kept(faces: Triangle -> bool, triangles: seq<Triangle>): seq<Triangle> {
    if triangles == [] then []
    else
      var last := triangles[|triangles| - 1];
      Kept(faces, triangles[..|triangles| - 1]) + if faces(last) then [last] else []
  }

  function Total(cost: Triangle -> nat, triangles: seq<Triangle>): nat {
    if triangles == [] then 0 else Total(cost, triangles[..|triangles| - 1]) + cost(triangles[|triangles| - 1])
  }

  lemma {:induction false} KeptExtends(faces: Triangle -> bool, cost: Triangle -> nat, triangles: seq<Triangle>, t: Triangle)
    ensures Kept(faces, triangles + [t]) == Kept(faces, triangles) + if faces(t) then [t] else []
    ensures Total(cost, triangles + [t]) == Total(cost, triangles) + cost(t)
  {
    assert (triangles + [t])[..|triangles|] == triangles;
  }

  lemma {:induction false} KeptOnlyGrow(
    faces: Triangle -> bool, cost: Triangle -> nat, triangles: seq<Triangle>, more: seq<Triangle>)
    ensures Total(cost, Kept(faces, triangles)) <= Total(cost, Kept(faces, triangles + more))
    decreases |more|
  {
    if more == [] {
      assert triangles + more == triangles;
    } else {
      var init, last := more[..|more| - 1], more[|more| - 1];
      assert triangles + more == (triangles + init) + [last];
      KeptOnlyGrow(faces, cost, triangles, init);
      KeptExtends(faces, cost, triangles + init, last);
      KeptExtends(faces, cost, Kept(faces, triangles + init), last);
      assert Kept(faces, triangles + init) + [] == Kept(faces, triangles + init);
    }
  }

  lemma {:induction false} KeptAreAdmitted(faces: Triangle -> bool, triangles: seq<Triangle>)
    ensures forall i :: 0 <= i < |Kept(faces, triangles)| ==> faces(Kept(faces, triangles)[i])
  {
    if triangles != [] {
      KeptAreAdmitted(faces, triangles[..|triangles| - 1]);
    }
  }

  lemma {:induction false} PrefixCostsLess(
    faces: Triangle -> bool, cost: Triangle -> nat, before: seq<Triangle>, triangles: seq<Triangle>, n: nat)
    requires n <= |triangles|
    ensures Total(cost, Kept(faces, before + triangles[..n])) <= Total(cost, Kept(faces, before + triangles))
  {
    assert before + triangles == (before + triangles[..n]) + triangles[n..];
    KeptOnlyGrow(faces, cost, before + triangles[..n], triangles[n..]);
  }

  /** Keep the triangles of one mesh that face the viewer, as long as their samples fit the budget. */
  method Gather(faces: Triangle -> bool, cost: Triangle -> nat, triangles: seq<Triangle>,
                ghost before: seq<Triangle>, kept0: seq<Triangle>, samples0: nat)
    returns (kept: seq<Triangle>, samples: nat)
    requires kept0 == Kept(faces, before) && samples0 == Total(cost, kept0) <= RASTER_BUDGET
    ensures RASTER_BUDGET < samples ==> RASTER_BUDGET < Total(cost, Kept(faces, before + triangles))
    ensures samples <= RASTER_BUDGET ==> kept == Kept(faces, before + triangles) && samples == Total(cost, kept)
  {
    kept, samples := kept0, samples0;
    var i := 0;
    assert before + triangles[..0] == before;
    while i < |triangles|
      invariant 0 <= i <= |triangles|
      invariant kept == Kept(faces, before + triangles[..i]) && samples == Total(cost, kept) <= RASTER_BUDGET
    {
      var t := triangles[i];
      assert before + triangles[..i + 1] == (before + triangles[..i]) + [t];
      KeptExtends(faces, cost, before + triangles[..i], t);
      KeptExtends(faces, cost, kept, t);
      i := i + 1;
      if faces(t) {
        samples := samples + cost(t);
        kept := kept + [t];
        if samples > RASTER_BUDGET {
          PrefixCostsLess(faces, cost, before, triangles, i);
          return;
        }
      } else {
        assert kept + [] == kept;
      }
    }
    assert triangles[..i] == triangles;
  }

  lemma {:induction false} GroupsOnlyGrow(faces: Triangle -> bool, cost: Triangle -> nat, groups: seq<Group>, n: nat)
    requires n <= |groups| && forall i :: 0 <= i < |groups| ==> groups[i].Valid()
    ensures Total(cost, Kept(faces, AllTriangles(groups[..n]))) <= Total(cost, Kept(faces, AllTriangles(groups)))
    decreases |groups|
  {
    if n < |groups| {
      var init, last := groups[..|groups| - 1], groups[|groups| - 1];
      assert init[..n] == groups[..n];
      GroupsOnlyGrow(faces, cost, init, n);
      KeptOnlyGrow(faces, cost, AllTriangles(init), last.Triangles());
    } else {
      assert groups[..n] == groups;
    }
  }

  method GatherAll(faces: Triangle -> bool, cost: Triangle -> nat, groups: seq<Group>)
    returns (kept: seq<Triangle>, samples: nat)
    requires forall i :: 0 <= i < |groups| ==> groups[i].Valid()
    ensures samples <= RASTER_BUDGET <==> Total(cost, Kept(faces, AllTriangles(groups))) <= RASTER_BUDGET
    ensures samples <= RASTER_BUDGET ==> kept == Kept(faces, AllTriangles(groups)) && samples == Total(cost, kept)
  {
    kept, samples := [], 0;
    var i := 0;
    while i < |groups|
      invariant 0 <= i <= |groups|
      invariant kept == Kept(faces, AllTriangles(groups[..i])) && samples == Total(cost, kept) <= RASTER_BUDGET
    {
      assert groups[..i + 1][..i] == groups[..i];
      kept, samples := Gather(faces, cost, groups[i].Triangles(), AllTriangles(groups[..i]), kept, samples);
      if samples > RASTER_BUDGET {
        GroupsOnlyGrow(faces, cost, groups, i + 1);
        return;
      }
      i := i + 1;
    }
    assert groups[..i] == groups;
  }

  /** The triangles of the model that face the viewer, in drawing order. */
  function Facing(groups: seq<Group>): seq<Triangle>
    requires forall i :: 0 <= i < |groups| ==> groups[i].Valid()
  {
    Kept(Faces, AllTriangles(groups))
  }

  /** Render one view, or refuse when the boxes to be tried exceed the budget. */
  method Rasterize(groups: seq<Group>) returns (canvas: Option<Canvas>, tried: nat)
    requires forall i :: 0 <= i < |groups| ==> groups[i].Valid()
    ensures canvas.Some? <==> Total(SamplesOf, Facing(groups)) <= RASTER_BUDGET
    ensures canvas.Some? ==> canvas.value.Valid() && tried == Total(SamplesOf, Facing(groups)) <= RASTER_BUDGET
    ensures canvas.Some? ==> forall u, v {:trigger canvas.value.At(u, v)} :: OnCanvas(u, v) ==>
      canvas.value.At(u, v) == PixelAfter(Facing(groups), u, v)
  {
    var triangles, samples := GatherAll(Faces, SamplesOf, groups);
    tried := 0;
    if samples > RASTER_BUDGET { return None, 0; }
    KeptAreAdmitted(Faces, AllTriangles(groups));
    var sheet := new Canvas();
    tried := sheet.DrawAll(triangles);
    canvas := Some(sheet);
  }
}
