/** A reader that follows the views recovers every array, and the layout is that of section 4.4 of the
    glTF 2.0 specification. */
module GlbTheorems {
  import opened Optional
  import opened Glb

  // ----- Reading numbers -----

  function FromU16(b: seq<byte>): nat
    requires |b| == 2
  {
    (b[0] as int) + 256 * (b[1] as int)
  }

  function FromU32(b: seq<byte>): nat
    requires |b| == 4
  {
    (b[0] as int) + 256 * (b[1] as int) + 65536 * (b[2] as int) + 16777216 * (b[3] as int)
  }

  function FromWords(bytes: seq<byte>): (ns: seq<nat>)
    requires |bytes| % 4 == 0
    ensures 4 * |ns| == |bytes|
  {
    if bytes == [] then []
    else FromWords(bytes[..|bytes| - 4]) + [FromU32(bytes[|bytes| - 4..])]
  }

  function FromHalves(bytes: seq<byte>): (ns: seq<nat>)
    requires |bytes| % 2 == 0
    ensures 2 * |ns| == |bytes|
  {
    if bytes == [] then []
    else FromHalves(bytes[..|bytes| - 2]) + [FromU16(bytes[|bytes| - 2..])]
  }

  lemma U32RoundTrip(n: nat)
    requires n < WORD
    ensures FromU32(U32(n)) == n
  {
    var q, r, s := n / 256, n / 65536, n / 16777216;
    assert n == 256 * q + n % 256 && q / 256 == r && r / 256 == s;
    assert q == 256 * r + q % 256 && r == 256 * s + r % 256;
  }

  lemma U16RoundTrip(n: nat)
    ensures FromU16(U16(n)) == Low16(n)
  {
    var q := n / 256;
    assert n == 256 * q + n % 256 && q == 256 * (q / 256) + q % 256;
  }

  lemma {:induction false} WordsRoundTrip(ns: seq<nat>)
    requires forall i :: 0 <= i < |ns| ==> ns[i] < WORD
    ensures FromWords(Words(ns)) == ns
  {
    if ns != [] {
      var init, last := ns[..|ns| - 1], ns[|ns| - 1];
      WordsRoundTrip(init);
      U32RoundTrip(last);
      assert Words(ns)[..|Words(ns)| - 4] == Words(init);
      assert Words(ns)[|Words(ns)| - 4..] == U32(last);
      assert ns == init + [last];
    }
  }

  /** What 16 bits keep of a number. */
  function Low16(n: nat): nat {
    n % 65536
  }

  lemma Low16IsLosslessIff(n: nat)
    ensures Low16(n) == n <==> n < 65536
  {
  }

  function Narrowed(ns: seq<nat>): seq<nat> {
    seq(|ns|, i requires 0 <= i < |ns| => Low16(ns[i]))
  }

  lemma {:induction false} HalvesRoundTrip(ns: seq<nat>)
    ensures FromHalves(Halves(ns)) == Narrowed(ns)
  {
    if ns != [] {
      var init, last := ns[..|ns| - 1], ns[|ns| - 1];
      HalvesRoundTrip(init);
      U16RoundTrip(last);
      assert Halves(ns)[..|Halves(ns)| - 2] == Halves(init);
      assert Halves(ns)[|Halves(ns)| - 2..] == U16(last);
      assert Narrowed(ns) == Narrowed(init) + [Low16(last)];
    }
  }

  /** Narrowing to 16 bits is lossless exactly for indices below 65536. */
  lemma {:induction false} NarrowingIsLosslessIff(ns: seq<nat>)
    ensures FromHalves(Halves(ns)) == ns <==> forall i :: 0 <= i < |ns| ==> ns[i] < 65536
  {
    HalvesRoundTrip(ns);
    forall i | 0 <= i < |ns|
      ensures Narrowed(ns)[i] == ns[i] <==> ns[i] < 65536
    {
      Low16IsLosslessIff(ns[i]);
    }
    if forall i :: 0 <= i < |ns| ==> ns[i] < 65536 {
      assert Narrowed(ns) == ns;
    }
  }

  // ----- Layout of the binary chunk -----

  /** The views start at zero, each on a multiple of four right after the padding of the one before, and the
      last one's padding ends the chunk. */
  ghost predicate Tiles(views: seq<View>, length: nat) {
    && (forall i :: 0 <= i < |views| ==> views[i].byteOffset % 4 == 0)
    && (views == [] ==> length == 0)
    && (views != [] ==> views[0].byteOffset == 0)
    && (forall i :: 0 <= i < |views| - 1 ==> views[i + 1].byteOffset == views[i].byteOffset + PaddedLength(views[i].byteLength))
    && (views != [] ==> var last := views[|views| - 1]; last.byteOffset + PaddedLength(last.byteLength) == length)
  }

  lemma {:induction false} BinaryIsAligned(pieces: seq<Piece>)
    ensures |Binary(pieces)| % 4 == 0
  {
    if pieces != [] {
      BinaryIsAligned(pieces[..|pieces| - 1]);
    }
  }

  lemma BinaryStep(pieces: seq<Piece>, i: nat)
    requires i < |pieces|
    ensures Binary(pieces[..i + 1]) == Binary(pieces[..i]) + Padded(pieces[i].raw, 0)
  {
    assert pieces[..i + 1][..i] == pieces[..i];
  }

  lemma {:induction false} NextViewFollows(pieces: seq<Piece>, i: nat)
    requires i + 1 < |pieces|
    ensures ViewAt(pieces, i + 1).byteOffset == ViewAt(pieces, i).byteOffset + PaddedLength(ViewAt(pieces, i).byteLength)
  {
    BinaryStep(pieces, i);
  }

  lemma {:induction false} LastViewEnds(pieces: seq<Piece>)
    requires pieces != []
    ensures var last := ViewAt(pieces, |pieces| - 1);
      last.byteOffset + PaddedLength(last.byteLength) == |Binary(pieces)|
    ensures ViewAt(pieces, 0).byteOffset == 0
  {
    BinaryStep(pieces, |pieces| - 1);
    assert pieces[..|pieces|] == pieces && pieces[..0] == [];
  }

  /** The buffer views are aligned, in order, disjoint, and tile the binary chunk. */
  lemma {:induction false} ViewsTile(pieces: seq<Piece>)
    ensures Tiles(ViewsOf(pieces), |Binary(pieces)|)
  {
    var views := ViewsOf(pieces);
    forall i | 0 <= i < |views|
      ensures views[i].byteOffset % 4 == 0
    {
      BinaryIsAligned(pieces[..i]);
    }
    forall i | 0 <= i < |views| - 1
      ensures views[i + 1].byteOffset == views[i].byteOffset + PaddedLength(views[i].byteLength)
    {
      NextViewFollows(pieces, i);
    }
    if pieces != [] {
      LastViewEnds(pieces);
    }
  }

  /** Tiling views never overlap. */
  lemma {:induction false} TilesAreDisjoint(views: seq<View>, length: nat, i: nat, j: nat)
    requires Tiles(views, length) && i < j < |views|
    ensures views[i].byteOffset + views[i].byteLength <= views[j].byteOffset
    ensures views[j].byteOffset + views[j].byteLength <= length
    decreases |views| - i
  {
    if i + 1 < j {
      TilesAreDisjoint(views, length, i + 1, j);
    } else if j + 1 < |views| {
      TilesAreDisjoint(views, length, j, j + 1);
    }
  }

  lemma {:induction false} BinaryOfAPrefix(pieces: seq<Piece>, n: nat)
    requires n <= |pieces|
    ensures |Binary(pieces[..n])| <= |Binary(pieces)| && Binary(pieces)[..|Binary(pieces[..n])|] == Binary(pieces[..n])
    decreases |pieces|
  {
    if n < |pieces| {
      var init := pieces[..|pieces| - 1];
      BinaryOfAPrefix(init, n);
      assert init[..n] == pieces[..n];
    } else {
      assert pieces[..n] == pieces;
    }
  }

  /** Every view points at its own array. */
  lemma {:induction false} ViewHoldsItsArray(pieces: seq<Piece>, i: nat)
    requires i < |pieces|
    ensures var v := ViewAt(pieces, i);
      && v.byteOffset + v.byteLength <= |Binary(pieces)|
      && Binary(pieces)[v.byteOffset..v.byteOffset + v.byteLength] == pieces[i].raw
  {
    var v := ViewAt(pieces, i);
    var upTo, padded := Binary(pieces[..i + 1]), Padded(pieces[i].raw, 0);
    BinaryStep(pieces, i);
    BinaryOfAPrefix(pieces, i + 1);
    assert upTo[v.byteOffset..v.byteOffset + v.byteLength] == padded[..v.byteLength];
    assert Binary(pieces)[v.byteOffset..v.byteOffset + v.byteLength] == Binary(pieces)[..|upTo|][v.byteOffset..v.byteOffset + v.byteLength];
  }

  // ----- A reader -----

  /** The numbers of an array by its component type: floats and unsigned integers of four bytes, and of two. */
  function Values(componentType: nat, bytes: seq<byte>): Option<seq<nat>> {
    if componentType == 5123 then (if |bytes| % 2 == 0 then Some(FromHalves(bytes)) else None)
    else if componentType == 5126 || componentType == 5125 then (if |bytes| % 4 == 0 then Some(FromWords(bytes)) else None)
    else None
  }

  /** How many values an accessor of `count` elements has. */
  function Expected(shape: Shape, count: nat): nat {
    match shape case Vec3 => 3 * count case Scalar => count
  }

  /** The values of one accessor, through its view. */
  function ReadAccessor(m: Metadata, binary: seq<byte>, a: nat): Option<seq<nat>> {
    if |m.accessors| <= a || |m.views| <= m.accessors[a].bufferView then None
    else
      var accessor := m.accessors[a];
      var v := m.views[accessor.bufferView];
      if |binary| < v.byteOffset + v.byteLength then None
      else
        var values := Values(accessor.componentType, binary[v.byteOffset..v.byteOffset + v.byteLength]);
        if values.Some? && |values.value| == Expected(accessor.shape, accessor.count) then values else None
  }

  /** An array of vectors of floats, marked as vertex data. */
  predicate IsVertexArray(m: Metadata, a: nat) {
    && a < |m.accessors| && m.accessors[a].bufferView < |m.views|
    && m.accessors[a].componentType == 5126 && m.accessors[a].shape == Vec3
    && m.views[m.accessors[a].bufferView].target == 34962
  }

  /** An array of unsigned integers, marked as vertex indices. */
  predicate IsIndexArray(m: Metadata, a: nat) {
    && a < |m.accessors| && m.accessors[a].bufferView < |m.views|
    && (m.accessors[a].componentType == 5123 || m.accessors[a].componentType == 5125) && m.accessors[a].shape == Scalar
    && m.views[m.accessors[a].bufferView].target == 34963
  }

  /** One mesh with its material, if its arrays are of the right kinds. */
  function ReadPrimitive(m: Metadata, binary: seq<byte>, p: Primitive): Option<Geometry> {
    if |m.materials| <= p.material then None
    else if !IsVertexArray(m, p.position) || !IsVertexArray(m, p.normal) || !IsIndexArray(m, p.indices) then None
    else
      match (ReadAccessor(m, binary, p.position), ReadAccessor(m, binary, p.normal), ReadAccessor(m, binary, p.indices))
      case (Some(positions), Some(normals), Some(indices)) => Some(Geometry(m.materials[p.material], positions, normals, indices))
      case _ => None
  }

  function ReadPrimitives(m: Metadata, binary: seq<byte>, primitives: seq<Primitive>): Option<seq<Geometry>> {
    if primitives == [] then Some([])
    else
      var earlier := ReadPrimitives(m, binary, primitives[..|primitives| - 1]);
      var last := ReadPrimitive(m, binary, primitives[|primitives| - 1]);
      if earlier.Some? && last.Some? then Some(earlier.value + [last.value]) else None
  }

  predicate HeadIsRight(file: seq<byte>) {
    && 20 <= |file|
    && file[0..4] == [0x67, 0x6C, 0x54, 0x46] && FromU32(file[4..8]) == 2 && FromU32(file[8..12]) == |file|
    && file[16..20] == [0x4A, 0x53, 0x4F, 0x4E]
    && 28 + FromU32(file[12..16]) <= |file|
    && FromU32(file[12..16]) % 4 == 0
  }

  /** Whether what follows the JSON chunk is one binary chunk that ends the file. */
  predicate TailIsRight(file: seq<byte>, at: nat) {
    && at + 8 <= |file|
    && FromU32(file[at..at + 4]) == |file| - at - 8 && file[at + 4..at + 8] == [0x42, 0x49, 0x4E, 0x00]
    && (|file| - at - 8) % 4 == 0
  }

  function Read(decode: seq<byte> -> Option<Metadata>, file: seq<byte>): Option<seq<Geometry>> {
    if !HeadIsRight(file) then None
    else
      var at := 20 + FromU32(file[12..16]);
      if !TailIsRight(file, at) then None
      else
        var m := decode(file[20..at]);
        var binary := file[at + 8..];
        if m.Some? && m.value.byteLength == |binary| then ReadPrimitives(m.value, binary, m.value.primitives) else None
  }

  // ----- The reader recovers what was written -----

  lemma HeadFields(total: nat, chunk: seq<byte>, rest: seq<byte>)
    ensures var file := HeadOf(total, chunk) + rest;
      && |file| == 20 + |chunk| + |rest|
      && file[0..4] == U32(MAGIC) && file[4..8] == U32(2) && file[8..12] == U32(total)
      && file[12..16] == U32(|chunk|) && file[16..20] == U32(JSON_CHUNK)
      && file[20..20 + |chunk|] == chunk && file[20 + |chunk|..] == rest
  {
  }

  lemma TailFields(binary: seq<byte>)
    ensures var tail := TailOf(binary);
      && |tail| == 8 + |binary|
      && tail[0..4] == U32(|binary|) && tail[4..8] == U32(BIN_CHUNK) && tail[8..] == binary
  {
  }

  lemma TailInFile(file: seq<byte>, at: nat, tail: seq<byte>, i: nat, j: nat)
    requires at <= |file| && file[at..] == tail && i <= j <= |tail|
    ensures file[at + i..at + j] == tail[i..j]
  {
    assert |file| == at + |tail|;
    assert forall n :: 0 <= n < |tail| ==> tail[n] == file[at + n];
  }

  /** A file that holds this JSON and this binary chunk with right lengths. */
  ghost predicate Holds(file: seq<byte>, json: seq<byte>, binary: seq<byte>) {
    var at := 20 + |json|;
    && HeadIsRight(file) && FromU32(file[12..16]) == |json| && TailIsRight(file, at)
    && file[20..at] == json && file[at + 8..] == binary
  }

  lemma NumberReadsBack(file: seq<byte>, at: nat, n: nat)
    requires at + 4 <= |file| && file[at..at + 4] == U32(n) && n < WORD
    ensures FromU32(file[at..at + 4]) == n
  {
    U32RoundTrip(n);
  }

  lemma HeadReadsBack(file: seq<byte>, total: nat, chunk: seq<byte>, rest: seq<byte>)
    requires file == HeadOf(total, chunk) + rest && total == |file| < WORD && 8 <= |rest| && |chunk| % 4 == 0
    ensures HeadIsRight(file) && FromU32(file[12..16]) == |chunk|
    ensures file[20..20 + |chunk|] == chunk && file[20 + |chunk|..] == rest
  {
    HeadFields(total, chunk, rest);
    NumberReadsBack(file, 0, MAGIC);
    NumberReadsBack(file, 4, 2);
    NumberReadsBack(file, 8, total);
    NumberReadsBack(file, 12, |chunk|);
    NumberReadsBack(file, 16, JSON_CHUNK);
  }

  lemma TailReadsBack(file: seq<byte>, at: nat, binary: seq<byte>)
    requires at <= |file| && file[at..] == TailOf(binary) && |file| < WORD && |binary| % 4 == 0
    ensures TailIsRight(file, at) && file[at + 8..] == binary
  {
    var tail := TailOf(binary);
    TailFields(binary);
    TailInFile(file, at, tail, 0, 4);
    TailInFile(file, at, tail, 4, 8);
    TailInFile(file, at, tail, 8, |tail|);
    NumberReadsBack(file, at, |binary|);
    NumberReadsBack(file, at + 4, BIN_CHUNK);
  }

  /** The lengths in the file agree with the file: header, JSON chunk and binary chunk. */
  lemma FileIsWellFormed(json: seq<byte>, binary: seq<byte>)
    requires |FileOf(json, binary)| < WORD && |binary| % 4 == 0
    ensures Holds(FileOf(json, binary), Padded(json, 0x20), binary)
  {
    var chunk := Padded(json, 0x20);
    var file := FileOf(json, binary);
    HeadReadsBack(file, 28 + |chunk| + |binary|, chunk, TailOf(binary));
    TailReadsBack(file, 20 + |chunk|, binary);
  }

  lemma AccessorReadsItsView(m: Metadata, binary: seq<byte>, a: nat, v: View, piece: Piece, values: seq<nat>)
    requires a < |m.accessors| && m.accessors[a] == Accessor(a, piece.component.Code(), piece.shape, piece.count)
    requires a < |m.views| && m.views[a] == v && v.byteOffset + v.byteLength <= |binary|
    requires binary[v.byteOffset..v.byteOffset + v.byteLength] == piece.raw
    requires Values(piece.component.Code(), piece.raw) == Some(values) && |values| == Expected(piece.shape, piece.count)
    ensures ReadAccessor(m, binary, a) == Some(values)
  {
  }

  ghost predicate Describes(m: Metadata, pieces: seq<Piece>) {
    m.views == ViewsOf(pieces) && m.accessors == AccessorsOf(pieces)
  }

  /** The accessor of a piece reads the values that were appended as that piece. */
  lemma {:induction false} AccessorReadsItsPiece(m: Metadata, pieces: seq<Piece>, i: nat, piece: Piece, values: seq<nat>)
    requires Describes(m, pieces) && i < |pieces| && pieces[i] == piece
    requires Values(piece.component.Code(), piece.raw) == Some(values) && |values| == Expected(piece.shape, piece.count)
    ensures ReadAccessor(m, Binary(pieces), i) == Some(values)
  {
    ViewHoldsItsArray(pieces, i);
    AccessorReadsItsView(m, Binary(pieces), i, ViewAt(pieces, i), piece, values);
  }

  lemma {:induction false} FloatsReadBack(values: seq<nat>, bytes: seq<byte>)
    requires forall n :: 0 <= n < |values| ==> values[n] < WORD
    requires bytes == Words(values)
    ensures Values(5126, bytes) == Some(values)
  {
    FourTimes(|values|, |bytes|);
    WordsRoundTrip(values);
    WordsAreValues(5126, bytes, values);
  }

  lemma {:induction false} VectorReadsBack(m: Metadata, pieces: seq<Piece>, i: nat, values: seq<nat>, count: nat)
    requires Describes(m, pieces) && i < |pieces| && 3 * count == |values|
    requires pieces[i] == Piece(Words(values), Float, Vec3, count, ARRAY_BUFFER)
    requires forall n :: 0 <= n < |values| ==> values[n] < WORD
    ensures ReadAccessor(m, Binary(pieces), i) == Some(values)
  {
    FloatsReadBack(values, pieces[i].raw);
    AccessorReadsItsPiece(m, pieces, i, pieces[i], values);
  }

  lemma FourTimes(n: nat, m: nat)
    requires m == 4 * n
    ensures m % 4 == 0
  {
  }

  lemma {:induction false} WordsAreValues(componentType: nat, bytes: seq<byte>, values: seq<nat>)
    requires (componentType == 5125 || componentType == 5126) && |bytes| % 4 == 0 && FromWords(bytes) == values
    ensures Values(componentType, bytes) == Some(values)
  {
  }

  lemma TwoTimes(n: nat, m: nat)
    requires m == 2 * n
    ensures m % 2 == 0
  {
  }

  lemma {:induction false} HalvesAreValues(bytes: seq<byte>, values: seq<nat>)
    requires |bytes| % 2 == 0 && FromHalves(bytes) == values
    ensures Values(5123, bytes) == Some(values)
  {
  }

  /** The index array is read back whole, whichever width was chosen. */
  lemma IndicesReadBack(g: Geometry)
    requires g.Valid()
    ensures Values(g.IndexComponent().Code(), g.IndexBytes()) == Some(g.indices)
  {
    var bytes := g.IndexBytes();
    if g.Count() > 65535 {
      FourTimes(|g.indices|, |bytes|);
      WordsRoundTrip(g.indices);
      WordsAreValues(5125, bytes, g.indices);
    } else {
      TwoTimes(|g.indices|, |bytes|);
      NarrowingIsLosslessIff(g.indices);
      HalvesAreValues(bytes, g.indices);
    }
  }

  /** The three pieces of the `i`th material. */
  ghost predicate PiecesAt(pieces: seq<Piece>, i: nat, g: Geometry) {
    && 3 * i + 2 < |pieces|
    && pieces[3 * i] == PiecesOf(g)[0] && pieces[3 * i + 1] == PiecesOf(g)[1] && pieces[3 * i + 2] == PiecesOf(g)[2]
  }

  lemma PiecesStay(pieces: seq<Piece>, more: seq<Piece>, i: nat, g: Geometry)
    requires PiecesAt(pieces, i, g)
    ensures PiecesAt(pieces + more, i, g)
  {
  }

  lemma LastPieces(pieces: seq<Piece>, i: nat, g: Geometry)
    requires |pieces| == 3 * i
    ensures PiecesAt(pieces + PiecesOf(g), i, g)
  {
  }

  lemma {:induction false} PieceOfAGroup(groups: seq<Geometry>, i: nat)
    requires i < |groups|
    ensures PiecesAt(AllPieces(groups), i, groups[i])
    decreases |groups|
  {
    var init, last := groups[..|groups| - 1], groups[|groups| - 1];
    PiecesGrow(init, |init|);
    if i < |init| {
      PieceOfAGroup(init, i);
      PiecesStay(AllPieces(init), PiecesOf(last), i, groups[i]);
    } else {
      LastPieces(AllPieces(init), i, last);
    }
  }

  lemma {:induction false} IndexArrayReadsBack(m: Metadata, pieces: seq<Piece>, i: nat, g: Geometry)
    requires Describes(m, pieces) && g.Valid() && i < |pieces|
    requires pieces[i] == Piece(g.IndexBytes(), g.IndexComponent(), Scalar, |g.indices|, ELEMENT_BUFFER)
    ensures ReadAccessor(m, Binary(pieces), i) == Some(g.indices)
  {
    IndicesReadBack(g);
    AccessorReadsItsPiece(m, pieces, i, pieces[i], g.indices);
  }

  lemma CountsMatch(g: Geometry)
    requires g.Valid()
    ensures 3 * g.Count() == |g.positions| && 3 * (|g.normals| / 3) == |g.normals|
  {
  }

  lemma PrimitiveFromArrays(m: Metadata, binary: seq<byte>, p: Primitive, g: Geometry)
    requires p.material < |m.materials| && m.materials[p.material] == g.material
    requires IsVertexArray(m, p.position) && IsVertexArray(m, p.normal) && IsIndexArray(m, p.indices)
    requires ReadAccessor(m, binary, p.position) == Some(g.positions)
    requires ReadAccessor(m, binary, p.normal) == Some(g.normals)
    requires ReadAccessor(m, binary, p.indices) == Some(g.indices)
    ensures ReadPrimitive(m, binary, p) == Some(g)
  {
  }

  lemma KindsAreRight(m: Metadata, pieces: seq<Piece>, i: nat, g: Geometry)
    requires Describes(m, pieces) && PiecesAt(pieces, i, g)
    ensures IsVertexArray(m, 3 * i) && IsVertexArray(m, 3 * i + 1) && IsIndexArray(m, 3 * i + 2)
  {
  }

  lemma {:induction false} GroupReadsBack(m: Metadata, pieces: seq<Piece>, i: nat, g: Geometry)
    requires Describes(m, pieces) && PiecesAt(pieces, i, g) && g.Valid()
    requires i < |m.materials| && m.materials[i] == g.material
    ensures ReadPrimitive(m, Binary(pieces), PrimitiveOf(i)) == Some(g)
  {
    var n := 3 * i;
    CountsMatch(g);
    KindsAreRight(m, pieces, i, g);
    VectorReadsBack(m, pieces, n, g.positions, g.Count());
    VectorReadsBack(m, pieces, n + 1, g.normals, |g.normals| / 3);
    IndexArrayReadsBack(m, pieces, n + 2, g);
    PrimitiveFromArrays(m, Binary(pieces), PrimitiveOf(i), g);
  }

  lemma {:induction false} OneMorePrimitive(
    m: Metadata, binary: seq<byte>, primitives: seq<Primitive>, p: Primitive, earlier: seq<Geometry>, g: Geometry)
    requires ReadPrimitives(m, binary, primitives) == Some(earlier) && ReadPrimitive(m, binary, p) == Some(g)
    ensures ReadPrimitives(m, binary, primitives + [p]) == Some(earlier + [g])
  {
    assert (primitives + [p])[..|primitives|] == primitives;
  }

  lemma {:induction false} PrimitivesReadBack(m: Metadata, groups: seq<Geometry>, n: nat)
    requires n <= |groups| && forall i :: 0 <= i < |groups| ==> groups[i].Valid()
    requires Describes(m, AllPieces(groups)) && m.materials == MaterialsOf(groups)
    ensures ReadPrimitives(m, Binary(AllPieces(groups)), PrimitivesOf(n)) == Some(groups[..n])
    decreases n
  {
    if 0 < n {
      var pieces, earlier, g := AllPieces(groups), groups[..n - 1], groups[n - 1];
      assert groups[..n] == earlier + [g];
      PrimitivesReadBack(m, groups, n - 1);
      PieceOfAGroup(groups, n - 1);
      GroupReadsBack(m, pieces, n - 1, g);
      OneMorePrimitive(m, Binary(pieces), PrimitivesOf(n - 1), PrimitiveOf(n - 1), earlier, g);
    }
  }

  lemma {:induction false} ReadingFollowsTheMetadata(
    file: seq<byte>, json: seq<byte>, binary: seq<byte>, decode: seq<byte> -> Option<Metadata>, m: Metadata)
    requires Holds(file, json, binary) && decode(json) == Some(m) && m.byteLength == |binary|
    ensures Read(decode, file) == ReadPrimitives(m, binary, m.primitives)
  {
  }

  /** A reader that follows the chunks, views and accessors recovers every position, normal and index
      array of every material, as long as it reads the padded JSON back. */
  lemma {:induction false} FileReadsBack(
    groups: seq<Geometry>, encode: Metadata -> seq<byte>, decode: seq<byte> -> Option<Metadata>)
    requires forall i :: 0 <= i < |groups| ==> groups[i].Valid()
    requires decode(Padded(encode(MetadataOf(groups)), 0x20)) == Some(MetadataOf(groups))
    requires SizeOf(groups, encode) <= MAX_BYTES
    ensures Read(decode, FileOf(encode(MetadataOf(groups)), Binary(AllPieces(groups)))) == Some(groups)
  {
    var m, binary := MetadataOf(groups), Binary(AllPieces(groups));
    var json := encode(m);
    BinaryIsAligned(AllPieces(groups));
    FileIsWellFormed(json, binary);
    ReadingFollowsTheMetadata(FileOf(json, binary), Padded(json, 0x20), binary, decode, m);
    PrimitivesReadBack(m, groups, |groups|);
    assert groups[..|groups|] == groups;
  }
}
