/** Writing a binary glTF: a JSON chunk that describes the buffer views of one binary chunk. */
module Glb {
  import opened Optional

  type byte = b: int | 0 <= b < 256

  const MAX_BYTES := 750000
  const WORD := 0x1_0000_0000

  // ----- Little-endian numbers -----

  function U16(n: nat): seq<byte> {
    [n % 256, n / 256 % 256]
  }

  function U32(n: nat): seq<byte> {
    [n % 256, n / 256 % 256, n / 65536 % 256, n / 16777216 % 256]
  }

  /** An array of 32-bit words; a float is its bit pattern. */
  function Words(ns: seq<nat>): (bytes: seq<byte>)
    ensures |bytes| == 4 * |ns|
  {
    if ns == [] then [] else Words(ns[..|ns| - 1]) + U32(ns[|ns| - 1])
  }

  function Halves(ns: seq<nat>): (bytes: seq<byte>)
    ensures |bytes| == 2 * |ns|
  {
    if ns == [] then [] else Halves(ns[..|ns| - 1]) + U16(ns[|ns| - 1])
  }

  // ----- The document -----

  datatype Component = Float | Short | Int
  {
    function Code(): nat {
      match this case Float => 5126 case Short => 5123 case Int => 5125
    }
  }

  datatype Shape = Vec3 | Scalar

  datatype View = View(byteOffset: nat, byteLength: nat, target: nat)

  datatype Accessor = Accessor(bufferView: nat, componentType: nat, shape: Shape, count: nat)

  datatype Primitive = Primitive(position: nat, normal: nat, indices: nat, material: nat)

  datatype Material = Material(name: string, color: (real, real, real), metalness: real, roughness: real)

  /** The parts of the glTF JSON that describe the materials and the binary chunk. */
  datatype Metadata = Metadata(
    materials: seq<Material>, views: seq<View>, accessors: seq<Accessor>, primitives: seq<Primitive>, byteLength: nat)

  /** One material's geometry: three words for each position and each normal, and a triangle list. */
  datatype Geometry = Geometry(material: Material, positions: seq<nat>, normals: seq<nat>, indices: seq<nat>)
  {
    function Count(): nat {
      |positions| / 3
    }

    predicate Valid() {
      && |positions| % 3 == 0 && |normals| == |positions| && Count() < WORD
      && (forall i :: 0 <= i < |positions| ==> positions[i] < WORD)
      && (forall i :: 0 <= i < |normals| ==> normals[i] < WORD)
      && (forall i :: 0 <= i < |indices| ==> indices[i] < Count())
    }

    function IndexComponent(): Component {
      if Count() > 65535 then Int else Short
    }

    function IndexBytes(): seq<byte> {
      if Count() > 65535 then Words(indices) else Halves(indices)
    }
  }

  // ----- The binary chunk -----

  function PaddedLength(n: nat): (m: nat)
    ensures n <= m < n + 4 && m % 4 == 0
  {
    (n + 3) / 4 * 4
  }

  function Filler(n: nat, fill: byte): (bytes: seq<byte>)
    ensures |bytes| == n
  {
    seq(n, _ => fill)
  }

  function Padded(raw: seq<byte>, fill: byte): (bytes: seq<byte>)
    ensures |bytes| == PaddedLength(|raw|) && bytes[..|raw|] == raw
  {
    raw + Filler(PaddedLength(|raw|) - |raw|, fill)
  }

  /** One array as it is appended: its bytes and how they are to be read. */
  datatype Piece = Piece(raw: seq<byte>, component: Component, shape: Shape, count: nat, target: nat)

  const ARRAY_BUFFER := 34962
  const ELEMENT_BUFFER := 34963

  function PiecesOf(g: Geometry): seq<Piece> {
    [Piece(Words(g.positions), Float, Vec3, g.Count(), ARRAY_BUFFER),
     Piece(Words(g.normals), Float, Vec3, |g.normals| / 3, ARRAY_BUFFER),
     Piece(g.IndexBytes(), g.IndexComponent(), Scalar, |g.indices|, ELEMENT_BUFFER)]
  }

  function AllPieces(groups: seq<Geometry>): seq<Piece> {
    if groups == [] then [] else AllPieces(groups[..|groups| - 1]) + PiecesOf(groups[|groups| - 1])
  }

  function Binary(pieces: seq<Piece>): seq<byte> {
    if pieces == [] then [] else Binary(pieces[..|pieces| - 1]) + Padded(pieces[|pieces| - 1].raw, 0)
  }

  function ViewAt(pieces: seq<Piece>, i: nat): View
    requires i < |pieces|
  {
    View(|Binary(pieces[..i])|, |pieces[i].raw|, pieces[i].target)
  }

  function AccessorAt(pieces: seq<Piece>, i: nat): Accessor
    requires i < |pieces|
  {
    Accessor(i, pieces[i].component.Code(), pieces[i].shape, pieces[i].count)
  }

  function ViewsOf(pieces: seq<Piece>): seq<View> {
    seq(|pieces|, i requires 0 <= i < |pieces| => ViewAt(pieces, i))
  }

  function AccessorsOf(pieces: seq<Piece>): seq<Accessor> {
    seq(|pieces|, i requires 0 <= i < |pieces| => AccessorAt(pieces, i))
  }

  /** The primitive of the `i`th material. */
  function PrimitiveOf(i: nat): Primitive {
    Primitive(3 * i, 3 * i + 1, 3 * i + 2, i)
  }

  function PrimitivesOf(n: nat): seq<Primitive> {
    if n == 0 then [] else PrimitivesOf(n - 1) + [PrimitiveOf(n - 1)]
  }

  function MaterialsOf(groups: seq<Geometry>): seq<Material> {
    seq(|groups|, i requires 0 <= i < |groups| => groups[i].material)
  }

  function MetadataOf(groups: seq<Geometry>): Metadata {
    var pieces := AllPieces(groups);
    Metadata(MaterialsOf(groups), ViewsOf(pieces), AccessorsOf(pieces), PrimitivesOf(|groups|), |Binary(pieces)|)
  }

  // ----- The file -----

  const MAGIC := 0x46546c67
  const JSON_CHUNK := 0x4e4f534a
  const BIN_CHUNK := 0x004e4942

  function HeadOf(total: nat, chunk: seq<byte>): seq<byte> {
    U32(MAGIC) + U32(2) + U32(total) + U32(|chunk|) + U32(JSON_CHUNK) + chunk
  }

  function TailOf(binary: seq<byte>): seq<byte> {
    U32(|binary|) + U32(BIN_CHUNK) + binary
  }

  function FileOf(json: seq<byte>, binary: seq<byte>): seq<byte> {
    var chunk := Padded(json, 0x20);
    HeadOf(28 + |chunk| + |binary|, chunk) + TailOf(binary)
  }

  function SizeOf(groups: seq<Geometry>, encode: Metadata -> seq<byte>): nat {
    28 + PaddedLength(|encode(MetadataOf(groups))|) + |Binary(AllPieces(groups))|
  }

  // ----- Appending -----

  class Writer {
    var offset: nat
    var chunks: seq<seq<byte>>
    var views: seq<View>
    var accessors: seq<Accessor>
    ghost var pieces: seq<Piece>

    /** The lists describe the pieces appended so far. */
    ghost predicate Valid()
      reads this
    {
      && offset == |Binary(pieces)|
      && Concat(chunks) == Binary(pieces)
      && views == ViewsOf(pieces) && accessors == AccessorsOf(pieces)
    }

    constructor ()
      ensures Valid() && pieces == []
    {
      offset, chunks, views, accessors, pieces := 0, [], [], [], [];
    }

    /** Append one array, padded to four bytes; fails once the payload budget is exceeded. */
    method Append(raw: seq<byte>, component: Component, shape: Shape, count: nat, target: nat) returns (index: Option<nat>)
      requires Valid()
      modifies this
      ensures var longer := old(pieces) + [Piece(raw, component, shape, count, target)];
        && (index.Some? <==> |Binary(longer)| <= MAX_BYTES)
        && (index.Some? ==> Valid() && pieces == longer && index.value == |old(pieces)|)
    {
      var padded := Padded(raw, 0);
      var piece := Piece(raw, component, shape, count, target);
      var bufferView := |views|;
      views := views + [View(offset, |raw|, target)];
      offset := offset + |padded|;
      PieceExtends(pieces, piece);
      if offset > MAX_BYTES { return None; }
      ChunkExtends(chunks, padded);
      chunks := chunks + [padded];
      accessors := accessors + [Accessor(bufferView, component.Code(), shape, count)];
      pieces := pieces + [piece];
      index := Some(|accessors| - 1);
    }
  }

  function Concat(chunks: seq<seq<byte>>): seq<byte> {
    if chunks == [] then [] else Concat(chunks[..|chunks| - 1]) + chunks[|chunks| - 1]
  }

  lemma {:induction false} ChunkExtends(chunks: seq<seq<byte>>, chunk: seq<byte>)
    ensures Concat(chunks + [chunk]) == Concat(chunks) + chunk
  {
    assert (chunks + [chunk])[..|chunks|] == chunks;
  }

  lemma {:induction false} PieceExtends(pieces: seq<Piece>, piece: Piece)
    ensures Binary(pieces + [piece]) == Binary(pieces) + Padded(piece.raw, 0)
    ensures ViewsOf(pieces + [piece]) == ViewsOf(pieces) + [View(|Binary(pieces)|, |piece.raw|, piece.target)]
    ensures AccessorsOf(pieces + [piece]) == AccessorsOf(pieces) + [Accessor(|pieces|, piece.component.Code(), piece.shape, piece.count)]
  {
    assert (pieces + [piece])[..|pieces|] == pieces;
    ViewsExtend(pieces, piece);
    AccessorsExtend(pieces, piece);
  }

  lemma {:induction false} ViewsExtend(pieces: seq<Piece>, piece: Piece)
    ensures ViewsOf(pieces + [piece]) == ViewsOf(pieces) + [View(|Binary(pieces)|, |piece.raw|, piece.target)]
  {
    var longer := pieces + [piece];
    forall i | 0 <= i < |longer|
      ensures ViewsOf(longer)[i] == (ViewsOf(pieces) + [View(|Binary(pieces)|, |piece.raw|, piece.target)])[i]
    {
      assert longer[..i] == pieces[..i];
      assert pieces[..|pieces|] == pieces;
    }
  }

  lemma AccessorsExtend(pieces: seq<Piece>, piece: Piece)
    ensures AccessorsOf(pieces + [piece]) == AccessorsOf(pieces) + [Accessor(|pieces|, piece.component.Code(), piece.shape, piece.count)]
  {
  }

  // ----- Compiling -----

  lemma OneMoreGroup(before: seq<Geometry>, g: Geometry)
    ensures AllPieces(before + [g]) == AllPieces(before) + PiecesOf(g) && |AllPieces(before)| == 3 * |before|
  {
    PiecesGrow(before, |before|);
    assert (before + [g])[..|before|] == before;
  }

  /** Append the three arrays of one material. */
  method AppendGroup(writer: Writer, ghost before: seq<Geometry>, g: Geometry) returns (primitive: Option<(nat, nat, nat)>)
    requires writer.Valid() && writer.pieces == AllPieces(before)
    modifies writer
    ensures primitive.Some? <==> Fits(before + [g])
    ensures primitive.Some? ==> writer.Valid() && writer.pieces == AllPieces(before + [g])
    ensures primitive.Some? ==> primitive.value == (3 * |before|, 3 * |before| + 1, 3 * |before| + 2)
  {
    ghost var earlier, three := writer.pieces, PiecesOf(g);
    OneMoreGroup(before, g);
    GroupGrows(earlier, g);
    var position := writer.Append(Words(g.positions), Float, Vec3, g.Count(), ARRAY_BUFFER);
    if position.None? { return None; }
    var normal := writer.Append(Words(g.normals), Float, Vec3, |g.normals| / 3, ARRAY_BUFFER);
    if normal.None? { return None; }
    var indices := writer.Append(g.IndexBytes(), g.IndexComponent(), Scalar, |g.indices|, ELEMENT_BUFFER);
    if indices.None? { return None; }
    assert writer.pieces == (earlier + [three[0]]) + [three[1]] + [three[2]];
    primitive := Some((position.value, normal.value, indices.value));
  }

  /** The payload only grows while a group is appended, so it fits at the end exactly when it fits throughout. */
  lemma {:induction false} GroupGrows(pieces: seq<Piece>, g: Geometry)
    ensures var three := PiecesOf(g);
      && (pieces + [three[0]]) + [three[1]] + [three[2]] == pieces + three
      && |Binary(pieces + [three[0]])| <= |Binary(pieces + [three[0]] + [three[1]])| <= |Binary(pieces + three)|
  {
    var three := PiecesOf(g);
    PieceExtends(pieces + [three[0]], three[1]);
    PieceExtends(pieces + [three[0]] + [three[1]], three[2]);
    assert pieces + [three[0]] + [three[1]] + [three[2]] == pieces + three;
  }

  lemma {:induction false} PiecesGrow(groups: seq<Geometry>, n: nat)
    requires n <= |groups|
    ensures |Binary(AllPieces(groups[..n]))| <= |Binary(AllPieces(groups))|
    ensures |AllPieces(groups)| == 3 * |groups|
    decreases |groups|
  {
    if n < |groups| {
      var init := groups[..|groups| - 1];
      assert init[..n] == groups[..n];
      PiecesGrow(init, n);
      var g := groups[|groups| - 1];
      PieceExtends(AllPieces(init), PiecesOf(g)[0]);
      GroupGrows(AllPieces(init), g);
    } else {
      assert groups[..n] == groups;
      if groups != [] {
        PiecesGrow(groups[..|groups| - 1], |groups| - 1);
      }
    }
  }

  ghost predicate Fits(groups: seq<Geometry>) {
    |Binary(AllPieces(groups))| <= MAX_BYTES
  }

  lemma PrefixFits(groups: seq<Geometry>, done: seq<Geometry>, g: Geometry)
    requires |done| < |groups| && done == groups[..|done|] && g == groups[|done|]
    ensures Fits(groups) ==> Fits(done + [g])
    ensures done + [g] == groups[..|done| + 1]
  {
    assert done + [g] == groups[..|done| + 1];
    PiecesGrow(groups, |done| + 1);
  }

  /** These materials have been appended, and these primitives describe them. */
  ghost predicate Appended(writer: Writer, done: seq<Geometry>, primitives: seq<Primitive>)
    reads writer
  {
    writer.Valid() && writer.pieces == AllPieces(done) && primitives == PrimitivesOf(|done|) && Fits(done)
  }

  /** Append the arrays of the next material, or stop at the payload budget. */
  method AppendNext(writer: Writer, ghost done: seq<Geometry>, g: Geometry, i: nat, primitives: seq<Primitive>)
    returns (grown: Option<seq<Primitive>>)
    requires Appended(writer, done, primitives) && i == |done|
    modifies writer
    ensures grown.Some? <==> Fits(done + [g])
    ensures grown.Some? ==> Appended(writer, done + [g], grown.value)
  {
    var three := AppendGroup(writer, done, g);
    if three.None? { return None; }
    grown := Some(primitives + [Primitive(three.value.0, three.value.1, three.value.2, i)]);
  }

  /** Append every material's arrays, or stop at the payload budget. */
  method AppendAll(writer: Writer, groups: seq<Geometry>) returns (primitives: Option<seq<Primitive>>)
    requires writer.Valid() && writer.pieces == []
    modifies writer
    ensures primitives.Some? <==> Fits(groups)
    ensures primitives.Some? ==> Appended(writer, groups, primitives.value)
  {
    primitives := Some([]);
    ghost var done: seq<Geometry> := [];
    var i := 0;
    while i < |groups|
      invariant 0 <= i == |done| <= |groups| && done == groups[..i]
      invariant primitives.Some? && Appended(writer, done, primitives.value)
    {
      primitives := AppendNext(writer, done, groups[i], i, primitives.value);
      PrefixFits(groups, done, groups[i]);
      if primitives.None? { return; }
      done := done + [groups[i]];
      i := i + 1;
    }
    assert done == groups;
  }

  /** Write one number; what stands before it is kept. */
  method WriteUInt32LE(buffer: array<byte>, n: nat, at: nat)
    requires at + 4 <= buffer.Length
    modifies buffer
    ensures buffer[..at + 4] == old(buffer[..at]) + U32(n)
  {
    buffer[at] := n % 256;
    buffer[at + 1] := n / 256 % 256;
    buffer[at + 2] := n / 65536 % 256;
    buffer[at + 3] := n / 16777216 % 256;
  }

  /** Copy bytes into the buffer; what stands before them is kept. */
  method Copy(bytes: seq<byte>, buffer: array<byte>, at: nat)
    requires at + |bytes| <= buffer.Length
    modifies buffer
    ensures buffer[..at + |bytes|] == old(buffer[..at]) + bytes
  {
    var i := 0;
    while i < |bytes|
      invariant 0 <= i <= |bytes|
      invariant buffer[..at + i] == old(buffer[..at]) + bytes[..i]
    {
      buffer[at + i] := bytes[i];
      i := i + 1;
    }
    assert bytes[..i] == bytes;
  }

  /** The twelve-byte header and the JSON chunk. */
  method WriteHead(buffer: array<byte>, total: nat, chunk: seq<byte>)
    requires 20 + |chunk| <= buffer.Length
    modifies buffer
    ensures buffer[..20 + |chunk|] == HeadOf(total, chunk)
  {
    WriteUInt32LE(buffer, MAGIC, 0);
    WriteUInt32LE(buffer, 2, 4);
    WriteUInt32LE(buffer, total, 8);
    WriteUInt32LE(buffer, |chunk|, 12);
    WriteUInt32LE(buffer, JSON_CHUNK, 16);
    Copy(chunk, buffer, 20);
  }

  /** The binary chunk after the head. */
  method WriteTail(buffer: array<byte>, binary: seq<byte>, at: nat)
    requires at + 8 + |binary| <= buffer.Length
    modifies buffer
    ensures buffer[..at + 8 + |binary|] == old(buffer[..at]) + TailOf(binary)
  {
    WriteUInt32LE(buffer, |binary|, at);
    WriteUInt32LE(buffer, BIN_CHUNK, at + 4);
    Copy(binary, buffer, at + 8);
  }

  /** Compile the materials into one file, unless it would exceed the payload budget. */
  method Compile(groups: seq<Geometry>, encode: Metadata -> seq<byte>) returns (glb: Option<array<byte>>)
    requires forall i :: 0 <= i < |groups| ==> groups[i].Valid()
    ensures glb.Some? <==> SizeOf(groups, encode) <= 750000
    ensures glb.Some? ==> glb.value[..] == FileOf(encode(MetadataOf(groups)), Binary(AllPieces(groups)))
  {
    var writer := new Writer();
    var primitives := AppendAll(writer, groups);
    if primitives.None? { return None; }
    var binary := Concat(writer.chunks);
    var metadata := Metadata(MaterialsOf(groups), writer.views, writer.accessors, primitives.value, writer.offset);
    assert metadata == MetadataOf(groups) && binary == Binary(AllPieces(groups)) && |binary| == writer.offset;
    glb := WriteFile(encode(metadata), binary);
  }

  method WriteFile(json: seq<byte>, binary: seq<byte>) returns (glb: Option<array<byte>>)
    ensures glb.Some? <==> 28 + PaddedLength(|json|) + |binary| <= MAX_BYTES
    ensures glb.Some? ==> glb.value[..] == FileOf(json, binary)
  {
    var chunk := Padded(json, 0x20);
    var total := 28 + |chunk| + |binary|;
    if total > MAX_BYTES { return None; }
    var buffer := new byte[total](_ => 0);
    WriteHead(buffer, total, chunk);
    WriteTail(buffer, binary, 20 + |chunk|);
    assert buffer[..] == buffer[..total];
    glb := Some(buffer);
  }
}
