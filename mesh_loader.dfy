// Dx11MeshViewer/MeshLoader.cpp: LoadMesh turns the attribute pools and
// corner list produced by the OBJ parser into a welded vertex buffer (six
// floats per unique position/normal pair), an index buffer with one index per
// corner, and the axis-aligned bounds of the vertex positions.

module MeshLoader {
  import opened Win32

  /** A 32-bit float, as its IEEE-754 bit pattern. Two floats are equal exactly
      when their bits are: +0.0 and -0.0 differ, a NaN equals its own bits. */
  type Float = bv32

  datatype Axis = X | Y | Z

  datatype Vec3<T> = Vec3(x: T, y: T, z: T) {
    function Get(a: Axis): T {
      match a
      case X => x
      case Y => y
      case Z => z
    }
  }

  /** The welding key `Vertex`: position and normal. Datatype equality is
      equality of all six bit patterns, which is what `std::equal_to<Vertex>`
      computes with memcmp over the 24 bytes of the struct. */
  datatype Vertex = Vertex(position: Vec3<Float>, normal: Vec3<Float>)

  /** The six floats pushed into the vertex buffer for a new vertex. */
  function Floats(v: Vertex): seq<Float> {
    [v.position.x, v.position.y, v.position.z, v.normal.x, v.normal.y, v.normal.z]
  }

  // ---------------------------------------------------------------------
  // The parser's output (tinyobj::attrib_t, shape_t, index_t), as a value.

  /** One corner of a face: indices into the position and normal pools. */
  datatype Index = Index(vertexIndex: int, normalIndex: int)

  /** Attribute pools: three floats per position, three per normal. */
  datatype Attrib = Attrib(vertices: seq<Float>, normals: seq<Float>)

  datatype Shape = Shape(indices: seq<Index>)

  datatype ObjData = ObjData(attrib: Attrib, shapes: seq<Shape>)

  /** The output record; `indexBuffer` holds uint32_t values. */
  datatype Mesh = Mesh(vertexBuffer: seq<Float>, indexBuffer: seq<uint32>,
                       boundsMin: Vec3<real>, boundsMax: Vec3<real>)

  /** FLT_MAX, the largest finite 32-bit float. */
  const FLT_MAX: real := 340282346638528859811704183484516925440.0

  // ---------------------------------------------------------------------
  // The file-name check: strstr(filename, ".obj").

  /** `needle` occurs in `s` starting at position `j`. */
  predicate OccursAt(s: string, needle: string, j: nat) {
    j + |needle| <= |s| && s[j..j + |needle|] == needle
  }

  /** The first position at or after `from` where `needle` occurs in `s`. */
  function FindFrom(s: string, needle: string, from: nat): (r: Option<nat>)
    requires from <= |s|
    decreases |s| - from
    ensures r.Some? ==> from <= r.value && OccursAt(s, needle, r.value)
    ensures r.Some? ==> forall j :: from <= j < r.value ==> !OccursAt(s, needle, j)
    ensures r.None? ==> forall j :: from <= j ==> !OccursAt(s, needle, j)
  {
    if from + |needle| > |s| then None
    else if s[from..from + |needle|] == needle then Some(from)
    else FindFrom(s, needle, from + 1)
  }

  /** strstr: the first occurrence of `needle` anywhere in `s`. */
  function StrStr(s: string, needle: string): Option<nat> {
    FindFrom(s, needle, 0)
  }

  /** LoadMesh accepts a name that contains ".obj" anywhere, not only at its end. */
  predicate HasObjExtension(filename: string) {
    StrStr(filename, ".obj").Some?
  }

  /** The check is a case-sensitive substring test, not a suffix test. */
  lemma ObjExtensionIsSubstring()
    ensures HasObjExtension("teapot.obj")
    ensures HasObjExtension("teapot.obj.bak")
    ensures !HasObjExtension("teapot.OBJ")
    ensures !HasObjExtension("obj")
  {
    assert OccursAt("teapot.obj", ".obj", 6);
    assert OccursAt("teapot.obj.bak", ".obj", 6);
    var upper := "teapot.OBJ";
    forall j: nat ensures !OccursAt(upper, ".obj", j) {
      if j + 4 <= |upper| {
        assert upper[j..j + 4][0] != '.' || upper[j..j + 4][1] != 'o';
      }
    }
  }

  // ---------------------------------------------------------------------
  // Resolving corners into (position, normal) keys.

  /** Three floats of `pool` start at 3 * i. */
  predicate PoolHas(pool: seq<Float>, i: int) {
    0 <= i && 3 * i + 2 < |pool|
  }

  predicate CornerInRange(attrib: Attrib, c: Index) {
    PoolHas(attrib.vertices, c.vertexIndex) && PoolHas(attrib.normals, c.normalIndex)
  }

  /** Whole triangles of a shape: `indices.size() / 3`, rounding down. */
  function TriangleCount(shape: Shape): nat {
    |shape.indices| / 3
  }

  /** What LoadMesh reads without checking: `shapes[0]` exists and every corner
      of its whole triangles indexes inside both pools. */
  predicate Readable(obj: ObjData) {
    && |obj.shapes| > 0
    && forall i :: 0 <= i < 3 * TriangleCount(obj.shapes[0]) ==> CornerInRange(obj.attrib, obj.shapes[0].indices[i])
  }

  /** The key of one corner: `v[k]` and `n[k]` of the source. */
  function Resolve(attrib: Attrib, c: Index): Vertex
    requires CornerInRange(attrib, c)
  {
    var p, n := 3 * c.vertexIndex, 3 * c.normalIndex;
    Vertex(Vec3(attrib.vertices[p], attrib.vertices[p + 1], attrib.vertices[p + 2]),
           Vec3(attrib.normals[n], attrib.normals[n + 1], attrib.normals[n + 2]))
  }

  /** The keys of the corners LoadMesh visits, in order: the corners of the
      whole triangles of the first shape; a trailing partial triangle is skipped. */
  function Corners(obj: ObjData): (ks: seq<Vertex>)
    requires Readable(obj)
  {
    var shape := obj.shapes[0];
    seq(3 * TriangleCount(shape), i requires 0 <= i < 3 * TriangleCount(shape) => Resolve(obj.attrib, shape.indices[i]))
  }

  // ---------------------------------------------------------------------
  // The reference definition of welding: distinct keys in first-encounter
  // order, and each corner's position in that order.

  ghost predicate Distinct(vs: seq<Vertex>) {
    forall i, j :: 0 <= i < j < |vs| ==> vs[i] != vs[j]
  }

  /** The distinct keys of `ks`, in the order in which they first occur. */
  function Unique(ks: seq<Vertex>): (u: seq<Vertex>)
    ensures forall v :: v in u <==> v in ks
    ensures |u| <= |ks|
  {
    if ks == [] then []
    else
      var init, last := ks[..|ks| - 1], ks[|ks| - 1];
      assert ks == init + [last];
      var u := Unique(init);
      if last in u then u else u + [last]
  }

  /** The position of `v` in `vs`: its first occurrence. */
  function IndexOf(vs: seq<Vertex>, v: Vertex): (i: nat)
    requires v in vs
    ensures i < |vs| && vs[i] == v && v !in vs[..i]
  {
    if vs[0] == v then 0 else 1 + IndexOf(vs[1..], v)
  }

  /** The index LoadMesh emits for every corner, in corner order. */
  function WeldedIndices(ks: seq<Vertex>): seq<uint32> {
    seq(|ks|, i requires 0 <= i < |ks| => ToUInt32(IndexOf(Unique(ks), ks[i])))
  }

  /** The vertex buffer for a sequence of vertices: six floats each. */
  function Flatten(vs: seq<Vertex>): (fs: seq<Float>)
    ensures |fs| == 6 * |vs|
  {
    if vs == [] then [] else Flatten(vs[..|vs| - 1]) + Floats(vs[|vs| - 1])
  }

  // ---------------------------------------------------------------------
  // Bounds over an ordered reading of the floats.

  function Min(a: real, b: real): real { if a <= b then a else b }
  function Max(a: real, b: real): real { if a <= b then b else a }

  /** The position of every vertex of a vertex buffer: the first three of each
      group of six floats. */
  function Positions(vb: seq<Float>): (ps: seq<Vec3<Float>>)
    requires |vb| % 6 == 0
    decreases |vb|
  {
    if vb == [] then []
    else
      var n := |vb| - 6;
      Positions(vb[..n]) + [Vec3(vb[n], vb[n + 1], vb[n + 2])]
  }

  /** XMVectorMin folded over `ps` from FLT_MAX: the component-wise minimum of
      FLT_MAX and every position's value. */
  function Lower(ps: seq<Vec3<Float>>, value: Float -> real): (lo: Vec3<real>)
    ensures forall a: Axis, j :: 0 <= j < |ps| ==> lo.Get(a) <= value(ps[j].Get(a))
    ensures forall a: Axis :: lo.Get(a) <= FLT_MAX
    ensures forall a: Axis :: lo.Get(a) == FLT_MAX || exists j :: 0 <= j < |ps| && lo.Get(a) == value(ps[j].Get(a))
  {
    if ps == [] then Vec3(FLT_MAX, FLT_MAX, FLT_MAX)
    else
      var lo, p := Lower(ps[..|ps| - 1], value), ps[|ps| - 1];
      var r := Vec3(Min(lo.x, value(p.x)), Min(lo.y, value(p.y)), Min(lo.z, value(p.z)));
      assert forall a: Axis :: r.Get(a) == Min(lo.Get(a), value(p.Get(a)));
      r
  }

  /** XMVectorMax folded over `ps` from -FLT_MAX. */
  function Upper(ps: seq<Vec3<Float>>, value: Float -> real): (hi: Vec3<real>)
    ensures forall a: Axis, j :: 0 <= j < |ps| ==> value(ps[j].Get(a)) <= hi.Get(a)
    ensures forall a: Axis :: -FLT_MAX <= hi.Get(a)
    ensures forall a: Axis :: hi.Get(a) == -FLT_MAX || exists j :: 0 <= j < |ps| && hi.Get(a) == value(ps[j].Get(a))
  {
    if ps == [] then Vec3(-FLT_MAX, -FLT_MAX, -FLT_MAX)
    else
      var hi, p := Upper(ps[..|ps| - 1], value), ps[|ps| - 1];
      var r := Vec3(Max(hi.x, value(p.x)), Max(hi.y, value(p.y)), Max(hi.z, value(p.z)));
      assert forall a: Axis :: r.Get(a) == Max(hi.Get(a), value(p.Get(a)));
      r
  }

  /** The bounds of the welded vertices of the corner keys `ks`: the folds of
      XMVectorMin and XMVectorMax over their positions. */
  ghost function WeldedBounds(ks: seq<Vertex>, value: Float -> real): (Vec3<real>, Vec3<real>) {
    WholeVertices([], Unique(ks));
    assert [] + Flatten(Unique(ks)) == Flatten(Unique(ks));
    var ps := Positions(Flatten(Unique(ks)));
    (Lower(ps, value), Upper(ps, value))
  }

  // ---------------------------------------------------------------------
  // LoadMesh.

  /** The three early exits of LoadMesh all fail: no ".obj" in the name, a
      parser failure (None), or an empty normal pool. */
  predicate Accepts(filename: string, parsed: Option<ObjData>) {
    HasObjExtension(filename) && parsed.Some? && |parsed.value.attrib.normals| > 0
  }

  /** `after` is `before` with the welded vertices and indices of the corner
      keys `ks` appended, and with the bounds of every vertex of the buffer. */
  ghost predicate Loaded(before: Mesh, ks: seq<Vertex>, value: Float -> real, after: Mesh) {
    && after.vertexBuffer == before.vertexBuffer + Flatten(Unique(ks))
    && after.indexBuffer == before.indexBuffer + WeldedIndices(ks)
    && |after.vertexBuffer| % 6 == 0
    && after.boundsMin == Lower(Positions(after.vertexBuffer), value)
    && after.boundsMax == Upper(Positions(after.vertexBuffer), value)
  }

  /** Loading into an empty mesh, as InitResources does: the buffers are the
      welded vertices and indices and the bounds are their bounds. */
  lemma LoadedIntoEmpty(ks: seq<Vertex>, value: Float -> real, origin: Vec3<real>, mesh: Mesh)
    requires Loaded(Mesh([], [], origin, origin), ks, value, mesh)
    ensures mesh.vertexBuffer == Flatten(Unique(ks))
    ensures mesh.indexBuffer == WeldedIndices(ks)
    ensures (mesh.boundsMin, mesh.boundsMax) == WeldedBounds(ks, value)
  {
    assert [] + Flatten(Unique(ks)) == Flatten(Unique(ks));
    assert [] + WeldedIndices(ks) == WeldedIndices(ks);
  }

  /** `uniqueVertexMap` after the corner keys `ks`: it holds exactly the keys
      seen, each with its position in first-encounter order. */
  ghost predicate Tracks(uniqueVertexMap: map<Vertex, nat>, ks: seq<Vertex>) {
    && (forall v :: v in uniqueVertexMap <==> v in ks)
    && (forall v :: v in uniqueVertexMap ==> uniqueVertexMap[v] == IndexOf(Unique(ks), v))
    && |uniqueVertexMap| == |Unique(ks)|
  }

  /** The contents of `uniqueVertexMap` after the corner keys `ks`: a key is
      numbered by the map's size when it is first seen and keeps its number. */
  function Numbering(ks: seq<Vertex>): map<Vertex, nat> {
    if ks == [] then map[]
    else
      var n, k := Numbering(ks[..|ks| - 1]), ks[|ks| - 1];
      if k in n then n else n[k := |n|]
  }

  /** LoadMesh(filename, outMesh), with the parser's result `parsed` and the
      ordered reading `value` of a float used by the bounds. On failure
      `outMesh` is returned untouched. */
  method LoadMesh(filename: string, parsed: Option<ObjData>, value: Float -> real, outMesh: Mesh)
    returns (hr: HResult, mesh: Mesh)
    requires |outMesh.vertexBuffer| % 6 == 0
    requires Accepts(filename, parsed) ==> Readable(parsed.value)
    ensures hr == Ok <==> Accepts(filename, parsed)
    ensures hr == Fail ==> mesh == outMesh
    ensures hr == Ok ==> |mesh.indexBuffer| == |outMesh.indexBuffer| + 3 * TriangleCount(parsed.value.shapes[0])
    ensures hr == Ok ==> Loaded(outMesh, Corners(parsed.value), value, mesh)
  {
    mesh := outMesh;
    if !HasObjExtension(filename) {
      return Fail, mesh;
    }
    if parsed.None? {
      return Fail, mesh;
    }
    var obj := parsed.value;
    if |obj.attrib.normals| == 0 {
      return Fail, mesh;
    }
    var vertexBuffer, indexBuffer := WeldShape(obj, outMesh.vertexBuffer, outMesh.indexBuffer);
    WholeVertices(outMesh.vertexBuffer, Unique(Corners(obj)));
    var boundsMin, boundsMax := FindBounds(vertexBuffer, value);
    mesh := Mesh(vertexBuffer, indexBuffer, boundsMin, boundsMax);
    hr := Ok;
  }

  /** The face loop of LoadMesh: every corner of the whole triangles of
      `shapes[0]` is looked up in `uniqueVertexMap`; a new key appends its six
      floats and is numbered by the map's size; every corner appends its index. */
  method WeldShape(obj: ObjData, vertexBuffer0: seq<Float>, indexBuffer0: seq<uint32>)
    returns (vertexBuffer: seq<Float>, indexBuffer: seq<uint32>)
    requires Readable(obj)
    ensures vertexBuffer == vertexBuffer0 + Flatten(Unique(Corners(obj)))
    ensures indexBuffer == indexBuffer0 + WeldedIndices(Corners(obj))
  {
    ghost var ks := Corners(obj);
    ghost var seen: seq<Vertex> := [];
    var shape := obj.shapes[0];
    var uniqueVertexMap: map<Vertex, nat> := map[];
    vertexBuffer, indexBuffer := vertexBuffer0, indexBuffer0;
    var f := 0;
    while f < |shape.indices| / 3
      invariant 0 <= f <= |shape.indices| / 3
      invariant seen == ks[..3 * f]
      invariant uniqueVertexMap == Numbering(seen)
      invariant vertexBuffer == vertexBuffer0 + Flatten(Unique(seen))
      invariant indexBuffer == indexBuffer0 + WeldedIndices(seen)
    {
      var face := [Resolve(obj.attrib, shape.indices[3 * f]),
                   Resolve(obj.attrib, shape.indices[3 * f + 1]),
                   Resolve(obj.attrib, shape.indices[3 * f + 2])];
      CornersOfFace(obj, f);
      uniqueVertexMap, vertexBuffer, indexBuffer := WeldFace(face, uniqueVertexMap, vertexBuffer, indexBuffer, seen, vertexBuffer0, indexBuffer0);
      seen := seen + face;
      f := f + 1;
    }
    assert seen == ks;
  }

  /** One iteration of the face loop: the keys of the three corners of a face,
      after the corner keys `seen` of the faces before it. */
  method WeldFace(face: seq<Vertex>, uniqueVertexMap0: map<Vertex, nat>, vertexBuffer0: seq<Float>, indexBuffer0: seq<uint32>,
                  ghost seen: seq<Vertex>, ghost baseVertices: seq<Float>, ghost baseIndices: seq<uint32>)
    returns (uniqueVertexMap: map<Vertex, nat>, vertexBuffer: seq<Float>, indexBuffer: seq<uint32>)
    requires |face| == 3
    requires uniqueVertexMap0 == Numbering(seen)
    requires vertexBuffer0 == baseVertices + Flatten(Unique(seen))
    requires indexBuffer0 == baseIndices + WeldedIndices(seen)
    ensures uniqueVertexMap == Numbering(seen + face)
    ensures vertexBuffer == baseVertices + Flatten(Unique(seen + face))
    ensures indexBuffer == baseIndices + WeldedIndices(seen + face)
  {
    ghost var done := seen;
    uniqueVertexMap, vertexBuffer, indexBuffer := uniqueVertexMap0, vertexBuffer0, indexBuffer0;
    for k := 0 to 3
      invariant done == seen + face[..k]
      invariant uniqueVertexMap == Numbering(done)
      invariant vertexBuffer == baseVertices + Flatten(Unique(done))
      invariant indexBuffer == baseIndices + WeldedIndices(done)
    {
      var m := face[k];
      AppendPrefix(seen, face, k);
      uniqueVertexMap, vertexBuffer, indexBuffer := WeldCorner(m, uniqueVertexMap, vertexBuffer, indexBuffer, done, baseVertices, baseIndices);
      done := done + [m];
    }
    assert face[..3] == face;
  }

  /** The body of the corner loop (MeshLoader.cpp:133-156) for key `m` after the
      corner keys `seen`. */
  method WeldCorner(m: Vertex, uniqueVertexMap0: map<Vertex, nat>, vertexBuffer0: seq<Float>, indexBuffer0: seq<uint32>,
                    ghost seen: seq<Vertex>, ghost baseVertices: seq<Float>, ghost baseIndices: seq<uint32>)
    returns (uniqueVertexMap: map<Vertex, nat>, vertexBuffer: seq<Float>, indexBuffer: seq<uint32>)
    requires uniqueVertexMap0 == Numbering(seen)
    requires vertexBuffer0 == baseVertices + Flatten(Unique(seen))
    requires indexBuffer0 == baseIndices + WeldedIndices(seen)
    ensures uniqueVertexMap == Numbering(seen + [m])
    ensures vertexBuffer == baseVertices + Flatten(Unique(seen + [m]))
    ensures indexBuffer == baseIndices + WeldedIndices(seen + [m])
  {
    NumberingTracks(seen);
    assert (seen + [m])[..|seen|] == seen;
    VertexStep(uniqueVertexMap0, seen, m, baseVertices, vertexBuffer0);
    IndexStep(uniqueVertexMap0, seen, m, baseIndices, indexBuffer0);
    uniqueVertexMap, vertexBuffer := uniqueVertexMap0, vertexBuffer0;
    if m !in uniqueVertexMap {
      // A new vertex: append its six floats and number it by the map's size.
      vertexBuffer := vertexBuffer + Floats(m);
      uniqueVertexMap := uniqueVertexMap[m := |uniqueVertexMap|];
    }
    indexBuffer := indexBuffer0 + [ToUInt32(uniqueVertexMap[m])];
  }

  /** The bounds loop of LoadMesh: XMVectorMax and XMVectorMin over the
      position of every vertex of the buffer, from -FLT_MAX and FLT_MAX. */
  method FindBounds(vertexBuffer: seq<Float>, value: Float -> real) returns (boundsMin: Vec3<real>, boundsMax: Vec3<real>)
    requires |vertexBuffer| % 6 == 0
    ensures boundsMin == Lower(Positions(vertexBuffer), value)
    ensures boundsMax == Upper(Positions(vertexBuffer), value)
  {
    boundsMin := Vec3(FLT_MAX, FLT_MAX, FLT_MAX);
    boundsMax := Vec3(-FLT_MAX, -FLT_MAX, -FLT_MAX);
    var i := 0;
    while i < |vertexBuffer|
      invariant 0 <= i <= |vertexBuffer| && i % 6 == 0
      invariant boundsMin == Lower(Positions(vertexBuffer[..i]), value)
      invariant boundsMax == Upper(Positions(vertexBuffer[..i]), value)
    {
      var position := Vec3(vertexBuffer[i], vertexBuffer[i + 1], vertexBuffer[i + 2]);
      PositionsSnoc(vertexBuffer, i);
      LowerUpperSnoc(Positions(vertexBuffer[..i]), position, value);
      boundsMax := Vec3(Max(boundsMax.x, value(position.x)), Max(boundsMax.y, value(position.y)), Max(boundsMax.z, value(position.z)));
      boundsMin := Vec3(Min(boundsMin.x, value(position.x)), Min(boundsMin.y, value(position.y)), Min(boundsMin.z, value(position.z)));
      i := i + 6;
    }
    assert vertexBuffer[..i] == vertexBuffer;
  }

  // ---------------------------------------------------------------------
  // Lemmas behind LoadMesh's loops.

  /** A position that holds `v` and has no earlier `v` is IndexOf's answer. */
  lemma IndexOfIsFirst(vs: seq<Vertex>, v: Vertex, i: nat)
    requires i < |vs| && vs[i] == v && v !in vs[..i]
    ensures IndexOf(vs, v) == i
  {
  }

  /** The map of the welding loop holds exactly the keys seen, each numbered
      by its position in first-encounter order. */
  lemma {:induction false} NumberingTracks(ks: seq<Vertex>)
    ensures Tracks(Numbering(ks), ks)
  {
    if ks != [] {
      var init, last := ks[..|ks| - 1], ks[|ks| - 1];
      assert ks == init + [last];
      NumberingTracks(init);
      TracksStep(Numbering(init), init, last);
    }
  }

  /** The map after one corner: a new key is numbered by the map's size. */
  lemma TracksStep(uniqueVertexMap: map<Vertex, nat>, seen: seq<Vertex>, m: Vertex)
    requires Tracks(uniqueVertexMap, seen)
    ensures Tracks(if m in uniqueVertexMap then uniqueVertexMap else uniqueVertexMap[m := |uniqueVertexMap|], seen + [m])
  {
    if m in uniqueVertexMap {
      SeenKeyStep(uniqueVertexMap, seen, m);
    } else {
      NewKeyStep(uniqueVertexMap, seen, m);
    }
  }

  /** A key already in the map: map, distinct keys and numbers are unchanged. */
  lemma SeenKeyStep(uniqueVertexMap: map<Vertex, nat>, seen: seq<Vertex>, m: Vertex)
    requires Tracks(uniqueVertexMap, seen) && m in uniqueVertexMap
    ensures Tracks(uniqueVertexMap, seen + [m])
  {
    UniqueSnoc(seen, m);
    WeldKeepsIndices(seen, m);
    forall v ensures v in uniqueVertexMap <==> v in seen + [m] {
      assert v in seen + [m] <==> v in seen || v == m;
    }
  }

  /** A key not yet in the map: it is added with the number |map|, which is
      its position among the distinct keys. */
  lemma NewKeyStep(uniqueVertexMap: map<Vertex, nat>, seen: seq<Vertex>, m: Vertex)
    requires Tracks(uniqueVertexMap, seen) && m !in uniqueVertexMap
    ensures Tracks(uniqueVertexMap[m := |uniqueVertexMap|], seen + [m])
  {
    UniqueSnoc(seen, m);
    WeldKeepsIndices(seen, m);
    WeldNewIndex(seen, m);
    var n, u := uniqueVertexMap[m := |uniqueVertexMap|], Unique(seen + [m]);
    assert |n| == |uniqueVertexMap| + 1 == |u|;
    forall v | v in n
      ensures v in seen + [m] && n[v] == IndexOf(u, v)
    {
      if v != m {
        assert v in seen;
      }
    }
    forall v | v in seen + [m]
      ensures v in n
    {
      assert v in seen || v == m;
    }
  }

  /** The vertex buffer after one corner: six more floats for a new key. */
  lemma VertexStep(uniqueVertexMap: map<Vertex, nat>, seen: seq<Vertex>, m: Vertex, base: seq<Float>, vertexBuffer: seq<Float>)
    requires Tracks(uniqueVertexMap, seen)
    requires vertexBuffer == base + Flatten(Unique(seen))
    ensures (if m in uniqueVertexMap then vertexBuffer else vertexBuffer + Floats(m)) == base + Flatten(Unique(seen + [m]))
  {
    FlattenUniqueSnoc(seen, m);
  }

  /** The index buffer after one corner: the key's number in the updated map. */
  lemma IndexStep(uniqueVertexMap: map<Vertex, nat>, seen: seq<Vertex>, m: Vertex, base: seq<uint32>, indexBuffer: seq<uint32>)
    requires Tracks(uniqueVertexMap, seen)
    requires indexBuffer == base + WeldedIndices(seen)
    ensures indexBuffer + [ToUInt32((if m in uniqueVertexMap then uniqueVertexMap else uniqueVertexMap[m := |uniqueVertexMap|])[m])]
            == base + WeldedIndices(seen + [m])
  {
    TracksStep(uniqueVertexMap, seen, m);
    WeldedIndicesSnoc(seen, m);
    assert m in seen + [m];
  }

  /** Extending a sequence by one more element of `b`. */
  lemma AppendPrefix<T>(a: seq<T>, b: seq<T>, k: nat)
    requires k < |b|
    ensures a + b[..k + 1] == (a + b[..k]) + [b[k]]
  {
    assert b[..k + 1] == b[..k] + [b[k]];
  }

  /** The corner keys up to and including face `f`. */
  lemma CornersOfFace(obj: ObjData, f: nat)
    requires Readable(obj) && f < TriangleCount(obj.shapes[0])
    ensures var shape := obj.shapes[0];
      Corners(obj)[..3 * f + 3] == Corners(obj)[..3 * f] +
        [Resolve(obj.attrib, shape.indices[3 * f]), Resolve(obj.attrib, shape.indices[3 * f + 1]), Resolve(obj.attrib, shape.indices[3 * f + 2])]
  {
  }

  /** Unique of a sequence extended by one key. */
  lemma UniqueSnoc(ks: seq<Vertex>, k: Vertex)
    ensures Unique(ks + [k]) == if k in ks then Unique(ks) else Unique(ks) + [k]
  {
    assert (ks + [k])[..|ks|] == ks;
  }

  /** Keys already seen keep their index when a corner is added. */
  lemma WeldKeepsIndices(ks: seq<Vertex>, k: Vertex)
    ensures forall v :: v in ks ==> IndexOf(Unique(ks + [k]), v) == IndexOf(Unique(ks), v)
  {
    UniqueSnoc(ks, k);
    var u, u' := Unique(ks), Unique(ks + [k]);
    forall v | v in ks
      ensures IndexOf(u', v) == IndexOf(u, v)
    {
      var j := IndexOf(u, v);
      assert u'[..j] == u[..j];
      IndexOfIsFirst(u', v, j);
    }
  }

  /** A key seen for the first time gets the next index: the count of distinct keys before it. */
  lemma WeldNewIndex(ks: seq<Vertex>, k: Vertex)
    requires k !in ks
    ensures IndexOf(Unique(ks + [k]), k) == |Unique(ks)|
  {
    UniqueSnoc(ks, k);
    var u, u' := Unique(ks), Unique(ks + [k]);
    assert u'[..|u|] == u;
    IndexOfIsFirst(u', k, |u|);
  }

  /** The index buffer grows by the index of the added corner. */
  lemma WeldedIndicesSnoc(ks: seq<Vertex>, k: Vertex)
    ensures WeldedIndices(ks + [k]) == WeldedIndices(ks) + [ToUInt32(IndexOf(Unique(ks + [k]), k))]
  {
    WeldKeepsIndices(ks, k);
    var w, w' := WeldedIndices(ks), WeldedIndices(ks + [k]);
    forall i | 0 <= i < |w|
      ensures w'[i] == w[i]
    {
      assert (ks + [k])[i] == ks[i];
    }
  }

  /** The vertex buffer grows by six floats exactly when the added key is new. */
  lemma FlattenUniqueSnoc(ks: seq<Vertex>, k: Vertex)
    ensures Flatten(Unique(ks + [k])) == if k in ks then Flatten(Unique(ks)) else Flatten(Unique(ks)) + Floats(k)
  {
    UniqueSnoc(ks, k);
    if k !in ks {
      var u := Unique(ks);
      assert (u + [k])[..|u|] == u;
    }
  }

  /** Appending whole vertices to a buffer of whole vertices. */
  lemma WholeVertices(vertexBuffer: seq<Float>, vs: seq<Vertex>)
    requires |vertexBuffer| % 6 == 0
    ensures |vertexBuffer + Flatten(vs)| % 6 == 0
  {
    var m := |vertexBuffer| / 6;
    assert |vertexBuffer + Flatten(vs)| == 6 * (m + |vs|);
  }

  /** The positions of a vertex buffer prefix grow by one per six floats. */
  lemma PositionsSnoc(vb: seq<Float>, i: nat)
    requires i % 6 == 0 && i + 6 <= |vb|
    ensures Positions(vb[..i + 6]) == Positions(vb[..i]) + [Vec3(vb[i], vb[i + 1], vb[i + 2])]
  {
    assert vb[..i + 6][..i] == vb[..i];
  }

  /** The bounds folds over positions extended by one. */
  lemma LowerUpperSnoc(ps: seq<Vec3<Float>>, p: Vec3<Float>, value: Float -> real)
    ensures Lower(ps + [p], value) == Vec3(Min(Lower(ps, value).x, value(p.x)), Min(Lower(ps, value).y, value(p.y)), Min(Lower(ps, value).z, value(p.z)))
    ensures Upper(ps + [p], value) == Vec3(Max(Upper(ps, value).x, value(p.x)), Max(Upper(ps, value).y, value(p.y)), Max(Upper(ps, value).z, value(p.z)))
  {
    assert (ps + [p])[..|ps|] == ps;
  }

  // ---------------------------------------------------------------------
  // Properties of the welded mesh.

  /** Welding keeps distinct keys only. */
  lemma {:induction false} UniqueIsDistinct(ks: seq<Vertex>)
    ensures Distinct(Unique(ks))
  {
    if ks != [] {
      UniqueIsDistinct(ks[..|ks| - 1]);
    }
  }

  /** Nothing is merged exactly when no two corners share a key. */
  lemma {:induction false} NoWeldIffDistinct(ks: seq<Vertex>)
    ensures |Unique(ks)| == |ks| <==> Distinct(ks)
  {
    if ks != [] {
      var init, last := ks[..|ks| - 1], ks[|ks| - 1];
      NoWeldIffDistinct(init);
      assert ks == init + [last];
      if |Unique(ks)| == |ks| {
        assert last !in Unique(init);
        forall i, j | 0 <= i < j < |ks| ensures ks[i] != ks[j] {
          if j == |ks| - 1 {
            assert ks[i] in init;
          } else {
            assert ks[i] == init[i] && ks[j] == init[j];
          }
        }
      }
      if Distinct(ks) {
        assert Distinct(init) by {
          forall i, j | 0 <= i < j < |init| ensures init[i] != init[j] {
            assert init[i] == ks[i] && init[j] == ks[j];
          }
        }
        assert last !in init by {
          forall i | 0 <= i < |init| ensures init[i] != last {
            assert init[i] == ks[i];
          }
        }
      }
    }
  }

  /** The six floats of vertex `j` in a flattened buffer. */
  lemma {:induction false} FlattenAt(vs: seq<Vertex>, j: nat)
    requires j < |vs|
    ensures Flatten(vs)[6 * j..6 * j + 6] == Floats(vs[j])
  {
    var init, last := vs[..|vs| - 1], vs[|vs| - 1];
    assert Flatten(vs) == Flatten(init) + Floats(last);
    if j < |vs| - 1 {
      FlattenAt(init, j);
      assert init[j] == vs[j];
    }
  }

  /** The positions of a flattened buffer are the positions of its vertices. */
  lemma {:induction false} PositionsOfFlatten(vs: seq<Vertex>)
    ensures |Flatten(vs)| % 6 == 0
    ensures Positions(Flatten(vs)) == seq(|vs|, i requires 0 <= i < |vs| => vs[i].position)
  {
    assert |Flatten(vs)| == 6 * |vs|;
    if vs != [] {
      var init, last := vs[..|vs| - 1], vs[|vs| - 1];
      PositionsOfFlatten(init);
      var fs := Flatten(vs);
      assert fs == Flatten(init) + Floats(last);
      assert fs[..|fs| - 6] == Flatten(init);
    }
  }

  /** A key first seen at corner `j` keeps its number however many corners follow. */
  lemma IndexStable(ks: seq<Vertex>, n: nat, v: Vertex)
    requires n <= |ks| && v in ks[..n]
    ensures IndexOf(Unique(ks), v) == IndexOf(Unique(ks[..n]), v)
    decreases |ks| - n
  {
    if n < |ks| {
      assert ks[..n + 1] == ks[..n] + [ks[n]];
      WeldKeepsIndices(ks[..n], ks[n]);
      assert v in ks[..n + 1];
      IndexStable(ks, n + 1, v);
    } else {
      assert ks[..n] == ks;
    }
  }

  /** First encounters are numbered 0, 1, 2, ... in corner order: the key of a
      corner that has not occurred before gets the count of distinct keys
      before it. */
  lemma FirstEncounterNumbering(ks: seq<Vertex>, i: nat)
    requires i < |ks| && ks[i] !in ks[..i]
    requires |ks| < 0x1_0000_0000
    ensures WeldedIndices(ks)[i] as int == |Unique(ks[..i])|
  {
    assert ks[..i + 1] == ks[..i] + [ks[i]];
    WeldNewIndex(ks[..i], ks[i]);
    IndexStable(ks, i + 1, ks[i]);
  }

  /** Two corners get the same index exactly when their keys are bitwise equal. */
  lemma SameIndexIffSameKey(ks: seq<Vertex>, i: nat, j: nat)
    requires i < |ks| && j < |ks| && |ks| < 0x1_0000_0000
    ensures WeldedIndices(ks)[i] == WeldedIndices(ks)[j] <==> ks[i] == ks[j]
  {
    var u := Unique(ks);
    var a, b := IndexOf(u, ks[i]), IndexOf(u, ks[j]);
    assert WeldedIndices(ks)[i] as int == a && WeldedIndices(ks)[j] as int == b;
  }

  /** Every index names one of the welded vertices, and the six floats it
      names are the corner's own position and normal (while indices fit in 32 bits). */
  lemma IndicesDereference(ks: seq<Vertex>)
    requires |ks| < 0x1_0000_0000
    ensures |WeldedIndices(ks)| == |ks|
    ensures forall i :: 0 <= i < |ks| ==> WeldedIndices(ks)[i] as int < |Unique(ks)|
    ensures forall i :: 0 <= i < |ks| ==>
      var w := WeldedIndices(ks)[i] as int;
      Flatten(Unique(ks))[6 * w..6 * w + 6] == Floats(ks[i])
  {
    var u := Unique(ks);
    forall i | 0 <= i < |ks|
      ensures WeldedIndices(ks)[i] as int < |u|
      ensures Flatten(u)[6 * (WeldedIndices(ks)[i] as int)..6 * (WeldedIndices(ks)[i] as int) + 6] == Floats(ks[i])
    {
      var w := IndexOf(u, ks[i]);
      assert WeldedIndices(ks)[i] as int == w;
      FlattenAt(u, w);
    }
  }

  /** The welded vertices are pairwise distinct as six-float groups. */
  lemma WeldedVerticesDistinct(ks: seq<Vertex>)
    ensures forall i, j :: 0 <= i < j < |Unique(ks)| ==>
      Flatten(Unique(ks))[6 * i..6 * i + 6] != Flatten(Unique(ks))[6 * j..6 * j + 6]
  {
    var u := Unique(ks);
    UniqueIsDistinct(ks);
    forall i, j | 0 <= i < j < |u|
      ensures Flatten(u)[6 * i..6 * i + 6] != Flatten(u)[6 * j..6 * j + 6]
    {
      FlattenAt(u, i);
      FlattenAt(u, j);
      if Floats(u[i]) == Floats(u[j]) {
        FloatsInjective(u[i], u[j]);
      }
    }
  }

  /** Different keys push different floats. */
  lemma FloatsInjective(v: Vertex, w: Vertex)
    requires Floats(v) == Floats(w)
    ensures v == w
  {
    assert Floats(v)[0] == Floats(w)[0] && Floats(v)[1] == Floats(w)[1] && Floats(v)[2] == Floats(w)[2];
    assert Floats(v)[3] == Floats(w)[3] && Floats(v)[4] == Floats(w)[4] && Floats(v)[5] == Floats(w)[5];
  }

  /** The positions of the welded vertex buffer are the positions of the
      distinct keys, and every corner's position is among them. */
  lemma WeldedPositions(ks: seq<Vertex>)
    ensures |Flatten(Unique(ks))| % 6 == 0
    ensures |Positions(Flatten(Unique(ks)))| == |Unique(ks)|
    ensures forall j :: 0 <= j < |Unique(ks)| ==> Positions(Flatten(Unique(ks)))[j] == Unique(ks)[j].position
    ensures forall i :: 0 <= i < |ks| ==> Positions(Flatten(Unique(ks)))[IndexOf(Unique(ks), ks[i])] == ks[i].position
  {
    PositionsOfFlatten(Unique(ks));
  }

  /** The bounds of the welded vertex buffer contain the position of every
      corner; with no corners they stay at FLT_MAX and -FLT_MAX. */
  lemma WeldedBoundsContain(ks: seq<Vertex>, value: Float -> real)
    ensures |Flatten(Unique(ks))| % 6 == 0
    ensures var ps := Positions(Flatten(Unique(ks)));
      forall i, a: Axis :: 0 <= i < |ks| ==> Lower(ps, value).Get(a) <= value(ks[i].position.Get(a)) <= Upper(ps, value).Get(a)
    ensures ks == [] ==> Lower(Positions(Flatten(Unique(ks))), value) == Vec3(FLT_MAX, FLT_MAX, FLT_MAX)
    ensures ks == [] ==> Upper(Positions(Flatten(Unique(ks))), value) == Vec3(-FLT_MAX, -FLT_MAX, -FLT_MAX)
  {
    WeldedPositions(ks);
    var ps := Positions(Flatten(Unique(ks)));
    forall i, a: Axis | 0 <= i < |ks|
      ensures Lower(ps, value).Get(a) <= value(ks[i].position.Get(a)) <= Upper(ps, value).Get(a)
    {
      assert ps[IndexOf(Unique(ks), ks[i])] == ks[i].position;
    }
  }

  /** Each bound of the welded vertex buffer is the reading of some corner's
      position, unless there are no corners: the bounds are the true extremes. */
  lemma WeldedBoundsAttained(ks: seq<Vertex>, value: Float -> real)
    ensures |Flatten(Unique(ks))| % 6 == 0
    ensures var lo := Lower(Positions(Flatten(Unique(ks))), value);
      forall a: Axis :: lo.Get(a) == FLT_MAX || exists i :: 0 <= i < |ks| && lo.Get(a) == value(ks[i].position.Get(a))
    ensures var hi := Upper(Positions(Flatten(Unique(ks))), value);
      forall a: Axis :: hi.Get(a) == -FLT_MAX || exists i :: 0 <= i < |ks| && hi.Get(a) == value(ks[i].position.Get(a))
  {
    WeldedPositions(ks);
    var u := Unique(ks);
    var ps := Positions(Flatten(u));
    forall a: Axis
      ensures Lower(ps, value).Get(a) == FLT_MAX || exists i :: 0 <= i < |ks| && Lower(ps, value).Get(a) == value(ks[i].position.Get(a))
      ensures Upper(ps, value).Get(a) == -FLT_MAX || exists i :: 0 <= i < |ks| && Upper(ps, value).Get(a) == value(ks[i].position.Get(a))
    {
      var lo, hi := Lower(ps, value).Get(a), Upper(ps, value).Get(a);
      if lo != FLT_MAX {
        var j :| 0 <= j < |ps| && lo == value(ps[j].Get(a));
        var i := KeyOccurs(ks, u[j]);
      }
      if hi != -FLT_MAX {
        var j :| 0 <= j < |ps| && hi == value(ps[j].Get(a));
        var i := KeyOccurs(ks, u[j]);
      }
    }
  }

  /** A corner carrying a given key. */
  lemma KeyOccurs(ks: seq<Vertex>, v: Vertex) returns (i: nat)
    requires v in ks
    ensures i < |ks| && ks[i] == v
  {
    i :| 0 <= i < |ks| && ks[i] == v;
  }

  // Bit patterns of some 32-bit floats.
  const POSITIVE_ZERO: Float := 0x0000_0000
  const NEGATIVE_ZERO: Float := 0x8000_0000
  const ONE: Float := 0x3F80_0000
  const QUIET_NAN: Float := 0x7FC0_0000

  /** Keys compare by bits: +0.0 and -0.0 are two vertices, while two corners
      with the same NaN bit pattern share one. */
  lemma WeldingComparesBits()
    ensures var up := Vec3(POSITIVE_ZERO, ONE, POSITIVE_ZERO);
      var a, b := Vertex(Vec3(POSITIVE_ZERO, POSITIVE_ZERO, POSITIVE_ZERO), up), Vertex(Vec3(NEGATIVE_ZERO, POSITIVE_ZERO, POSITIVE_ZERO), up);
      Unique([a, b]) == [a, b]
    ensures var up := Vec3(POSITIVE_ZERO, ONE, POSITIVE_ZERO);
      var n := Vertex(Vec3(QUIET_NAN, POSITIVE_ZERO, POSITIVE_ZERO), up);
      Unique([n, n]) == [n] && WeldedIndices([n, n]) == [0, 0]
  {
    var up := Vec3(POSITIVE_ZERO, ONE, POSITIVE_ZERO);
    var a, b := Vertex(Vec3(POSITIVE_ZERO, POSITIVE_ZERO, POSITIVE_ZERO), up), Vertex(Vec3(NEGATIVE_ZERO, POSITIVE_ZERO, POSITIVE_ZERO), up);
    assert [a, b][..1] == [a];
    var n := Vertex(Vec3(QUIET_NAN, POSITIVE_ZERO, POSITIVE_ZERO), up);
    assert [n, n][..1] == [n];
  }
}
