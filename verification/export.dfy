/**
  `export`: the model header with four reserved offsets, the frames, no
  tags, then one surface per material written with `writeWithoutOFS`; each
  reserved offset is filled in, by seeking back to it, with the position at
  which its block begins (the end of the file for the last one).
*/
module Export {
  import opened Bytes
  import opened Wrappers
  import opened Streams
  import opened Primitives
  import opened Records
  import opened Surfaces
  import opened ExportLists

  /** "IDP3" read as a little-endian integer. */
  const MD3_IDENT: int := 860898377
  const MD3_VERSION: int := 15

  /** Where the nine integers after the ident, the version and the name start. */
  const MODEL_INTS_AT: nat := 72
  const MODEL_HEADER_SIZE: nat := 108
  const FRAME_SIZE: nat := 56

  /** Positions of the offsets among those nine integers. */
  const SLOT_FRAMES: nat := 5
  const SLOT_TAGS: nat := 6
  const SLOT_SURFACES: nat := 7
  const SLOT_EOF: nat := 8

  /** What Blender guarantees of a mesh: polygons have at least three
      vertices, and a UV layer has an entry per polygon corner, so at
      least three per polygon. */
  predicate MeshInvariants(obj: MeshObject)
  {
    && (forall k :: 0 <= k < |obj.polygons| ==> |obj.polygons[k].vertices| >= 3)
    && (obj.uvLayer.Some? ==> |obj.uvLayer.value| >= 3 * |obj.polygons|)
  }

  /** FLAGS, NUM_FRAMES, NUM_TAGS, NUM_SURFACES, NUM_SKINS and the four offsets. */
  function ModelHeaderInts(nf: int, ns: int, ofsFrames: int, ofsTags: int, ofsSurfaces: int, ofsEof: int): (xs: seq<int>)
    ensures |xs| == 9
  {
    [0, nf, 0, ns, 0, ofsFrames, ofsTags, ofsSurfaces, ofsEof]
  }

  lemma {:induction false} ModelHeaderIntsS32(nf: int, ns: int, a: int, b: int, c: int, e: int)
    ensures AllS32(ModelHeaderInts(nf, ns, a, b, c, e)) <==>
            IsS32(nf) && IsS32(ns) && IsS32(a) && IsS32(b) && IsS32(c) && IsS32(e)
  {
    var xs := ModelHeaderInts(nf, ns, a, b, c, e);
    assert xs[1] == nf && xs[3] == ns && xs[5] == a && xs[6] == b && xs[7] == c && xs[8] == e;
  }

  /** The fields of the model header: ident, version, the 64-byte name and the integers. */
  function ModelHeaderFields(name: seq<byte>, xs: seq<int>): (fs: seq<Field>)
    ensures TotalWidth(fs) == MODEL_INTS_AT + 4 * |xs|
    ensures AllWritable(fs) <==> AllS32(xs)
  {
    var a := [I32(MD3_IDENT), I32(MD3_VERSION), Name(name, MAX_QPATH)];
    Fields3(I32(MD3_IDENT), I32(MD3_VERSION), Name(name, MAX_QPATH));
    Int32Emit(xs);
    TotalWidthAppend(a, Int32Fields(xs));
    AllWritableAppend(a, Int32Fields(xs));
    a + Int32Fields(xs)
  }

  /** The 72 bytes before the integers. */
  function ModelPrefix(name: seq<byte>): (r: seq<byte>)
    ensures |r| == MODEL_INTS_AT
  {
    EncodeS32(MD3_IDENT) + EncodeS32(MD3_VERSION) + PadName(name, MAX_QPATH)
  }

  lemma {:induction false} ModelHeaderBytes(name: seq<byte>, xs: seq<int>)
    requires AllS32(xs)
    ensures Emit(ModelHeaderFields(name, xs)) == ModelPrefix(name) + Int32Bytes(xs)
  {
    var a := [I32(MD3_IDENT), I32(MD3_VERSION), Name(name, MAX_QPATH)];
    Fields3(I32(MD3_IDENT), I32(MD3_VERSION), Name(name, MAX_QPATH));
    Int32Emit(xs);
    AllWritableAppend(a, Int32Fields(xs));
    EmitAppend(a, Int32Fields(xs));
  }

  /** `Frames`: one frame per shape key, in key order. */
  function Frames(obj: MeshObject): (fs: seq<Frame>)
    ensures |fs| == |KeyBlocks(obj)|
  {
    seq(|KeyBlocks(obj)|, k requires 0 <= k < |KeyBlocks(obj)| => KeyBlocks(obj)[k].frame)
  }

  function FrameRecords(frames: seq<Frame>): (rs: seq<seq<Field>>)
    ensures |rs| == |frames| && Uniform(rs, FRAME_SIZE)
    ensures forall k :: 0 <= k < |frames| ==> rs[k] == FrameFields(frames[k])
  {
    seq(|frames|, k requires 0 <= k < |frames| => FrameFields(frames[k]))
  }

  function FramesBytes(obj: MeshObject): seq<byte>
  {
    EmitRecords(FrameRecords(Frames(obj)), |KeyBlocks(obj)|)
  }

  /** Every frame can be written: its bounds and origin fit in 32 bits. */
  predicate FramesWritable(obj: MeshObject)
  {
    RecordsWritable(FrameRecords(Frames(obj)), |KeyBlocks(obj)|)
  }

  lemma {:induction false} FramesSize(obj: MeshObject)
    requires FramesWritable(obj)
    ensures |FramesBytes(obj)| == FRAME_SIZE * |KeyBlocks(obj)|
  {
    EmitRecordsLength(FrameRecords(Frames(obj)), |KeyBlocks(obj)|, FRAME_SIZE);
    TimesProduct(FRAME_SIZE, |KeyBlocks(obj)|);
  }

  /** The slot is empty or its material has no node tree, so
      `len(mat.node_tree.nodes)` raises. */
  predicate NodesMissing(obj: MeshObject, m: nat)
    requires m < |obj.materials|
  {
    obj.materials[m].None? || obj.materials[m].value.nodeTree.None?
  }

  /** The material in slot `m`. An empty slot reads here as a nameless
      material without nodes; `NodesMissing` makes the loop raise on it. */
  function MaterialOf(obj: MeshObject, m: nat): Material
    requires m < |obj.materials|
  {
    if obj.materials[m].Some? then obj.materials[m].value else Material([], None)
  }

  /** A material's node tree; a material without one reads here as an empty
      tree, and `NodesMissing` makes the loop raise on it. */
  function TreeOf(mat: Material): NodeTree
  {
    if mat.nodeTree.Some? then mat.nodeTree.value else NodeTree(0, None, 0)
  }

  /** The shaders of a surface: when the node tree has more than two nodes,
      the file name (after the last backslash) of the image of its "Image
      Texture" node, with shader index 0. */
  function Shaders(mat: Material): seq<Shader>
  {
    var tree := TreeOf(mat);
    if tree.nodeCount - 2 > 0 && tree.imageNode.Some? && tree.imageNode.value.image.Some?
    then [Shader(AfterLast(tree.imageNode.value.image.value, BACKSLASH), 0)]
    else []
  }

  /** The "Image Texture" node has no image, so reading its file path
      raises; the source only looks when there are more than two nodes. */
  predicate ImageMissing(mat: Material)
  {
    var tree := TreeOf(mat);
    tree.nodeCount - 2 > 0 && tree.imageNode.Some? && tree.imageNode.value.image.None?
  }

  /** There is no active UV layer and material `m` has a triangle, so the
      first lookup of a texture coordinate raises. */
  predicate UvMissing(obj: MeshObject, m: nat)
  {
    obj.uvLayer.None? && MaterialTriangles(obj.polygons, |obj.polygons|, m) != []
  }

  /** A value node becomes a shader whose index is the node's float value,
      which `writeS32` refuses. */
  predicate ValueNodeRaises(mat: Material)
  {
    TreeOf(mat).nodeCount - 2 > 0 && TreeOf(mat).valueNodes > 0
  }

  /** Unless the UV layer is missing, every triangle of material `m` has
      its three loops in the UV layer. */
  lemma {:induction false} MaterialLoopsCovered(obj: MeshObject, m: nat)
    requires MeshInvariants(obj)
    ensures !UvMissing(obj, m) <==> LoopsCovered(MaterialTriangles(obj.polygons, |obj.polygons|, m), UvData(obj))
  {
    var tris := MaterialTriangles(obj.polygons, |obj.polygons|, m);
    MaterialTrianglesSpec(obj.polygons, |obj.polygons|, m);
    if UvMissing(obj, m) {
      assert 3 * tris[0].poly + 2 >= |UvData(obj)|;
    }
  }

  /** The surface `export` builds for material `m`. When the UV layer is
      missing the loop raises before it has a surface to write, and the
      coordinates are left as `None` here. */
  function SurfaceFor(obj: MeshObject, m: nat): (s: Surface)
    requires MeshInvariants(obj) && m < |obj.materials|
  {
    var index := Groups(obj.polygons, |obj.materials|)[m];
    var tris := MaterialTriangles(obj.polygons, |obj.polygons|, m);
    MaterialCornersIndexed(obj.polygons, |obj.materials|, m);
    MaterialLoopsCovered(obj, m);
    var mat := MaterialOf(obj, m);
    var rt := RemapTriangles(index, tris);
    var sts := if UvMissing(obj, m) then seq(|index|, _ => None) else StsAfter(|index|, tris, rt, UvData(obj), |tris|);
    Surface(MD3_IDENT, BeforeLast(mat.name, DOT), 0,
            |KeyBlocks(obj)|, TreeOf(mat).nodeCount - 2, |index|, |tris|,
            0, 0, 0, 0, 0,
            Shaders(mat), rt, sts, Grid(index, KeyBlocks(obj)))
  }

  /** The material loop gets past surface `s` of material `mat`: when the
      node tree holds more than two nodes, the "Image Texture" node (if
      any) has an image and there is no value node; and `writeWithoutOFS`
      succeeds. A tree of at most two nodes skips both lookups. */
  predicate SurfaceWritable(mat: Material, s: Surface)
  {
    && !ImageMissing(mat)
    && !ValueNodeRaises(mat)
    && AllWritable(HeaderFields(s)) && BodyWritable(Normalized(s)) && IsS32(Normalized(s).ofsEnd)
  }

  /** The material loop gets past material `m`. */
  predicate MaterialWritable(obj: MeshObject, m: nat)
    requires MeshInvariants(obj) && m < |obj.materials|
  {
    !NodesMissing(obj, m) && !UvMissing(obj, m) && SurfaceWritable(MaterialOf(obj, m), SurfaceFor(obj, m))
  }

  /** The material loop, started at material `k`, gets past every remaining surface. */
  predicate WritableFrom(obj: MeshObject, k: nat)
    requires MeshInvariants(obj) && k <= |obj.materials|
    decreases |obj.materials| - k
  {
    k == |obj.materials| || (MaterialWritable(obj, k) && WritableFrom(obj, k + 1))
  }

  /** A property that fails at `m`, and that fails at `i` whenever it fails
      at `i + 1` below `n`, fails at every `k` up to `m`. */
  lemma {:induction false} FailsDownward(w: nat -> bool, n: nat, k: nat, m: nat)
    requires k <= m <= n && !w(m)
    requires forall i: nat :: i < n && !w(i + 1) ==> !w(i)
    ensures !w(k)
    decreases m - k
  {
    if k < m {
      FailsDownward(w, n, k + 1, m);
    }
  }

  /** Whether the material loop, started at material `i`, gets past every
      remaining surface. */
  function Reach(obj: MeshObject): nat -> bool
    requires MeshInvariants(obj)
  {
    (i: nat) => i <= |obj.materials| && WritableFrom(obj, i)
  }

  lemma {:induction false} BlockedSteps(obj: MeshObject)
    requires MeshInvariants(obj)
    ensures forall i: nat :: i < |obj.materials| && !Reach(obj)(i + 1) ==> !Reach(obj)(i)
  {
    forall i: nat | i < |obj.materials| && !Reach(obj)(i + 1)
      ensures !Reach(obj)(i)
    {
      BlockedStep(obj, i);
    }
  }

  /** The loop cannot get past an empty slot, a material without a node
      tree, a material whose triangles find no UV layer, or a material with
      more than two nodes whose "Image Texture" node has no image or which
      has a value node. */
  lemma {:induction false} BlockedAt(obj: MeshObject, m: nat)
    requires MeshInvariants(obj) && m < |obj.materials|
    requires NodesMissing(obj, m) || UvMissing(obj, m) || ImageMissing(MaterialOf(obj, m)) || ValueNodeRaises(MaterialOf(obj, m))
    ensures !WritableFrom(obj, m)
  {
  }

  /** A loop that cannot get past the materials from `k + 1` on cannot get
      past those from `k` on. */
  lemma {:induction false} BlockedStep(obj: MeshObject, k: nat)
    requires MeshInvariants(obj) && k < |obj.materials| && !WritableFrom(obj, k + 1)
    ensures !WritableFrom(obj, k)
  {
  }

  /** The surfaces of the first `n` materials, back to back. */
  function SurfacesBytes(obj: MeshObject, n: nat): seq<byte>
    requires MeshInvariants(obj) && n <= |obj.materials|
  {
    if n == 0 then [] else SurfacesBytes(obj, n - 1) + SurfaceBytes(Normalized(SurfaceFor(obj, n - 1)))
  }

  /** Where the tags, and the surfaces after them, begin. */
  function OfsTags(obj: MeshObject): nat
  {
    MODEL_HEADER_SIZE + FRAME_SIZE * |KeyBlocks(obj)|
  }

  /** The mesh has shape keys, the header and the frames are written and
      OFS_TAGS fits in 32 bits. */
  predicate HeaderAndFramesWritable(obj: MeshObject)
  {
    && obj.shapeKeys.Some?
    && IsS32(|KeyBlocks(obj)|) && IsS32(|obj.materials|)
    && FramesWritable(obj)
    && IsS32(OfsTags(obj))
  }

  /** Where the file ends. */
  function OfsEof(obj: MeshObject): nat
    requires MeshInvariants(obj)
  {
    OfsTags(obj) + |SurfacesBytes(obj, |obj.materials|)|
  }

  /** `export` runs to the end without raising: the mesh has shape keys,
      the counts fit in 32 bits, the frames can be written, every polygon
      names a material slot, every material with triangles finds a UV
      layer, every "Image Texture" node consulted has an image, every
      surface can be written, and the offsets fit in 32 bits. */
  predicate Exportable(obj: MeshObject)
    requires MeshInvariants(obj)
  {
    && HeaderAndFramesWritable(obj)
    && InRange(obj.polygons, |obj.materials|)
    && WritableFrom(obj, 0)
    && IsS32(OfsEof(obj))
  }

  /** An empty slot, a material without a node tree, a material whose
      triangles find no UV layer, or a material with more than two nodes
      whose "Image Texture" node has no image or which has a value node
      makes `export` raise. */
  lemma {:induction false} MaterialFailureFails(obj: MeshObject, m: nat)
    requires MeshInvariants(obj) && m < |obj.materials|
    requires NodesMissing(obj, m) || UvMissing(obj, m) || ImageMissing(MaterialOf(obj, m)) || ValueNodeRaises(MaterialOf(obj, m))
    ensures !Exportable(obj)
  {
    BlockedAt(obj, m);
    BlockedSteps(obj);
    FailsDownward(Reach(obj), |obj.materials|, 0, m);
  }

  /** A mesh without shape keys cannot be exported. */
  lemma {:induction false} NoShapeKeysFails(obj: MeshObject)
    requires MeshInvariants(obj) && obj.shapeKeys.None?
    ensures !Exportable(obj)
  {
  }

  /** A model file with no tags: the header, then the frame block and the
      surface block, the tags and the surfaces both starting at `t` and the
      file ending at `e`. */
  function ModelFile(name: seq<byte>, nf: int, ns: int, t: int, e: int, frames: seq<byte>, surfaces: seq<byte>): seq<byte>
    requires IsS32(nf) && IsS32(ns) && IsS32(t) && IsS32(e)
  {
    ModelHeaderIntsS32(nf, ns, MODEL_HEADER_SIZE, t, t, e);
    ModelPrefix(name) + Int32Bytes(ModelHeaderInts(nf, ns, MODEL_HEADER_SIZE, t, t, e)) + (frames + surfaces)
  }

  /** The file `export` leaves behind when it succeeds. */
  function ExportBytes(obj: MeshObject): seq<byte>
    requires MeshInvariants(obj) && HeaderAndFramesWritable(obj) && IsS32(OfsEof(obj))
  {
    ModelFile(ModelName(obj.name), |KeyBlocks(obj)|, |obj.materials|, OfsTags(obj), OfsEof(obj),
              FramesBytes(obj), SurfacesBytes(obj, |obj.materials|))
  }

  // ---------------------------------------------------------------------
  // The writer

  /** Seeks back to offset slot `k` of the model header, stores the cursor
      position there, and seeks forward again. */
  method PatchModelOffset(f: Stream, k: nat, ghost pre: seq<byte>, ghost xs: seq<int>, ghost body: seq<byte>)
      returns (ok: bool)
    requires |pre| == MODEL_INTS_AT && k < |xs| && AllS32(xs)
    requires f.data == pre + Int32Bytes(xs) + body && f.pos == |f.data|
    modifies f
    ensures ok == IsS32(old(f.pos))
    ensures ok ==> f.data == pre + Int32Bytes(xs[k := old(f.pos)]) + body && f.pos == |f.data|
  {
    var current := f.Tell();
    ghost var before := f.data;
    var _ := f.Seek(MODEL_INTS_AT + 4 * k);
    ok := WriteS32(f, current);
    if !ok {
      return;
    }
    assert f.data == Overwrite(before, 0 + |pre| + 4 * k, EncodeS32(current));
    PatchModelSlot(pre, xs, body, k, current);
    var _ := f.Seek(current);
  }

  /** Overwriting integer `k` of a file that starts at the header yields the file with that integer replaced. */
  lemma {:induction false} PatchModelSlot(pre: seq<byte>, xs: seq<int>, body: seq<byte>, k: nat, x: int)
    requires k < |xs| && AllS32(xs) && IsS32(x)
    ensures AllS32(xs[k := x])
    ensures Overwrite(pre + Int32Bytes(xs) + body, 0 + |pre| + 4 * k, EncodeS32(x)) == pre + Int32Bytes(xs[k := x]) + body
    ensures |pre + Int32Bytes(xs[k := x]) + body| == |pre + Int32Bytes(xs) + body|
  {
    var e: seq<byte> := [];
    PatchInt32(e, 0, pre, xs, body, k, x);
    OverwriteAtEnd(e, pre + Int32Bytes(xs) + body);
    OverwriteAtEnd(e, pre + Int32Bytes(xs[k := x]) + body);
    assert e + (pre + Int32Bytes(xs) + body) == pre + Int32Bytes(xs) + body;
    assert e + (pre + Int32Bytes(xs[k := x]) + body) == pre + Int32Bytes(xs[k := x]) + body;
  }

  /** Every offset slot of the model header, set on its own. */
  lemma {:induction false} ModelHeaderIntsSet(nf: int, ns: int, a: int, b: int, c: int, e: int, x: int)
    ensures ModelHeaderInts(nf, ns, a, b, c, e)[SLOT_FRAMES := x] == ModelHeaderInts(nf, ns, x, b, c, e)
    ensures ModelHeaderInts(nf, ns, a, b, c, e)[SLOT_TAGS := x] == ModelHeaderInts(nf, ns, a, x, c, e)
    ensures ModelHeaderInts(nf, ns, a, b, c, e)[SLOT_SURFACES := x] == ModelHeaderInts(nf, ns, a, b, x, e)
    ensures ModelHeaderInts(nf, ns, a, b, c, e)[SLOT_EOF := x] == ModelHeaderInts(nf, ns, a, b, c, x)
  {
  }

  /** The header with its four offsets left at 0, then OFS_FRAMES filled in. */
  method WriteModelHeader(f: Stream, name: seq<byte>, nf: int, ns: int) returns (ok: bool)
    requires f.data == [] && f.pos == 0
    modifies f
    ensures ok == (IsS32(nf) && IsS32(ns))
    ensures ok ==> AllS32(ModelHeaderInts(nf, ns, MODEL_HEADER_SIZE, 0, 0, 0))
    ensures ok ==> f.data == ModelPrefix(name) + Int32Bytes(ModelHeaderInts(nf, ns, MODEL_HEADER_SIZE, 0, 0, 0))
    ensures ok ==> f.pos == |f.data|
  {
    var pre := ModelPrefix(name);
    var xs := ModelHeaderInts(nf, ns, 0, 0, 0, 0);
    ModelHeaderIntsS32(nf, ns, 0, 0, 0, 0);
    ok := WriteFields(f, ModelHeaderFields(name, xs));
    if !ok {
      return;
    }
    ModelHeaderBytes(name, xs);
    OverwriteAtEnd([], pre + Int32Bytes(xs));
    assert [] + (pre + Int32Bytes(xs)) == pre + Int32Bytes(xs) + [];
    ok := PatchModelOffset(f, SLOT_FRAMES, pre, xs, []);
    ModelHeaderIntsSet(nf, ns, 0, 0, 0, 0, MODEL_HEADER_SIZE);
    assert pre + Int32Bytes(xs[SLOT_FRAMES := MODEL_HEADER_SIZE]) + [] == pre + Int32Bytes(xs[SLOT_FRAMES := MODEL_HEADER_SIZE]);
  }

  /** The header with OFS_FRAMES filled in, the frames, then OFS_TAGS and
      OFS_SURFACES filled in (there are no tags). */
  method WriteHeaderAndFrames(f: Stream, obj: MeshObject) returns (ok: bool)
    requires f.data == [] && f.pos == 0
    modifies f
    ensures ok == HeaderAndFramesWritable(obj)
    ensures ok ==> f.data == ModelPrefix(ModelName(obj.name))
                             + Int32Bytes(ModelHeaderInts(|KeyBlocks(obj)|, |obj.materials|, MODEL_HEADER_SIZE, OfsTags(obj), OfsTags(obj), 0))
                             + FramesBytes(obj)
    ensures ok ==> f.pos == |f.data|
  {
    if obj.shapeKeys.None? {
      // `obj.data.shape_keys.key_blocks` with no shape keys raises
      return false;
    }
    var nf, ns := |KeyBlocks(obj)|, |obj.materials|;
    var pre := ModelPrefix(ModelName(obj.name));
    ok := WriteModelHeader(f, ModelName(obj.name), nf, ns);
    if !ok {
      return;
    }
    ghost var xs := ModelHeaderInts(nf, ns, MODEL_HEADER_SIZE, 0, 0, 0);
    ghost var head := pre + Int32Bytes(xs);
    ok := WriteAll(f, FrameRecords(Frames(obj)));
    if !ok {
      return;
    }
    OverwriteAtEnd(head, FramesBytes(obj));
    FramesSize(obj);
    assert f.pos == OfsTags(obj);
    ok := PatchModelOffset(f, SLOT_TAGS, pre, xs, FramesBytes(obj));
    if !ok {
      return;
    }
    ModelHeaderIntsSet(nf, ns, MODEL_HEADER_SIZE, 0, 0, 0, OfsTags(obj));
    ghost var ys := ModelHeaderInts(nf, ns, MODEL_HEADER_SIZE, OfsTags(obj), 0, 0);
    assert f.pos == OfsTags(obj);
    ok := PatchModelOffset(f, SLOT_SURFACES, pre, ys, FramesBytes(obj));
    ModelHeaderIntsSet(nf, ns, MODEL_HEADER_SIZE, OfsTags(obj), 0, 0, OfsTags(obj));
  }

  /** The body of the material loop, up to the call of `writeWithoutOFS`:
      the counts, `mat_triangles`, `sur_triangles`, the shaders, `sts` and
      `xyzs` of material `id`, which is material `numMat`. It raises when
      the image of the "Image Texture" node is missing or when a triangle
      finds no UV layer. */
  method MakeSurface(obj: MeshObject, indexes: seq<seq<nat>>, id: nat, numMat: nat) returns (sur: Option<Surface>)
    requires MeshInvariants(obj) && numMat < |obj.materials|
    requires indexes == Groups(obj.polygons, |obj.materials|) && id == numMat
    ensures sur.None? <==> NodesMissing(obj, numMat) || ImageMissing(MaterialOf(obj, numMat)) || UvMissing(obj, numMat)
    ensures sur.Some? ==> sur.value == SurfaceFor(obj, numMat)
  {
    var numFrames := |KeyBlocks(obj)|;
    if NodesMissing(obj, id) {
      return None;
    }
    var mat := obj.materials[id].value;
    var tree := mat.nodeTree.value;
    var numShaders := tree.nodeCount - 2;
    var index := indexes[numMat];
    var numVerts := |index|;
    var matTriangles := MaterialTriangles(obj.polygons, |obj.polygons|, numMat);
    MaterialCornersIndexed(obj.polygons, |obj.materials|, numMat);
    MaterialLoopsCovered(obj, numMat);
    var surTriangles := RemapTriangles(index, matTriangles);
    var numTriangles := |matTriangles|;
    var shaders: seq<Shader> := [];
    if numShaders > 0 {
      if tree.imageNode.Some? {
        if tree.imageNode.value.image.None? {
          return None;
        }
        shaders := shaders + [Shader(AfterLast(tree.imageNode.value.image.value, BACKSLASH), 0)];
      }
    }
    if obj.uvLayer.None? && matTriangles != [] {
      return None;
    }
    assert !UvMissing(obj, numMat) && shaders == Shaders(mat);
    var sts := BuildSts(indexes[id], matTriangles, UvData(obj));
    GroupContents(obj.polygons, |obj.materials|, numMat, 0);
    var xyzs := BuildGrid(index, KeyBlocks(obj));
    sur := Some(Surface(MD3_IDENT, BeforeLast(mat.name, DOT), 0, numFrames, numShaders, numVerts, numTriangles,
                        0, 0, 0, 0, 0, shaders, surTriangles, sts, xyzs));
  }

  /** Writes the surface of material `m` at the end of the file. */
  method ExportSurface(f: Stream, obj: MeshObject, indexes: seq<seq<nat>>, m: nat, ghost pre: seq<byte>)
      returns (ok: bool)
    requires MeshInvariants(obj) && m < |obj.materials|
    requires indexes == Groups(obj.polygons, |obj.materials|)
    requires f.data == pre + SurfacesBytes(obj, m) && f.pos == |f.data|
    modifies f
    ensures ok == MaterialWritable(obj, m)
    ensures ok ==> f.data == pre + SurfacesBytes(obj, m + 1) && f.pos == |f.data|
  {
    var made := MakeSurface(obj, indexes, m, m);
    if made.None? || ValueNodeRaises(MaterialOf(obj, m)) {
      return false;
    }
    var sur := made.value;
    ghost var d := f.data;
    ok := WriteWithoutOfs(f, sur);
    if !ok {
      return;
    }
    SurfaceAppended(d, sur);
    AppendAssoc(pre, SurfacesBytes(obj, m), SurfaceBytes(Normalized(sur)));
  }

  lemma {:induction false} SurfaceAppended(d: seq<byte>, s: Surface)
    requires AllWritable(HeaderFields(s)) && BodyWritable(Normalized(s)) && IsS32(Normalized(s).ofsEnd)
    ensures Overwrite(d, |d|, SurfaceBytes(Normalized(s))) == d + SurfaceBytes(Normalized(s))
    ensures |SurfaceBytes(Normalized(s))| == Normalized(s).ofsEnd
  {
    OverwriteAtEnd(d, SurfaceBytes(Normalized(s)));
    NormalizedHeader(s);
    NormalizedLayout(s);
  }

  /** The material loop: one surface per material, back to back. */
  method WriteSurfaces(f: Stream, obj: MeshObject, indexes: seq<seq<nat>>, ghost pre: seq<byte>)
      returns (ok: bool)
    requires MeshInvariants(obj) && indexes == Groups(obj.polygons, |obj.materials|)
    requires f.data == pre && f.pos == |f.data|
    modifies f
    ensures ok == WritableFrom(obj, 0)
    ensures ok ==> f.data == pre + SurfacesBytes(obj, |obj.materials|) && f.pos == |f.data|
  {
    var numMat := 0;
    assert pre + SurfacesBytes(obj, 0) == pre;
    while numMat < |obj.materials|
      invariant numMat <= |obj.materials|
      invariant WritableFrom(obj, 0) == WritableFrom(obj, numMat)
      invariant f.data == pre + SurfacesBytes(obj, numMat) && f.pos == |f.data|
    {
      ok := ExportSurface(f, obj, indexes, numMat, pre);
      if !ok {
        return;
      }
      numMat := numMat + 1;
    }
    ok := true;
  }

  /** `export(obj, filepath)` writing to a freshly truncated file. It fails
      (raises) when `Exportable` does not hold; otherwise the file holds
      `ExportBytes(obj)`. */
  method Export(obj: MeshObject) returns (file: Stream, ok: bool)
    requires MeshInvariants(obj)
    ensures ok == Exportable(obj)
    ensures ok ==> file.data == ExportBytes(obj) && file.pos == |file.data|
  {
    file := new Stream.Empty();
    ok := WriteHeaderAndFrames(file, obj);
    if !ok {
      return;
    }
    var g := GroupByMaterial(|obj.materials|, obj.polygons);
    if g.None? {
      ok := false;
      return;
    }
    var nf, ns, t := |KeyBlocks(obj)|, |obj.materials|, OfsTags(obj);
    var pre := ModelPrefix(ModelName(obj.name));
    ghost var xs := ModelHeaderInts(nf, ns, MODEL_HEADER_SIZE, t, t, 0);
    ghost var frames := FramesBytes(obj);
    ModelHeaderIntsS32(nf, ns, MODEL_HEADER_SIZE, t, t, 0);
    ok := WriteSurfaces(file, obj, g.value, pre + Int32Bytes(xs) + frames);
    if !ok {
      return;
    }
    ghost var body := frames + SurfacesBytes(obj, ns);
    AppendRegroup(pre, Int32Bytes(xs), frames, SurfacesBytes(obj, ns));
    ExportLength(obj, pre, xs, body);
    ok := PatchModelOffset(file, SLOT_EOF, pre, xs, body);
    if ok {
      ExportTail(ModelName(obj.name), nf, ns, t, OfsEof(obj), xs, frames, SurfacesBytes(obj, ns));
    }
  }

  /** The end-of-file offset `export` stores is `OfsEof`. */
  lemma {:induction false} ExportLength(obj: MeshObject, pre: seq<byte>, xs: seq<int>, body: seq<byte>)
    requires MeshInvariants(obj) && HeaderAndFramesWritable(obj)
    requires pre == ModelPrefix(ModelName(obj.name)) && |xs| == 9 && AllS32(xs)
    requires body == FramesBytes(obj) + SurfacesBytes(obj, |obj.materials|)
    ensures |pre + Int32Bytes(xs) + body| == OfsEof(obj)
  {
    FramesSize(obj);
  }

  /** Storing the end offset completes the model file. */
  lemma {:induction false} ExportTail(name: seq<byte>, nf: int, ns: int, t: int, e: int, xs: seq<int>, frames: seq<byte>, surfaces: seq<byte>)
    requires IsS32(nf) && IsS32(ns) && IsS32(t) && IsS32(e)
    requires xs == ModelHeaderInts(nf, ns, MODEL_HEADER_SIZE, t, t, 0)
    ensures AllS32(xs[SLOT_EOF := e])
    ensures ModelPrefix(name) + Int32Bytes(xs[SLOT_EOF := e]) + (frames + surfaces) == ModelFile(name, nf, ns, t, e, frames, surfaces)
  {
    ModelHeaderIntsSet(nf, ns, MODEL_HEADER_SIZE, t, t, 0, e);
    ModelHeaderIntsS32(nf, ns, MODEL_HEADER_SIZE, t, t, e);
  }
}
