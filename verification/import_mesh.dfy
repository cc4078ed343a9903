/**
  The first loop over the surfaces in `main` of import_md3.py. It feeds
  the module-level lists `verts`, `edges` and `faces`. Every surface adds
  the positions of its frame-0 vertices. Then each triangle adds one face
  and three edges, with indices shifted by the `NUM_VERTS` header fields
  of the surfaces before it. The lists are never cleared, so a second
  import appends to what the first left.
*/
module ImportMesh {
  import opened Bytes
  import opened Records
  import opened Surfaces
  import opened Wrappers

  datatype Edge = Edge(a: int, b: int)

  /** The module-level lists of import_md3.py. */
  class MeshBuffers {
    var verts: seq<Vec3>
    var edges: seq<Edge>
    var faces: seq<Triangle>

    /** The lists as the module starts: empty. */
    constructor()
      ensures verts == [] && edges == [] && faces == []
    {
      verts, edges, faces := [], [], [];
    }
  }

  /** `(xy.x, xy.y, xy.z)` of a vertex; the scale factor applied to them
      is a float and is not modelled. */
  function Position(v: Vertex): Vec3
  {
    Vec3(v.x, v.y, v.z)
  }

  function Positions(vs: seq<Vertex>): seq<Vec3>
  {
    seq(|vs|, k requires 0 <= k < |vs| => Position(vs[k]))
  }

  /** The index of the first missing entry of a row, or its length when
      every entry is there. `xy.x` on a missing entry raises. */
  function FirstGap(row: seq<Option<Vertex>>): (k: nat)
    ensures k <= |row|
    ensures forall j :: 0 <= j < k ==> row[j].Some?
    ensures k < |row| ==> row[k].None?
    decreases |row|
  {
    if row == [] || row[0].None? then 0 else 1 + FirstGap(row[1..])
  }

  /** The entries of a row before its first gap. */
  function Present(row: seq<Option<Vertex>>): seq<Vertex>
  {
    seq(FirstGap(row), k requires 0 <= k < FirstGap(row) => row[k].value)
  }

  /** A triangle's indices shifted by `ofs`. */
  function Shift(t: Triangle, ofs: int): Triangle
  {
    Triangle(t.a + ofs, t.b + ofs, t.c + ofs)
  }

  function Faces(ts: seq<Triangle>, ofs: int): seq<Triangle>
  {
    seq(|ts|, k requires 0 <= k < |ts| => Shift(ts[k], ofs))
  }

  /** The three edges of a face: (a, b), (b, c), (c, a). */
  function FaceEdges(f: Triangle): seq<Edge>
  {
    [Edge(f.a, f.b), Edge(f.b, f.c), Edge(f.c, f.a)]
  }

  function EdgesOf(fs: seq<Triangle>): seq<Edge>
    decreases |fs|
  {
    if fs == [] then [] else EdgesOf(fs[..|fs| - 1]) + FaceEdges(fs[|fs| - 1])
  }

  /** The edges come three per face, in face order. */
  lemma {:induction false} EdgesOfFaces(fs: seq<Triangle>)
    ensures |EdgesOf(fs)| == 3 * |fs|
    ensures forall j, e :: 0 <= j < |fs| && 0 <= e < 3 ==> EdgesOf(fs)[3 * j + e] == FaceEdges(fs[j])[e]
    decreases |fs|
  {
    if fs != [] {
      var n := |fs| - 1;
      EdgesOfFaces(fs[..n]);
      var front := EdgesOf(fs[..n]);
      forall j, e | 0 <= j < |fs| && 0 <= e < 3
        ensures EdgesOf(fs)[3 * j + e] == FaceEdges(fs[j])[e]
      {
        if j < n {
          assert EdgesOf(fs)[3 * j + e] == front[3 * j + e];
        }
      }
    }
  }

  lemma {:induction false} EdgesSnoc(fs: seq<Triangle>, f: Triangle)
    ensures EdgesOf(fs + [f]) == EdgesOf(fs) + FaceEdges(f)
  {
    assert (fs + [f])[..|fs|] == fs;
  }

  lemma {:induction false} EdgesAppend(fs: seq<Triangle>, gs: seq<Triangle>)
    ensures EdgesOf(fs + gs) == EdgesOf(fs) + EdgesOf(gs)
    decreases |gs|
  {
    if gs != [] {
      var n := |gs| - 1;
      assert fs + gs == (fs + gs[..n]) + [gs[n]];
      EdgesSnoc(fs + gs[..n], gs[n]);
      EdgesAppend(fs, gs[..n]);
      assert gs == gs[..n] + [gs[n]];
      EdgesSnoc(gs[..n], gs[n]);
      AppendAssoc(EdgesOf(fs), EdgesOf(gs[..n]), FaceEdges(gs[n]));
    } else {
      assert fs + gs == fs;
    }
  }

  /** What the loop appends for the surfaces seen so far, and whether it
      got through them. */
  datatype Appended = Appended(verts: seq<Vec3>, edges: seq<Edge>, faces: seq<Triangle>, ok: bool)

  /** What the loop uses of a surface: its frame-0 row, if it has one,
      its triangles and its `NUM_VERTS` header field. */
  datatype MeshPart = MeshPart(row: Option<seq<Option<Vertex>>>, triangles: seq<Triangle>, numVerts: int)

  function PartOf(s: Surface): MeshPart
  {
    MeshPart(if s.xyzs == [] then None else Some(s.xyzs[0]), s.triangles, s.numVerts)
  }

  function Parts(ss: seq<Surface>): (ms: seq<MeshPart>)
    ensures |ms| == |ss|
    ensures forall k :: 0 <= k < |ss| ==> ms[k] == PartOf(ss[k])
  {
    seq(|ss|, k requires 0 <= k < |ss| => PartOf(ss[k]))
  }

  /** What one surface appends with vertex offset `ofs`. `sur.xyzs[0]`
      raises for a surface without frames, and `xy.x` for a missing
      entry, after the entries before it were appended. */
  function PartData(m: MeshPart, ofs: int): Appended
  {
    if m.row.None? then Appended([], [], [], false)
    else
      var vs := Present(m.row.value);
      if |vs| < |m.row.value| then Appended(Positions(vs), [], [], false)
      else
        var fs := Faces(m.triangles, ofs);
        Appended(Positions(vs), EdgesOf(fs), fs, true)
  }

  /** The offset for the next surface: the sum of the `NUM_VERTS` header
      fields so far, which need not match the rows actually read. */
  function NumVertsSum(ms: seq<MeshPart>): int
    decreases |ms|
  {
    if ms == [] then 0 else NumVertsSum(ms[..|ms| - 1]) + ms[|ms| - 1].numVerts
  }

  /** What the loop appends for the surfaces `ms`: each in turn, until
      one fails. */
  function ModelData(ms: seq<MeshPart>): Appended
    decreases |ms|
  {
    if ms == [] then Appended([], [], [], true)
    else
      var prev := ModelData(ms[..|ms| - 1]);
      if !prev.ok then prev else Then(prev, PartData(ms[|ms| - 1], NumVertsSum(ms[..|ms| - 1])))
  }

  /** `a` appended after `prev`. */
  function Then(prev: Appended, a: Appended): Appended
  {
    Appended(prev.verts + a.verts, prev.edges + a.edges, prev.faces + a.faces, a.ok)
  }

  lemma {:induction false} ModelDataStep(ms: seq<MeshPart>, i: nat, prev: Appended, ofs: int)
    requires i < |ms| && prev == ModelData(ms[..i]) && prev.ok && ofs == NumVertsSum(ms[..i])
    ensures ModelData(ms[..i + 1]) == Then(prev, PartData(ms[i], ofs))
    ensures NumVertsSum(ms[..i + 1]) == ofs + ms[i].numVerts
  {
    assert ms[..i + 1][..i] == ms[..i];
  }

  /** After a failure nothing more is appended. */
  lemma {:induction false} ModelDataStops(ms: seq<MeshPart>, k: nat)
    requires k <= |ms| && !ModelData(ms[..k]).ok
    ensures ModelData(ms) == ModelData(ms[..k])
    decreases |ms|
  {
    if k < |ms| {
      var n := |ms| - 1;
      assert ms[..n][..k] == ms[..k];
      ModelDataStops(ms[..n], k);
    } else {
      assert ms[..k] == ms;
    }
  }

  /** A surface the loop gets through: it has a frame-0 row and every
      entry of that row is present. */
  predicate PartOk(m: MeshPart)
  {
    m.row.Some? && FirstGap(m.row.value) == |m.row.value|
  }

  /** The loop gets through exactly when every surface does. */
  lemma {:induction false} ModelDataOk(ms: seq<MeshPart>)
    ensures ModelData(ms).ok <==> forall k :: 0 <= k < |ms| ==> PartOk(ms[k])
    decreases |ms|
  {
    if ms != [] {
      var n := |ms| - 1;
      ModelDataOk(ms[..n]);
      assert forall k :: 0 <= k < n ==> ms[..n][k] == ms[k];
    }
  }

  /** What the surfaces before `k` append comes first. */
  lemma {:induction false} ModelDataPrefix(ms: seq<MeshPart>, k: nat)
    requires k <= |ms| && ModelData(ms).ok
    ensures ModelData(ms[..k]).ok
    ensures ModelData(ms[..k]).verts <= ModelData(ms).verts
    ensures ModelData(ms[..k]).edges <= ModelData(ms).edges
    ensures ModelData(ms[..k]).faces <= ModelData(ms).faces
    decreases |ms|
  {
    if k < |ms| {
      var n := |ms| - 1;
      assert ms[..n][..k] == ms[..k];
      ModelDataPrefix(ms[..n], k);
    } else {
      assert ms[..k] == ms;
    }
  }

  /** Triangle `t` of surface `k` becomes the face after those of the
      surfaces before it, shifted by their `NUM_VERTS` fields. */
  lemma {:induction false} ModelDataFaceAt(ms: seq<MeshPart>, k: nat, t: nat)
    requires ModelData(ms).ok && k < |ms| && t < |ms[k].triangles|
    ensures |ModelData(ms[..k]).faces| + t < |ModelData(ms).faces|
    ensures ModelData(ms).faces[|ModelData(ms[..k]).faces| + t] == Shift(ms[k].triangles[t], NumVertsSum(ms[..k]))
  {
    ModelDataPrefix(ms, k);
    ModelDataPrefix(ms, k + 1);
    ModelDataStep(ms, k, ModelData(ms[..k]), NumVertsSum(ms[..k]));
  }

  /** Entry `j` of the frame-0 row of surface `k` becomes the vertex after
      those of the surfaces before it. */
  lemma {:induction false} ModelDataVertAt(ms: seq<MeshPart>, k: nat, j: nat)
    requires ModelData(ms).ok && k < |ms| && ms[k].row.Some? && j < |ms[k].row.value|
    ensures |ModelData(ms[..k]).verts| + j < |ModelData(ms).verts|
    ensures ms[k].row.value[j].Some?
    ensures ModelData(ms).verts[|ModelData(ms[..k]).verts| + j] == Position(ms[k].row.value[j].value)
  {
    ModelDataPrefix(ms, k);
    ModelDataPrefix(ms, k + 1);
    ModelDataStep(ms, k, ModelData(ms[..k]), NumVertsSum(ms[..k]));
  }

  /** The header counts agree with the rows read. */
  predicate CountsAgree(ms: seq<MeshPart>)
  {
    forall k :: 0 <= k < |ms| ==> ms[k].row.Some? && ms[k].numVerts == |ms[k].row.value|
  }

  /** When the counts agree, the offset before surface `k` is the number of
      vertices appended before it. */
  lemma {:induction false} OffsetCountsVerts(ms: seq<MeshPart>, k: nat)
    requires k <= |ms| && CountsAgree(ms) && ModelData(ms[..k]).ok
    ensures NumVertsSum(ms[..k]) == |ModelData(ms[..k]).verts|
    decreases k
  {
    if k > 0 {
      assert ms[..k][..k - 1] == ms[..k - 1];
      OffsetCountsVerts(ms, k - 1);
      ModelDataStep(ms, k - 1, ModelData(ms[..k - 1]), NumVertsSum(ms[..k - 1]));
    }
  }

  /** Into an empty mesh, and with header counts that agree with the rows,
      every face points at the vertices of its own surface: corner `a` of
      triangle `t` of surface `k` is the position of entry `a` of that
      surface's frame-0 row. */
  lemma {:induction false} FaceCornerIsOwnVertex(ms: seq<MeshPart>, k: nat, t: nat)
    requires ModelData(ms).ok && CountsAgree(ms)
    requires k < |ms| && t < |ms[k].triangles|
    requires 0 <= ms[k].triangles[t].a < ms[k].numVerts
    ensures |ModelData(ms[..k]).faces| + t < |ModelData(ms).faces|
    ensures ms[k].row.value[ms[k].triangles[t].a].Some?
    ensures 0 <= ModelData(ms).faces[|ModelData(ms[..k]).faces| + t].a < |ModelData(ms).verts|
    ensures ModelData(ms).verts[ModelData(ms).faces[|ModelData(ms[..k]).faces| + t].a]
         == Position(ms[k].row.value[ms[k].triangles[t].a].value)
  {
    ModelDataFaceAt(ms, k, t);
    ModelDataPrefix(ms, k);
    OffsetCountsVerts(ms, k);
    ModelDataVertAt(ms, k, ms[k].triangles[t].a);
  }

  /** The edges are those of the faces, three per face. */
  lemma {:induction false} ModelDataEdges(ms: seq<MeshPart>)
    ensures ModelData(ms).edges == EdgesOf(ModelData(ms).faces)
    decreases |ms|
  {
    if ms != [] {
      var n := |ms| - 1;
      ModelDataEdges(ms[..n]);
      var prev := ModelData(ms[..n]);
      if prev.ok {
        EdgesAppend(prev.faces, PartData(ms[n], NumVertsSum(ms[..n])).faces);
      }
    }
  }

  /** `for xy in sur.xyzs[0]: verts.append(...)`. */
  method AppendVerts(mesh: MeshBuffers, row: seq<Option<Vertex>>) returns (ok: bool)
    modifies mesh`verts
    ensures ok == (FirstGap(row) == |row|)
    ensures mesh.verts == old(mesh.verts) + Positions(Present(row))
  {
    var i := 0;
    while i < |row|
      invariant i <= |row|
      invariant forall j :: 0 <= j < i ==> row[j].Some?
      invariant mesh.verts == old(mesh.verts) + seq(i, k requires 0 <= k < i && row[k].Some? => Position(row[k].value))
    {
      if row[i].None? {
        assert FirstGap(row) == i;
        assert Positions(Present(row)) == seq(i, k requires 0 <= k < i && row[k].Some? => Position(row[k].value));
        return false;
      }
      ghost var before := seq(i, k requires 0 <= k < i && row[k].Some? => Position(row[k].value));
      mesh.verts := mesh.verts + [Position(row[i].value)];
      assert before + [Position(row[i].value)] == seq(i + 1, k requires 0 <= k < i + 1 && row[k].Some? => Position(row[k].value));
      i := i + 1;
    }
    assert FirstGap(row) == |row|;
    assert Positions(Present(row)) == seq(i, k requires 0 <= k < i && row[k].Some? => Position(row[k].value));
    ok := true;
  }

  /** The triangle loop: three edges and a face per triangle. */
  method AppendFaces(mesh: MeshBuffers, ts: seq<Triangle>, ofs: int)
    modifies mesh`edges, mesh`faces
    ensures mesh.faces == old(mesh.faces) + Faces(ts, ofs)
    ensures mesh.edges == old(mesh.edges) + EdgesOf(Faces(ts, ofs))
  {
    var i := 0;
    while i < |ts|
      invariant i <= |ts|
      invariant mesh.faces == old(mesh.faces) + Faces(ts[..i], ofs)
      invariant mesh.edges == old(mesh.edges) + EdgesOf(Faces(ts[..i], ofs))
    {
      var t := ts[i];
      ghost var fs := Faces(ts[..i], ofs);
      var face := Triangle(t.a + ofs, t.b + ofs, t.c + ofs);
      mesh.edges := mesh.edges + [Edge(face.a, face.b), Edge(face.b, face.c), Edge(face.c, face.a)];
      mesh.faces := mesh.faces + [face];
      assert Faces(ts[..i + 1], ofs) == fs + [face];
      EdgesSnoc(fs, face);
      i := i + 1;
    }
    assert ts[..i] == ts;
  }

  /** The body of the model-data loop for one surface. */
  method AppendPart(mesh: MeshBuffers, m: MeshPart, ofs: int) returns (ok: bool)
    modifies mesh
    ensures ok == PartData(m, ofs).ok
    ensures mesh.verts == old(mesh.verts) + PartData(m, ofs).verts
    ensures mesh.edges == old(mesh.edges) + PartData(m, ofs).edges
    ensures mesh.faces == old(mesh.faces) + PartData(m, ofs).faces
  {
    if m.row.None? {
      return false;
    }
    ok := AppendVerts(mesh, m.row.value);
    if ok {
      AppendFaces(mesh, m.triangles, ofs);
    }
  }

  /** The model-data loop of `main` over the surfaces read. */
  method AppendModelData(mesh: MeshBuffers, ms: seq<MeshPart>) returns (ok: bool)
    modifies mesh
    ensures ok == ModelData(ms).ok
    ensures mesh.verts == old(mesh.verts) + ModelData(ms).verts
    ensures mesh.edges == old(mesh.edges) + ModelData(ms).edges
    ensures mesh.faces == old(mesh.faces) + ModelData(ms).faces
  {
    ghost var acc := ModelData(ms[..0]);
    var ofs := 0;
    var i := 0;
    while i < |ms|
      invariant i <= |ms|
      invariant acc == ModelData(ms[..i]) && acc.ok
      invariant ofs == NumVertsSum(ms[..i])
      invariant mesh.verts == old(mesh.verts) + acc.verts
      invariant mesh.edges == old(mesh.edges) + acc.edges
      invariant mesh.faces == old(mesh.faces) + acc.faces
    {
      ModelDataStep(ms, i, acc, ofs);
      ghost var a := PartData(ms[i], ofs);
      ok := AppendPart(mesh, ms[i], ofs);
      AppendAssoc(old(mesh.verts), acc.verts, a.verts);
      AppendAssoc(old(mesh.edges), acc.edges, a.edges);
      AppendAssoc(old(mesh.faces), acc.faces, a.faces);
      if !ok {
        ModelDataStops(ms, i + 1);
        return;
      }
      acc := Then(acc, a);
      ofs := ofs + ms[i].numVerts;
      i := i + 1;
    }
    assert ms[..i] == ms;
    ok := true;
  }
}
