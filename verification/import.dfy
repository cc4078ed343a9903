/**
  `main` of import_md3.py as a whole. It reads the model, appends its
  frame-0 geometry to the module-level lists, and names the object after
  the model name up to its last dot. Then it builds the shape keys, the
  UV layer, the materials with their polygon indices, and the custom
  normals. The Blender objects are described by what the importer puts
  into them.
*/
module Import {
  import opened Bytes
  import opened Wrappers
  import opened Records
  import opened Surfaces
  import opened ImportRead
  import opened ImportMesh
  import opened ImportKeys
  import opened ImportDress
  import opened Primitives
  import ExportLists

  /** The object's name, `NAME.rsplit('.', 1)[0]`: the model name up to
      its last dot. */
  function ObjectName(name: seq<byte>): seq<byte>
  {
    ExportLists.BeforeLast(name, ExportLists.DOT)
  }

  /** The name field of an exported model, read back, names the object as
      the exported object was named up to its last dot, as long as that
      stem and ".md3" fit in the 64-byte field. */
  lemma {:induction false} ObjectNameOfExport(objName: seq<byte>)
    requires |ExportLists.BeforeLast(objName, ExportLists.DOT)| + 4 <= MAX_QPATH
    ensures ObjectName(PadName(ExportLists.ModelName(objName), MAX_QPATH)) == ExportLists.BeforeLast(objName, ExportLists.DOT)
  {
    var stem := ExportLists.BeforeLast(objName, ExportLists.DOT);
    var field := PadName(ExportLists.ModelName(objName), MAX_QPATH);
    var ext := field[|stem| + 1..];
    assert field == stem + [ExportLists.DOT] + ext;
    assert forall j :: 0 <= j < |ext| ==> ext[j] == field[|stem| + 1 + j];
    assert ExportLists.DOT !in ext;
    ExportLists.BeforeLastDropsSuffix(stem, ExportLists.DOT, ext);
  }

  /** A fresh mesh's polygons all have material index 0. */
  function Zeros(n: nat): seq<int>
  {
    seq(n, q => 0)
  }

  /** What the importer uses of the surfaces read, loop by loop. */
  datatype Views = Views(mesh: seq<MeshPart>, grids: seq<Grid>, dress: seq<DressPart>)

  function ViewsOf(ss: seq<Surface>): Views
  {
    Views(Parts(ss), Grids(ss), DressParts(ss))
  }

  /** What the Blender side receives after the model-data loop: the shape
      keys, the UV layer and materials, and the custom normals. */
  datatype BlenderObject = BlenderObject(shapeKeys: ShapeKeys, dressing: Dressing, normals: seq<int>)

  /** The Blender side built from `frames` and the views `v`, with lists
      that held `vertsBefore` vertices and `facesBefore` faces. */
  function BlenderObjectOf(frames: seq<Frame>, v: Views, vertsBefore: nat, facesBefore: nat): Option<BlenderObject>
  {
    var data := ModelData(v.mesh);
    if !data.ok then None
    else
      var keys := ShapeKeysOf(frames, v.grids, vertsBefore + |data.verts|);
      var dressing := DressOf(v.dress, Zeros(facesBefore + |data.faces|));
      var normals := NormalsOf(v.mesh);
      if keys.Some? && dressing.Some? && normals.Some?
      then Some(BlenderObject(keys.value, dressing.value, normals.value))
      else None
  }

  /** What an import yields: the object's name, the model read and what
      was built from it. */
  datatype Imported = Imported(objectName: seq<byte>, model: Model, obj: BlenderObject)

  /** The import of the file `d` into lists that already hold
      `vertsBefore` vertices and `facesBefore` faces. The object's mesh
      is built from the whole lists. */
  function ImportOf(d: seq<byte>, vertsBefore: nat, facesBefore: nat): Option<Imported>
  {
    match ModelAt(d)
    case None => None
    case Some(model) =>
      match BlenderObjectOf(model.frames, ViewsOf(model.surfaces), vertsBefore, facesBefore)
      case None => None
      case Some(obj) => Some(Imported(ObjectName(model.header.name), model, obj))
  }

  /** Everything in `main` after the model is read. */
  method Build(frames: seq<Frame>, v: Views, mesh: MeshBuffers) returns (r: Option<BlenderObject>)
    modifies mesh
    ensures r == BlenderObjectOf(frames, v, |old(mesh.verts)|, |old(mesh.faces)|)
    ensures mesh.verts == old(mesh.verts) + ModelData(v.mesh).verts
    ensures mesh.edges == old(mesh.edges) + ModelData(v.mesh).edges
    ensures mesh.faces == old(mesh.faces) + ModelData(v.mesh).faces
  {
    var ok := AppendModelData(mesh, v.mesh);
    if !ok {
      return None;
    }
    var keys := AddShapeKeys(frames, v.grids, |mesh.verts|);
    var polys := new int[|mesh.faces|](q => 0);
    assert polys[..] == Zeros(|mesh.faces|);
    var dressing := Dress(v.dress, polys);
    var normals := CollectNormals(v.mesh);
    if keys.None? || dressing.None? || normals.None? {
      return None;
    }
    r := Some(BlenderObject(keys.value, dressing.value, normals.value));
  }

  /** `main`: the import of a file's contents into the module-level
      lists. The lists keep what earlier imports appended, and keep what
      this one appended before it failed. */
  method Import(contents: seq<byte>, mesh: MeshBuffers) returns (r: Option<Imported>)
    modifies mesh
    ensures r == ImportOf(contents, |old(mesh.verts)|, |old(mesh.faces)|)
    ensures ModelAt(contents).None? ==>
              mesh.verts == old(mesh.verts) && mesh.edges == old(mesh.edges) && mesh.faces == old(mesh.faces)
    ensures ModelAt(contents).Some? ==>
              var data := ModelData(Parts(ModelAt(contents).value.surfaces));
              mesh.verts == old(mesh.verts) + data.verts &&
              mesh.edges == old(mesh.edges) + data.edges &&
              mesh.faces == old(mesh.faces) + data.faces
  {
    var model := ReadModel(contents);
    if model.None? {
      return None;
    }
    var obj := Build(model.value.frames, ViewsOf(model.value.surfaces), mesh);
    if obj.None? {
      return None;
    }
    r := Some(Imported(ObjectName(model.value.header.name), model.value, obj.value));
  }

  /** Each surface gives one face per triangle it read. */
  lemma {:induction false} FacesPerTriangle(ss: seq<Surface>)
    requires ModelData(Parts(ss)).ok
    ensures |ModelData(Parts(ss)).faces| == TrianglesIn(DressParts(ss))
    decreases |ss|
  {
    if ss != [] {
      var n := |ss| - 1;
      assert Parts(ss)[..n] == Parts(ss[..n]);
      assert DressParts(ss)[..n] == DressParts(ss[..n]);
      ModelDataPrefix(Parts(ss), n);
      FacesPerTriangle(ss[..n]);
    }
  }

  /** The custom normals of a successful build are the packed normals of
      the frame-0 vertices it appended, one per vertex and in order. */
  lemma {:induction false} BuiltNormals(frames: seq<Frame>, v: Views, vertsBefore: nat, facesBefore: nat)
    requires BlenderObjectOf(frames, v, vertsBefore, facesBefore).Some?
    ensures ModelData(v.mesh).verts == Positions(Row0(v.mesh))
    ensures BlenderObjectOf(frames, v, vertsBefore, facesBefore).value.normals == PackedNormals(Row0(v.mesh))
  {
    NormalsMatchVerts(v.mesh);
  }

  /** A successful build has a basis key named after the first frame and,
      for every later frame, a key with that frame's name holding its
      vertex row. */
  lemma {:induction false} BuiltKeys(frames: seq<Frame>, v: Views, vertsBefore: nat, facesBefore: nat)
    requires BlenderObjectOf(frames, v, vertsBefore, facesBefore).Some?
    ensures var sk := BlenderObjectOf(frames, v, vertsBefore, facesBefore).value.shapeKeys;
            && frames != []
            && sk.basis == frames[0].name
            && |sk.keys| == |frames| - 1
            && forall f :: 1 <= f < |frames| ==>
                 sk.keys[f - 1].name == frames[f].name && KeyRow(v.grids, f) == Some(sk.keys[f - 1].row)
  {
    var room := vertsBefore + |ModelData(v.mesh).verts|;
    KeysUpToFrames(frames, v.grids, room, |frames|);
    var ks := KeysUpTo(frames, v.grids, room, |frames|).value;
    forall f | 1 <= f < |frames|
      ensures ks[f - 1].name == frames[f].name && KeyRow(v.grids, f) == Some(ks[f - 1].row)
    {
      assert ks[f - 1] == KeyFor(frames, v.grids, room, f).value;
    }
  }

  /** A successful build has three UV coordinates per face it appended,
      a material per surface and a material index per polygon of the
      mesh. */
  lemma {:induction false} BuiltDressing(frames: seq<Frame>, ss: seq<Surface>, vertsBefore: nat, facesBefore: nat)
    requires BlenderObjectOf(frames, ViewsOf(ss), vertsBefore, facesBefore).Some?
    ensures var d := BlenderObjectOf(frames, ViewsOf(ss), vertsBefore, facesBefore).value.dressing;
            var faces := ModelData(Parts(ss)).faces;
            && |d.uvs| == 3 * |faces|
            && |d.slots| == |ss|
            && |d.polygons| == facesBefore + |faces|
  {
    FacesPerTriangle(ss);
    var ps := DressParts(ss);
    UvsPrefix(ps, |ps|);
    assert ps[..|ps|] == ps;
  }
}
