/**
  The shape keys and the custom normals of `main` in import_md3.py. The
  basis key is named after the first frame. Each later frame `f` gets a
  key whose data receives row `f` of every surface, one surface after
  another. The normals are the packed normals of the frame-0 rows, in
  the same order as the mesh vertices.
*/
module ImportKeys {
  import opened Bytes
  import opened Records
  import opened Surfaces
  import opened Wrappers
  import opened ImportMesh

  /** A surface's vertex grid `sur.xyzs`, one row per frame. */
  type Grid = seq<seq<Option<Vertex>>>

  /** What row `f` of the surfaces `gs` gives, one surface after another.
      `sur.xyzs[f]` raises for a surface with fewer rows, and `xy.x` raises
      for a missing entry. */
  function KeyRow(gs: seq<Grid>, f: nat): Option<seq<Vec3>>
    decreases |gs|
  {
    if gs == [] then Some([])
    else
      var n := |gs| - 1;
      match KeyRow(gs[..n], f)
      case None => None
      case Some(front) =>
        if f < |gs[n]| && FirstGap(gs[n][f]) == |gs[n][f]| then Some(front + Positions(Present(gs[n][f])))
        else None
  }

  /** Row `f` of a grid is there and has no gap. */
  predicate RowWhole(g: Grid, f: nat)
  {
    f < |g| && FirstGap(g[f]) == |g[f]|
  }

  /** Row `f` can be read from every surface exactly when every surface has
      that row whole. */
  lemma {:induction false} KeyRowSome(gs: seq<Grid>, f: nat)
    ensures KeyRow(gs, f).Some? <==> forall k :: 0 <= k < |gs| ==> RowWhole(gs[k], f)
    decreases |gs|
  {
    if gs != [] {
      var n := |gs| - 1;
      KeyRowSome(gs[..n], f);
      assert forall k :: 0 <= k < n ==> gs[..n][k] == gs[k];
    }
  }

  /** A longer list of surfaces only adds to the row. */
  lemma {:induction false} KeyRowPrefix(gs: seq<Grid>, f: nat, k: nat)
    requires k <= |gs| && KeyRow(gs, f).Some?
    ensures KeyRow(gs[..k], f).Some?
    ensures KeyRow(gs[..k], f).value <= KeyRow(gs, f).value
    decreases |gs|
  {
    if k < |gs| {
      var n := |gs| - 1;
      assert gs[..n][..k] == gs[..k];
      KeyRowPrefix(gs[..n], f, k);
    } else {
      assert gs[..k] == gs;
    }
  }

  lemma {:induction false} KeyRowStep(gs: seq<Grid>, f: nat, k: nat, front: seq<Vec3>)
    requires k < |gs| && KeyRow(gs[..k], f) == Some(front)
    ensures KeyRow(gs[..k + 1], f)
         == if RowWhole(gs[k], f) then Some(front + Positions(Present(gs[k][f]))) else None
  {
    assert gs[..k + 1][..k] == gs[..k];
  }

  /** The grids of the surfaces read. */
  function Grids(ss: seq<Surface>): seq<Grid>
  {
    seq(|ss|, k requires 0 <= k < |ss| => ss[k].xyzs)
  }

  /** Row 0 of the grids is what the model-data loop appended to the mesh
      vertices. */
  lemma {:induction false} KeyRowZero(ss: seq<Surface>)
    requires ModelData(Parts(ss)).ok
    ensures KeyRow(Grids(ss), 0) == Some(ModelData(Parts(ss)).verts)
    decreases |ss|
  {
    if ss != [] {
      var n := |ss| - 1;
      assert Parts(ss)[..n] == Parts(ss[..n]);
      assert Grids(ss)[..n] == Grids(ss[..n]);
      ModelDataPrefix(Parts(ss), n);
      KeyRowZero(ss[..n]);
    }
  }

  /** A shape key: the frame's name and the rows written into its data. */
  datatype KeyFrame = KeyFrame(name: seq<byte>, row: seq<Vec3>)

  /** The basis key's name and the keys of the later frames. */
  datatype ShapeKeys = ShapeKeys(basis: seq<byte>, keys: seq<KeyFrame>)

  /** The key of frame `f`. `sk.data[i]` raises once `i` reaches the
      number of mesh vertices `room`. */
  function KeyFor(frames: seq<Frame>, gs: seq<Grid>, room: nat, f: nat): Option<KeyFrame>
    requires f < |frames|
  {
    match KeyRow(gs, f)
    case None => None
    case Some(row) => if |row| <= room then Some(KeyFrame(frames[f].name, row)) else None
  }

  /** The keys of frames `1 .. n - 1`. */
  function KeysUpTo(frames: seq<Frame>, gs: seq<Grid>, room: nat, n: nat): Option<seq<KeyFrame>>
    requires n <= |frames|
    decreases n
  {
    if n <= 1 then Some([])
    else
      match KeysUpTo(frames, gs, room, n - 1)
      case None => None
      case Some(ks) =>
        match KeyFor(frames, gs, room, n - 1)
        case None => None
        case Some(key) => Some(ks + [key])
  }

  /** The shape keys. `Frames[0]` raises when no frame was read. */
  function ShapeKeysOf(frames: seq<Frame>, gs: seq<Grid>, room: nat): Option<ShapeKeys>
  {
    if frames == [] then None
    else
      match KeysUpTo(frames, gs, room, |frames|)
      case None => None
      case Some(ks) => Some(ShapeKeys(frames[0].name, ks))
  }

  /** Key `f - 1` is the one of frame `f`, and the keys are there exactly
      when every frame's key is. */
  lemma {:induction false} KeysUpToFrames(frames: seq<Frame>, gs: seq<Grid>, room: nat, n: nat)
    requires 1 <= n <= |frames|
    ensures KeysUpTo(frames, gs, room, n).Some? <==> forall f :: 1 <= f < n ==> KeyFor(frames, gs, room, f).Some?
    ensures KeysUpTo(frames, gs, room, n).Some? ==>
              |KeysUpTo(frames, gs, room, n).value| == n - 1 &&
              forall f :: 1 <= f < n ==> KeysUpTo(frames, gs, room, n).value[f - 1] == KeyFor(frames, gs, room, f).value
    decreases n
  {
    if n > 1 {
      KeysUpToFrames(frames, gs, room, n - 1);
    }
  }

  /** `for xy in sur.xyzs[f]: sk.data[i].co = ...; i += 1`, with `acc` the
      entries written so far. */
  method FillRow(acc: seq<Vec3>, row: seq<Option<Vertex>>, room: nat) returns (r: Option<seq<Vec3>>)
    requires |acc| <= room
    ensures r.Some? <==> FirstGap(row) == |row| && |acc| + |row| <= room
    ensures r.Some? ==> r.value == acc + Positions(Present(row))
  {
    var written := acc;
    var j := 0;
    while j < |row|
      invariant j <= |row| && |written| == |acc| + j <= room
      invariant forall i :: 0 <= i < j ==> row[i].Some?
      invariant written == acc + seq(j, i requires 0 <= i < j && row[i].Some? => Position(row[i].value))
    {
      if row[j].None? || |written| >= room {
        return None;
      }
      ghost var before := seq(j, i requires 0 <= i < j && row[i].Some? => Position(row[i].value));
      written := written + [Position(row[j].value)];
      assert before + [Position(row[j].value)] == seq(j + 1, i requires 0 <= i < j + 1 && row[i].Some? => Position(row[i].value));
      j := j + 1;
    }
    assert FirstGap(row) == |row|;
    assert Positions(Present(row)) == seq(j, i requires 0 <= i < j && row[i].Some? => Position(row[i].value));
    r := Some(written);
  }

  /** Filling the key of frame `f`: row `f` of every surface. */
  method FillKey(gs: seq<Grid>, f: nat, room: nat) returns (r: Option<seq<Vec3>>)
    ensures r.Some? <==> KeyRow(gs, f).Some? && |KeyRow(gs, f).value| <= room
    ensures r.Some? ==> r.value == KeyRow(gs, f).value
  {
    var written: seq<Vec3> := [];
    var k := 0;
    while k < |gs|
      invariant k <= |gs|
      invariant KeyRow(gs[..k], f) == Some(written) && |written| <= room
    {
      KeyRowStep(gs, f, k, written);
      if f >= |gs[k]| {
        if KeyRow(gs, f).Some? {
          KeyRowPrefix(gs, f, k + 1);
        }
        return None;
      }
      r := FillRow(written, gs[k][f], room);
      if r.None? {
        if KeyRow(gs, f).Some? {
          KeyRowPrefix(gs, f, k + 1);
        }
        return;
      }
      written := r.value;
      k := k + 1;
    }
    assert gs[..k] == gs;
    r := Some(written);
  }

  /** The shape-key part of `main`. */
  method AddShapeKeys(frames: seq<Frame>, gs: seq<Grid>, room: nat) returns (r: Option<ShapeKeys>)
    ensures r == ShapeKeysOf(frames, gs, room)
  {
    if frames == [] {
      return None;
    }
    var keys: seq<KeyFrame> := [];
    var f := 1;
    while f < |frames|
      invariant 1 <= f <= |frames|
      invariant KeysUpTo(frames, gs, room, f) == Some(keys)
    {
      var row := FillKey(gs, f, room);
      if row.None? {
        assert KeyFor(frames, gs, room, f).None?;
        KeysUpToFrames(frames, gs, room, |frames|);
        return None;
      }
      keys := keys + [KeyFrame(frames[f].name, row.value)];
      f := f + 1;
    }
    r := Some(ShapeKeys(frames[0].name, keys));
  }

  /** The packed normals of the frame-0 rows, one surface after another:
      `v2.normal` for `v2` in `sur.xyzs[0]`. */
  function NormalsOf(ms: seq<MeshPart>): Option<seq<int>>
    decreases |ms|
  {
    if ms == [] then Some([])
    else
      var n := |ms| - 1;
      match NormalsOf(ms[..n])
      case None => None
      case Some(front) =>
        if PartOk(ms[n]) then Some(front + PackedNormals(Present(ms[n].row.value))) else None
  }

  function PackedNormals(vs: seq<Vertex>): seq<int>
  {
    seq(|vs|, k requires 0 <= k < |vs| => vs[k].normal)
  }

  /** The frame-0 entries of the surfaces, one after another. */
  function Row0(ms: seq<MeshPart>): seq<Vertex>
    decreases |ms|
  {
    if ms == [] then []
    else
      var n := |ms| - 1;
      Row0(ms[..n]) + (if ms[n].row.Some? then Present(ms[n].row.value) else [])
  }

  /** Positions and packed normals of two runs of entries, one after the
      other, are those of each run, one after the other. */
  lemma {:induction false} Concatenated(a: seq<Vertex>, b: seq<Vertex>)
    ensures Positions(a + b) == Positions(a) + Positions(b)
    ensures PackedNormals(a + b) == PackedNormals(a) + PackedNormals(b)
  {
    assert forall k :: 0 <= k < |a| ==> (a + b)[k] == a[k];
    assert forall k :: |a| <= k < |a + b| ==> (a + b)[k] == b[k - |a|];
  }

  /** Once the model-data loop got through, the normals are those of the
      very vertices whose positions it appended, in the same order. */
  lemma {:induction false} NormalsMatchVerts(ms: seq<MeshPart>)
    requires ModelData(ms).ok
    ensures ModelData(ms).verts == Positions(Row0(ms))
    ensures NormalsOf(ms) == Some(PackedNormals(Row0(ms)))
    decreases |ms|
  {
    if ms != [] {
      var n := |ms| - 1;
      ModelDataPrefix(ms, n);
      NormalsMatchVerts(ms[..n]);
      var vs := Present(ms[n].row.value);
      assert Row0(ms) == Row0(ms[..n]) + vs;
      Concatenated(Row0(ms[..n]), vs);
    } else {
      assert PackedNormals([]) == [] && Positions([]) == [];
    }
  }

  /** The normals loop at the end of `main`. */
  method CollectNormals(ms: seq<MeshPart>) returns (r: Option<seq<int>>)
    ensures r == NormalsOf(ms)
  {
    var normals: seq<int> := [];
    var k := 0;
    while k < |ms|
      invariant k <= |ms|
      invariant NormalsOf(ms[..k]) == Some(normals)
    {
      assert ms[..k + 1][..k] == ms[..k];
      if !PartOk(ms[k]) {
        NormalsStop(ms, k + 1);
        return None;
      }
      var row := ms[k].row.value;
      var j := 0;
      while j < |row|
        invariant j <= |row|
        invariant normals == NormalsOf(ms[..k]).value + seq(j, i requires 0 <= i < j && row[i].Some? => row[i].value.normal)
      {
        ghost var before := seq(j, i requires 0 <= i < j && row[i].Some? => row[i].value.normal);
        normals := normals + [row[j].value.normal];
        assert before + [row[j].value.normal] == seq(j + 1, i requires 0 <= i < j + 1 && row[i].Some? => row[i].value.normal);
        j := j + 1;
      }
      assert PackedNormals(Present(row)) == seq(j, i requires 0 <= i < j && row[i].Some? => row[i].value.normal);
      k := k + 1;
    }
    assert ms[..k] == ms;
    r := Some(normals);
  }

  lemma {:induction false} NormalsStop(ms: seq<MeshPart>, k: nat)
    requires k <= |ms| && NormalsOf(ms[..k]).None?
    ensures NormalsOf(ms).None?
    decreases |ms|
  {
    if k < |ms| {
      var n := |ms| - 1;
      assert ms[..n][..k] == ms[..k];
      NormalsStop(ms[..n], k);
    } else {
      assert ms[..k] == ms;
    }
  }
}
