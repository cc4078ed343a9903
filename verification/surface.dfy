/**
  The `Surface` record of Utilities.py and its two writers. A surface is a
  108-byte header (ident, 64-byte name, flags, four counts and five offsets
  relative to the start of the surface) followed by four blocks: triangles,
  shaders, texture coordinates and the vertex grid, one row per frame.

  `Write` emits the header as it stands. `WriteWithoutOfs` reserves the five
  offsets, and each time a block is about to start it seeks back, stores the
  distance from the start of the surface, and seeks forward again; entries
  that are `None` are replaced by default records.
*/
module Surfaces {
  import opened Bytes
  import opened Wrappers
  import opened Streams
  import opened Primitives
  import opened Records

  /** The header counts are kept apart from the list lengths: nothing forces
      them to agree. */
  datatype Surface = Surface(
    ident: int, name: seq<byte>, flags: int,
    numFrames: int, numShaders: int, numVerts: int, numTriangles: int,
    ofsTriangles: int, ofsShaders: int, ofsSt: int, ofsXyzNormal: int, ofsEnd: int,
    shaders: seq<Shader>, triangles: seq<Triangle>,
    sts: seq<Option<TexCoord>>, xyzs: seq<seq<Option<Vertex>>>)

  const HEADER_SIZE: nat := 108

  /** Where the ten integers after the name start in the header. */
  const INTS_AT: nat := 68

  /** Positions of the offsets among those ten integers. */
  const SLOT_TRIANGLES: nat := 5
  const SLOT_SHADERS: nat := 6
  const SLOT_ST: nat := 7
  const SLOT_XYZNORMAL: nat := 8
  const SLOT_END: nat := 9

  /** `TexCoord([0.0, 0.0])`: s = 0.0 and the stored 1 - t = 1.0, as
      little-endian IEEE-754 single precision. */
  const DEFAULT_TEXCOORD: TexCoord := TexCoord(F32(0, 0, 0, 0), F32(0, 0, 0x80, 0x3F))

  /** `Vertex(0, 0, 0, [0.0, 0.0, 0.0])`: the packed normal of the zero
      vector is round(255 * atan2(-0.0, -0.0) / 2pi) = -128 plus
      round(255 * acos(-0.0) / 2pi) * 256 = 64 * 256. */
  const DEFAULT_VERTEX: Vertex := Vertex(0, 0, 0, 16256)

  function HeaderInts(s: Surface): (xs: seq<int>)
    ensures |xs| == 10
  {
    [s.flags, s.numFrames, s.numShaders, s.numVerts, s.numTriangles,
     s.ofsTriangles, s.ofsShaders, s.ofsSt, s.ofsXyzNormal, s.ofsEnd]
  }

  function HeaderFields(s: Surface): (fs: seq<Field>)
    ensures TotalWidth(fs) == HEADER_SIZE
    ensures AllWritable(fs) <==> IsS32(s.ident) && AllS32(HeaderInts(s))
  {
    var a := [I32(s.ident), Name(s.name, MAX_QPATH)];
    var b := Int32Fields(HeaderInts(s));
    Fields2(I32(s.ident), Name(s.name, MAX_QPATH));
    Int32Emit(HeaderInts(s));
    TotalWidthAppend(a, b);
    AllWritableAppend(a, b);
    a + b
  }

  /** The ident and the name: the 68 bytes before the ten integers. */
  function HeaderPrefix(s: Surface): (r: seq<byte>)
    requires IsS32(s.ident)
    ensures |r| == INTS_AT
  {
    EncodeS32(s.ident) + PadName(s.name, MAX_QPATH)
  }

  lemma {:induction false} HeaderBytes(s: Surface)
    requires AllWritable(HeaderFields(s))
    ensures Emit(HeaderFields(s)) == HeaderPrefix(s) + Int32Bytes(HeaderInts(s))
  {
    var a := [I32(s.ident), Name(s.name, MAX_QPATH)];
    var b := Int32Fields(HeaderInts(s));
    Fields2(I32(s.ident), Name(s.name, MAX_QPATH));
    Int32Emit(HeaderInts(s));
    AllWritableAppend(a, b);
    EmitAppend(a, b);
  }

  function TriangleRecords(ts: seq<Triangle>): (rs: seq<seq<Field>>)
    ensures |rs| == |ts| && Uniform(rs, 12)
    ensures forall k :: 0 <= k < |ts| ==> rs[k] == TriangleFields(ts[k])
  {
    seq(|ts|, k requires 0 <= k < |ts| => TriangleFields(ts[k]))
  }

  function ShaderRecords(ss: seq<Shader>): (rs: seq<seq<Field>>)
    ensures |rs| == |ss| && Uniform(rs, 68)
    ensures forall k :: 0 <= k < |ss| ==> rs[k] == ShaderFields(ss[k])
  {
    seq(|ss|, k requires 0 <= k < |ss| => ShaderFields(ss[k]))
  }

  /** Calling `write` on a `None` entry raises: it becomes a missing field. */
  function StFields(t: Option<TexCoord>): (fs: seq<Field>)
    ensures AllWritable(fs) <==> t.Some?
    ensures t.Some? ==> fs == TexCoordFields(t.value)
  {
    if t.Some? then TexCoordFields(t.value) else [Missing]
  }

  function StRecords(sts: seq<Option<TexCoord>>): (rs: seq<seq<Field>>)
    ensures |rs| == |sts| && Uniform(rs, 8)
    ensures forall k :: 0 <= k < |sts| ==> rs[k] == StFields(sts[k])
  {
    seq(|sts|, k requires 0 <= k < |sts| => StFields(sts[k]))
  }

  function VertexEntryFields(v: Option<Vertex>): (fs: seq<Field>)
    ensures AllWritable(fs) <==> v.Some? && AllWritable(VertexFields(v.value))
    ensures v.Some? ==> fs == VertexFields(v.value)
  {
    if v.Some? then VertexFields(v.value) else [Missing]
  }

  function VertexRecords(row: seq<Option<Vertex>>): (rs: seq<seq<Field>>)
    ensures |rs| == |row| && Uniform(rs, 8)
    ensures forall k :: 0 <= k < |row| ==> rs[k] == VertexEntryFields(row[k])
  {
    seq(|row|, k requires 0 <= k < |row| => VertexEntryFields(row[k]))
  }

  function VertexRows(xyzs: seq<seq<Option<Vertex>>>): (rows: seq<seq<seq<Field>>>)
    ensures |rows| == |xyzs| && UniformRows(rows, 8)
    ensures forall r :: 0 <= r < |xyzs| ==> rows[r] == VertexRecords(xyzs[r])
  {
    seq(|xyzs|, r requires 0 <= r < |xyzs| => VertexRecords(xyzs[r]))
  }

  function TrianglesBytes(s: Surface): seq<byte>
  {
    EmitRecords(TriangleRecords(s.triangles), |s.triangles|)
  }

  function ShadersBytes(s: Surface): seq<byte>
  {
    EmitRecords(ShaderRecords(s.shaders), |s.shaders|)
  }

  function StBytes(s: Surface): seq<byte>
  {
    EmitRecords(StRecords(s.sts), |s.sts|)
  }

  function XyzBytes(s: Surface): seq<byte>
  {
    EmitRows(VertexRows(s.xyzs), |s.xyzs|)
  }

  /** Every block can be written: triangle indices and shader indices fit in
      32 bits, vertex coordinates and normals in 16 bits, and no texture
      coordinate or vertex is `None`. */
  predicate BodyWritable(s: Surface)
  {
    && RecordsWritable(TriangleRecords(s.triangles), |s.triangles|)
    && RecordsWritable(ShaderRecords(s.shaders), |s.shaders|)
    && RecordsWritable(StRecords(s.sts), |s.sts|)
    && RowsWritable(VertexRows(s.xyzs), |s.xyzs|)
  }

  /** The bytes `write` produces: the header, then the four blocks. */
  function SurfaceBytes(s: Surface): seq<byte>
  {
    Emit(HeaderFields(s)) + TrianglesBytes(s) + ShadersBytes(s) + StBytes(s) + XyzBytes(s)
  }

  /** The number of vertices over all rows of the grid. */
  function GridSize(s: Surface): nat
  {
    Cells(s.xyzs, |s.xyzs|)
  }

  lemma {:induction false} VertexRowsCells(xyzs: seq<seq<Option<Vertex>>>, n: nat)
    requires n <= |xyzs|
    ensures Cells(VertexRows(xyzs), n) == Cells(xyzs, n)
  {
    if n > 0 {
      VertexRowsCells(xyzs, n - 1);
    }
  }

  /** Block sizes: 12 bytes a triangle, 68 a shader, 8 a texture coordinate
      and 8 a vertex, for every block that can be written. */
  lemma {:induction false} BlockSizes(s: Surface)
    ensures RecordsWritable(TriangleRecords(s.triangles), |s.triangles|) ==> |TrianglesBytes(s)| == 12 * |s.triangles|
    ensures RecordsWritable(ShaderRecords(s.shaders), |s.shaders|) ==> |ShadersBytes(s)| == 68 * |s.shaders|
    ensures RecordsWritable(StRecords(s.sts), |s.sts|) ==> |StBytes(s)| == 8 * |s.sts|
    ensures RowsWritable(VertexRows(s.xyzs), |s.xyzs|) ==> |XyzBytes(s)| == 8 * GridSize(s)
  {
    if RecordsWritable(TriangleRecords(s.triangles), |s.triangles|) {
      EmitRecordsLength(TriangleRecords(s.triangles), |s.triangles|, 12);
      TimesProduct(12, |s.triangles|);
    }
    if RecordsWritable(ShaderRecords(s.shaders), |s.shaders|) {
      EmitRecordsLength(ShaderRecords(s.shaders), |s.shaders|, 68);
      TimesProduct(68, |s.shaders|);
    }
    if RecordsWritable(StRecords(s.sts), |s.sts|) {
      EmitRecordsLength(StRecords(s.sts), |s.sts|, 8);
      TimesProduct(8, |s.sts|);
    }
    if RowsWritable(VertexRows(s.xyzs), |s.xyzs|) {
      EmitRowsLength(VertexRows(s.xyzs), |s.xyzs|, 8);
      VertexRowsCells(s.xyzs, |s.xyzs|);
      TimesProduct(8, GridSize(s));
    }
  }

  /** `Surface.write` emits a 108-byte header and then 12, 68, 8 and 8 bytes
      per triangle, shader, texture coordinate and vertex. */
  lemma {:induction false} SurfaceSize(s: Surface)
    requires AllWritable(HeaderFields(s)) && BodyWritable(s)
    ensures |SurfaceBytes(s)| == HEADER_SIZE + 12 * |s.triangles| + 68 * |s.shaders| + 8 * |s.sts| + 8 * GridSize(s)
  {
    BlockSizes(s);
  }

  /** `Surface.write(f)`: on success the file holds the surface's bytes from
      the old cursor on, and the cursor is just past them. */
  method Write(f: Stream, s: Surface) returns (ok: bool)
    modifies f
    ensures ok == (AllWritable(HeaderFields(s)) && BodyWritable(s))
    ensures ok ==> (f.data == Overwrite(old(f.data), old(f.pos), SurfaceBytes(s))
                    && f.pos == old(f.pos) + |SurfaceBytes(s)|)
  {
    ghost var d, p := f.data, f.pos;
    ok := WriteFields(f, HeaderFields(s));
    if !ok {
      return;
    }
    ghost var pre := Emit(HeaderFields(s));
    ok := WriteAllAfter(f, TriangleRecords(s.triangles), d, p, pre);
    if !ok {
      return;
    }
    pre := pre + TrianglesBytes(s);
    ok := WriteAllAfter(f, ShaderRecords(s.shaders), d, p, pre);
    if !ok {
      return;
    }
    pre := pre + ShadersBytes(s);
    ok := WriteAllAfter(f, StRecords(s.sts), d, p, pre);
    if !ok {
      return;
    }
    pre := pre + StBytes(s);
    ok := WriteRowsAfter(f, VertexRows(s.xyzs), d, p, pre);
  }

  /** The texture coordinates with every `None` replaced by the default. */
  function FillSt(sts: seq<Option<TexCoord>>): seq<Option<TexCoord>>
  {
    seq(|sts|, k requires 0 <= k < |sts| => if sts[k].Some? then sts[k] else Some(DEFAULT_TEXCOORD))
  }

  function FillRow(row: seq<Option<Vertex>>): seq<Option<Vertex>>
  {
    seq(|row|, k requires 0 <= k < |row| => if row[k].Some? then row[k] else Some(DEFAULT_VERTEX))
  }

  function FillGrid(xyzs: seq<seq<Option<Vertex>>>): seq<seq<Option<Vertex>>>
  {
    seq(|xyzs|, i requires 0 <= i < |xyzs| => FillRow(xyzs[i]))
  }

  /** The surface `writeWithoutOFS` writes: defaults in place of `None`
      entries, and every offset equal to where its block starts. */
  function Normalized(s: Surface): Surface
  {
    var t := 108 + 12 * |s.triangles|;
    var st := t + 68 * |s.shaders|;
    var xyz := st + 8 * |s.sts|;
    Filled(s).(ofsTriangles := HEADER_SIZE, ofsShaders := t, ofsSt := st, ofsXyzNormal := xyz,
               ofsEnd := xyz + 8 * Cells(s.xyzs, |s.xyzs|))
  }

  lemma {:induction false} FillGridCells(xyzs: seq<seq<Option<Vertex>>>, n: nat)
    requires n <= |xyzs|
    ensures Cells(FillGrid(xyzs), n) == Cells(xyzs, n)
  {
    if n > 0 {
      FillGridCells(xyzs, n - 1);
    }
  }

  /** Replacing `None` entries by defaults only matters for them: the
      integer fields are untouched, and the filled lists can always be
      written as far as texture coordinates go. */
  lemma {:induction false} FilledWritable(s: Surface)
    ensures RecordsWritable(StRecords(FillSt(s.sts)), |s.sts|)
    ensures GridSize(Normalized(s)) == GridSize(s)
  {
    var rs := StRecords(FillSt(s.sts));
    RecordsWritableAll(rs, |s.sts|);
    FillGridCells(s.xyzs, |s.xyzs|);
  }

  /** Seeks back to offset slot `k` of the header, stores the distance from
      `start` to the cursor there, and seeks forward again. */
  method Backpatch(f: Stream, start: nat, k: nat, ghost d: seq<byte>, ghost pre: seq<byte>, ghost xs: seq<int>, ghost body: seq<byte>)
      returns (ok: bool)
    requires |pre| == INTS_AT && k < |xs| && AllS32(xs)
    requires f.data == Overwrite(d, start, pre + Int32Bytes(xs) + body)
    requires f.pos == start + |pre| + 4 * |xs| + |body|
    modifies f
    ensures ok == IsS32(old(f.pos) - start)
    ensures ok ==> (f.data == Overwrite(d, start, pre + Int32Bytes(xs[k := old(f.pos) - start]) + body)
                    && f.pos == old(f.pos))
  {
    var current := f.Tell();
    var _ := f.Seek(start + INTS_AT + 4 * k);
    ok := WriteS32(f, current - start);
    if !ok {
      return;
    }
    PatchInt32(d, start, pre, xs, body, k, current - start);
    var _ := f.Seek(current);
  }

  /** The surface with every `None` entry replaced by its default. */
  function Filled(s: Surface): Surface
  {
    s.(sts := FillSt(s.sts), xyzs := FillGrid(s.xyzs))
  }

  /** Block `j` of a surface: its triangles, shaders, texture coordinates
      and vertex grid; there is nothing after the fourth. */
  function BlockBytes(t: Surface, j: nat): seq<byte>
  {
    if j == 0 then TrianglesBytes(t)
    else if j == 1 then ShadersBytes(t)
    else if j == 2 then StBytes(t)
    else if j == 3 then XyzBytes(t)
    else []
  }

  predicate BlockWritable(t: Surface, j: nat)
  {
    if j == 0 then RecordsWritable(TriangleRecords(t.triangles), |t.triangles|)
    else if j == 1 then RecordsWritable(ShaderRecords(t.shaders), |t.shaders|)
    else if j == 2 then RecordsWritable(StRecords(t.sts), |t.sts|)
    else if j == 3 then RowsWritable(VertexRows(t.xyzs), |t.xyzs|)
    else true
  }

  /** The size block `j` has when it can be written. */
  function BlockSize(t: Surface, j: nat): nat
  {
    if j == 0 then 12 * |t.triangles|
    else if j == 1 then 68 * |t.shaders|
    else if j == 2 then 8 * |t.sts|
    else if j == 3 then 8 * GridSize(t)
    else 0
  }

  lemma {:induction false} BlockLength(t: Surface, j: nat)
    requires BlockWritable(t, j)
    ensures |BlockBytes(t, j)| == BlockSize(t, j)
  {
    BlockSizes(t);
  }

  /** Every block before block `j` can be written. */
  predicate WritableBefore(t: Surface, j: nat)
  {
    j == 0 || (WritableBefore(t, j - 1) && BlockWritable(t, j - 1))
  }

  /** The first `j` blocks, back to back. */
  function BodyUpTo(t: Surface, j: nat): seq<byte>
  {
    if j == 0 then [] else BodyUpTo(t, j - 1) + BlockBytes(t, j - 1)
  }

  /** Where block `j` starts, relative to the start of the surface. */
  function OfsAfter(t: Surface, j: nat): nat
  {
    HEADER_SIZE + |BodyUpTo(t, j)|
  }

  /** The same offset computed from the counts alone. */
  function OfsClosed(t: Surface, j: nat): nat
  {
    if j == 0 then HEADER_SIZE else OfsClosed(t, j - 1) + BlockSize(t, j - 1)
  }

  lemma {:induction false} StageOffset(t: Surface, j: nat)
    requires WritableBefore(t, j)
    ensures OfsAfter(t, j) == OfsClosed(t, j)
  {
    if j > 0 {
      StageOffset(t, j - 1);
      BlockLength(t, j - 1);
    }
  }

  lemma {:induction false} OfsClosedMono(t: Surface, i: nat, j: nat)
    requires i <= j
    ensures OfsClosed(t, i) <= OfsClosed(t, j)
  {
    if i < j {
      OfsClosedMono(t, i, j - 1);
    }
  }

  /** The offsets `Normalized` gives are the starts of the blocks, and it
      can be written exactly when its four blocks can. */
  lemma {:induction false} NormalizedOffsets(s: Surface)
    ensures Normalized(s).ofsTriangles == OfsClosed(Filled(s), 0)
    ensures Normalized(s).ofsShaders == OfsClosed(Filled(s), 1)
    ensures Normalized(s).ofsSt == OfsClosed(Filled(s), 2)
    ensures Normalized(s).ofsXyzNormal == OfsClosed(Filled(s), 3)
    ensures Normalized(s).ofsEnd == OfsClosed(Filled(s), 4)
    ensures BodyWritable(Normalized(s)) <==> WritableBefore(Filled(s), 4)
  {
    FillGridCells(s.xyzs, |s.xyzs|);
    var t := Filled(s);
    assert WritableBefore(t, 4) <==> BlockWritable(t, 0) && BlockWritable(t, 1) && BlockWritable(t, 2) && BlockWritable(t, 3) by {
      assert WritableBefore(t, 4) == (WritableBefore(t, 3) && BlockWritable(t, 3));
      assert WritableBefore(t, 3) == (WritableBefore(t, 2) && BlockWritable(t, 2));
      assert WritableBefore(t, 2) == (WritableBefore(t, 1) && BlockWritable(t, 1));
      assert WritableBefore(t, 1) == (WritableBefore(t, 0) && BlockWritable(t, 0));
    }
  }

  /** The header once the first `j` offsets have been backpatched. */
  function Patched(t: Surface, j: nat): Surface
  {
    t.(ofsTriangles := if 0 < j then OfsAfter(t, 0) else t.ofsTriangles,
       ofsShaders := if 1 < j then OfsAfter(t, 1) else t.ofsShaders,
       ofsSt := if 2 < j then OfsAfter(t, 2) else t.ofsSt,
       ofsXyzNormal := if 3 < j then OfsAfter(t, 3) else t.ofsXyzNormal,
       ofsEnd := if 4 < j then OfsAfter(t, 4) else t.ofsEnd)
  }

  /** Backpatching offset `j` changes one integer of the header. */
  lemma {:induction false} PatchStep(t: Surface, j: nat)
    requires j <= 4
    requires AllWritable(HeaderFields(Patched(t, j))) && IsS32(OfsAfter(t, j))
    ensures AllWritable(HeaderFields(Patched(t, j + 1)))
    ensures Emit(HeaderFields(Patched(t, j))) == HeaderPrefix(Patched(t, j)) + Int32Bytes(HeaderInts(Patched(t, j)))
    ensures Emit(HeaderFields(Patched(t, j + 1)))
         == HeaderPrefix(Patched(t, j)) + Int32Bytes(HeaderInts(Patched(t, j))[SLOT_TRIANGLES + j := OfsAfter(t, j)])
  {
    var p, q := Patched(t, j), Patched(t, j + 1);
    assert HeaderInts(q) == HeaderInts(p)[SLOT_TRIANGLES + j := OfsAfter(t, j)];
    assert AllS32(HeaderInts(q));
    HeaderBytes(p);
    HeaderBytes(q);
  }

  /** Writes block `j` after `pre`. */
  method WriteBlock(f: Stream, t: Surface, j: nat, ghost d: seq<byte>, ghost start: nat, ghost pre: seq<byte>)
      returns (ok: bool)
    requires f.data == Overwrite(d, start, pre) && f.pos == start + |pre|
    modifies f
    ensures ok == BlockWritable(t, j)
    ensures ok ==> (f.data == Overwrite(d, start, pre + BlockBytes(t, j))
                    && f.pos == start + |pre| + |BlockBytes(t, j)|)
  {
    if j == 0 {
      ok := WriteAllAfter(f, TriangleRecords(t.triangles), d, start, pre);
    } else if j == 1 {
      ok := WriteAllAfter(f, ShaderRecords(t.shaders), d, start, pre);
    } else if j == 2 {
      ok := WriteAllAfter(f, StRecords(t.sts), d, start, pre);
    } else if j == 3 {
      ok := WriteRowsAfter(f, VertexRows(t.xyzs), d, start, pre);
    } else {
      ok := true;
      assert pre + BlockBytes(t, j) == pre;
    }
  }

  /** One of the five repeated steps of `writeWithoutOFS`: remember the
      cursor, seek back to the reserved offset, store the cursor relative to
      the start of the surface, seek forward again, then write the next
      block. */
  method Stage(f: Stream, t: Surface, start: nat, j: nat, ghost d: seq<byte>) returns (ok: bool)
    requires j <= 4
    requires AllWritable(HeaderFields(Patched(t, j))) && WritableBefore(t, j)
    requires f.data == Overwrite(d, start, Emit(HeaderFields(Patched(t, j))) + BodyUpTo(t, j))
    requires f.pos == start + OfsAfter(t, j)
    modifies f
    ensures ok == (IsS32(OfsAfter(t, j)) && BlockWritable(t, j))
    ensures ok ==> (AllWritable(HeaderFields(Patched(t, j + 1))) && WritableBefore(t, j + 1)
                    && f.data == Overwrite(d, start, Emit(HeaderFields(Patched(t, j + 1))) + BodyUpTo(t, j + 1))
                    && f.pos == start + OfsAfter(t, j + 1))
  {
    ghost var p := Patched(t, j);
    HeaderBytes(p);
    ghost var pre := HeaderPrefix(p);
    ghost var body := BodyUpTo(t, j);
    ok := Backpatch(f, start, SLOT_TRIANGLES + j, d, pre, HeaderInts(p), body);
    if !ok {
      return;
    }
    PatchStep(t, j);
    ghost var header := Emit(HeaderFields(Patched(t, j + 1)));
    ok := WriteBlock(f, t, j, d, start, header + body);
    if ok {
      AppendAssoc(header, body, BlockBytes(t, j));
    }
  }

  /** A stage that fails makes the whole condition of `WriteWithoutOfs` false. */
  lemma {:induction false} StageFails(s: Surface, j: nat)
    requires j <= 4 && WritableBefore(Filled(s), j)
    requires !(IsS32(OfsAfter(Filled(s), j)) && BlockWritable(Filled(s), j))
    ensures !(BodyWritable(Normalized(s)) && IsS32(Normalized(s).ofsEnd))
  {
    var t := Filled(s);
    NormalizedOffsets(s);
    if BodyWritable(Normalized(s)) {
      if j < 4 {
        WritableMono(t, j + 1, 4);
        assert BlockWritable(t, j);
      }
      assert !IsS32(OfsAfter(t, j));
      StageOffset(t, j);
      OfsClosedMono(t, j, 4);
    }
  }

  lemma {:induction false} WritableMono(t: Surface, i: nat, j: nat)
    requires i <= j && WritableBefore(t, j)
    ensures WritableBefore(t, i)
  {
    if i < j {
      WritableMono(t, i, j - 1);
    }
  }

  /** When every stage succeeds, the backpatched header is that of the
      normalized surface and the blocks are its blocks. */
  lemma {:induction false} StagesDone(s: Surface)
    requires WritableBefore(Filled(s), 5)
    ensures Patched(Filled(s), 5) == Normalized(s)
    ensures BodyWritable(Normalized(s))
    ensures OfsAfter(Filled(s), 5) == Normalized(s).ofsEnd
    ensures Emit(HeaderFields(Patched(Filled(s), 5))) + BodyUpTo(Filled(s), 5) == SurfaceBytes(Normalized(s))
  {
    var t := Filled(s);
    NormalizedOffsets(s);
    WritableMono(t, 0, 5);
    WritableMono(t, 1, 5);
    WritableMono(t, 2, 5);
    WritableMono(t, 3, 5);
    WritableMono(t, 4, 5);
    StageOffset(t, 0);
    StageOffset(t, 1);
    StageOffset(t, 2);
    StageOffset(t, 3);
    StageOffset(t, 4);
    StageOffset(t, 5);
    StagesBytes(s);
    var n := Normalized(s);
    Regroup(Emit(HeaderFields(n)), TrianglesBytes(n), ShadersBytes(n), StBytes(n), XyzBytes(n));
  }

  lemma {:induction false} Regroup(h: seq<byte>, a: seq<byte>, b: seq<byte>, c: seq<byte>, e: seq<byte>)
    ensures h + (a + b + c + e) == h + a + b + c + e
  {
  }

  lemma {:induction false} StagesBytes(s: Surface)
    ensures BodyUpTo(Filled(s), 5)
         == TrianglesBytes(Normalized(s)) + ShadersBytes(Normalized(s)) + StBytes(Normalized(s)) + XyzBytes(Normalized(s))
  {
    var t, n := Filled(s), Normalized(s);
    assert BodyUpTo(t, 1) == TrianglesBytes(n);
    assert BodyUpTo(t, 2) == BodyUpTo(t, 1) + ShadersBytes(n);
    assert BodyUpTo(t, 3) == BodyUpTo(t, 2) + StBytes(n);
    assert BodyUpTo(t, 4) == BodyUpTo(t, 3) + XyzBytes(n);
    assert BodyUpTo(t, 5) == BodyUpTo(t, 4);
  }

  /** When `writeWithoutOFS` succeeds, the header it leaves in the file,
      offsets included, can be written as it stands. */
  lemma {:induction false} NormalizedHeader(s: Surface)
    requires AllWritable(HeaderFields(s)) && BodyWritable(Normalized(s)) && IsS32(Normalized(s).ofsEnd)
    ensures AllWritable(HeaderFields(Normalized(s)))
  {
    HeaderIntsS32(s);
    HeaderIntsS32(Normalized(s));
  }

  lemma {:induction false} HeaderIntsS32(s: Surface)
    ensures AllS32(HeaderInts(s)) <==>
      && IsS32(s.flags) && IsS32(s.numFrames) && IsS32(s.numShaders) && IsS32(s.numVerts) && IsS32(s.numTriangles)
      && IsS32(s.ofsTriangles) && IsS32(s.ofsShaders) && IsS32(s.ofsSt) && IsS32(s.ofsXyzNormal) && IsS32(s.ofsEnd)
  {
    var xs := HeaderInts(s);
    assert xs[0] == s.flags && xs[1] == s.numFrames && xs[2] == s.numShaders && xs[3] == s.numVerts && xs[4] == s.numTriangles;
    assert xs[5] == s.ofsTriangles && xs[6] == s.ofsShaders && xs[7] == s.ofsSt && xs[8] == s.ofsXyzNormal && xs[9] == s.ofsEnd;
  }

  /** Where each part of a normalized surface lies in its bytes. */
  lemma {:induction false} NormalizedLayout(s: Surface)
    requires AllWritable(HeaderFields(Normalized(s))) && BodyWritable(Normalized(s))
    ensures |SurfaceBytes(Normalized(s))| == Normalized(s).ofsEnd
    ensures SurfaceBytes(Normalized(s))[..Normalized(s).ofsTriangles] == Emit(HeaderFields(Normalized(s)))
    ensures SurfaceBytes(Normalized(s))[Normalized(s).ofsTriangles..Normalized(s).ofsShaders] == TrianglesBytes(Normalized(s))
    ensures SurfaceBytes(Normalized(s))[Normalized(s).ofsShaders..Normalized(s).ofsSt] == ShadersBytes(Normalized(s))
    ensures SurfaceBytes(Normalized(s))[Normalized(s).ofsSt..Normalized(s).ofsXyzNormal] == StBytes(Normalized(s))
    ensures SurfaceBytes(Normalized(s))[Normalized(s).ofsXyzNormal..Normalized(s).ofsEnd] == XyzBytes(Normalized(s))
  {
    var n := Normalized(s);
    SurfaceSize(n);
    BlockSizes(n);
    FilledWritable(s);
    var h, a, b, c, e := Emit(HeaderFields(n)), TrianglesBytes(n), ShadersBytes(n), StBytes(n), XyzBytes(n);
    Layout5(h, a, b, c, e, n.ofsTriangles, n.ofsShaders, n.ofsSt, n.ofsXyzNormal, n.ofsEnd);
  }

  /** The five parts of `h + a + b + c + e`, each at its place. */
  lemma {:induction false} Layout5(h: seq<byte>, a: seq<byte>, b: seq<byte>, c: seq<byte>, e: seq<byte>, i: nat, j: nat, k: nat, l: nat, m: nat)
    requires i == |h| && j == i + |a| && k == j + |b| && l == k + |c| && m == l + |e|
    ensures |h + a + b + c + e| == m
    ensures (h + a + b + c + e)[..i] == h
    ensures (h + a + b + c + e)[i..j] == a
    ensures (h + a + b + c + e)[j..k] == b
    ensures (h + a + b + c + e)[k..l] == c
    ensures (h + a + b + c + e)[l..m] == e
  {
  }

  /** `Surface.writeWithoutOFS(f)`. It fails when the header as given cannot
      be written (the reserved offsets included), when a block cannot be
      written, or when an offset does not fit in 32 bits. On success the file
      holds the normalized surface from the old cursor on, and the cursor
      is `ofsEnd` bytes further. */
  method WriteWithoutOfs(f: Stream, s: Surface) returns (ok: bool)
    modifies f
    ensures ok == (AllWritable(HeaderFields(s)) && BodyWritable(Normalized(s)) && IsS32(Normalized(s).ofsEnd))
    ensures ok ==> (f.data == Overwrite(old(f.data), old(f.pos), SurfaceBytes(Normalized(s)))
                    && f.pos == old(f.pos) + Normalized(s).ofsEnd)
  {
    ghost var d := f.data;
    var t := Filled(s);
    var start := f.Tell();
    ok := WriteFields(f, HeaderFields(s));
    if !ok {
      return;
    }
    assert HeaderFields(Patched(t, 0)) == HeaderFields(s);
    assert Emit(HeaderFields(s)) + BodyUpTo(t, 0) == Emit(HeaderFields(s));
    ok := Stage(f, t, start, 0, d);
    if !ok {
      StageFails(s, 0);
      return;
    }
    ok := Stage(f, t, start, 1, d);
    if !ok {
      StageFails(s, 1);
      return;
    }
    ok := Stage(f, t, start, 2, d);
    if !ok {
      StageFails(s, 2);
      return;
    }
    ok := Stage(f, t, start, 3, d);
    if !ok {
      StageFails(s, 3);
      return;
    }
    ok := Stage(f, t, start, 4, d);
    if !ok {
      StageFails(s, 4);
      return;
    }
    StagesDone(s);
  }
}
