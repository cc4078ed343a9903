/**
  The fixed-size records of Utilities.py. Each record is written as a list of
  fields (`Fields` functions, whose sizes are stated) and read back from a
  position of the file (`At` functions). A float is kept as its 4 bytes, a
  texture coordinate as the two payloads found on disk (the second already
  flipped to `1 - t`), and a vertex normal in its packed 16-bit form.
*/
module Records {
  import opened Bytes
  import opened Wrappers
  import opened Streams
  import opened Primitives

  datatype Vec3 = Vec3(x: int, y: int, z: int)

  datatype Shader = Shader(name: seq<byte>, index: int)

  /** The three vertex indices of a triangle. */
  datatype Triangle = Triangle(a: int, b: int, c: int)

  datatype TexCoord = TexCoord(s: F32, t: F32)

  /** Compressed vertex: 16-bit coordinates and the packed normal. */
  datatype Vertex = Vertex(x: int, y: int, z: int, normal: int)

  datatype Frame = Frame(minBounds: Vec3, maxBounds: Vec3, localOrigin: Vec3, radius: F32, name: seq<byte>)

  datatype Tag = Tag(name: seq<byte>, origin: Vec3, axis0: Vec3, axis1: Vec3, axis2: Vec3)

  /** Width of the frame name field. */
  const FRAME_NAME: nat := 16

  function Vec3Fields(v: Vec3): (fs: seq<Field>)
    ensures TotalWidth(fs) == 12
    ensures AllWritable(fs) <==> IsS32(v.x) && IsS32(v.y) && IsS32(v.z)
  {
    Fields3(I32(v.x), I32(v.y), I32(v.z));
    [I32(v.x), I32(v.y), I32(v.z)]
  }

  function ShaderFields(s: Shader): (fs: seq<Field>)
    ensures TotalWidth(fs) == 68
    ensures AllWritable(fs) <==> IsS32(s.index)
  {
    Fields2(Name(s.name, MAX_QPATH), I32(s.index));
    [Name(s.name, MAX_QPATH), I32(s.index)]
  }

  function TriangleFields(t: Triangle): (fs: seq<Field>)
    ensures TotalWidth(fs) == 12
    ensures AllWritable(fs) <==> IsS32(t.a) && IsS32(t.b) && IsS32(t.c)
  {
    Fields3(I32(t.a), I32(t.b), I32(t.c));
    [I32(t.a), I32(t.b), I32(t.c)]
  }

  function TexCoordFields(t: TexCoord): (fs: seq<Field>)
    ensures TotalWidth(fs) == 8
    ensures AllWritable(fs)
  {
    Fields2(Float(t.s), Float(t.t));
    [Float(t.s), Float(t.t)]
  }

  function VertexFields(v: Vertex): (fs: seq<Field>)
    ensures TotalWidth(fs) == 8
    ensures AllWritable(fs) <==> IsS16(v.x) && IsS16(v.y) && IsS16(v.z) && IsS16(v.normal)
  {
    Fields4(I16(v.x), I16(v.y), I16(v.z), I16(v.normal));
    [I16(v.x), I16(v.y), I16(v.z), I16(v.normal)]
  }

  function FrameFields(fr: Frame): (fs: seq<Field>)
    ensures TotalWidth(fs) == 56
    ensures AllWritable(fs) <==>
      AllWritable(Vec3Fields(fr.minBounds)) && AllWritable(Vec3Fields(fr.maxBounds)) &&
      AllWritable(Vec3Fields(fr.localOrigin))
  {
    var fs := Vec3Fields(fr.minBounds) + Vec3Fields(fr.maxBounds) + Vec3Fields(fr.localOrigin)
              + [Float(fr.radius), Name(fr.name, FRAME_NAME)];
    var a, b, c := Vec3Fields(fr.minBounds), Vec3Fields(fr.maxBounds), Vec3Fields(fr.localOrigin);
    var tail := [Float(fr.radius), Name(fr.name, FRAME_NAME)];
    Fields2(Float(fr.radius), Name(fr.name, FRAME_NAME));
    TotalWidthAppend(a, b);
    TotalWidthAppend(a + b, c);
    TotalWidthAppend(a + b + c, tail);
    AllWritableAppend(a, b);
    AllWritableAppend(a + b, c);
    AllWritableAppend(a + b + c, tail);
    fs
  }

  function TagFields(t: Tag): (fs: seq<Field>)
    ensures TotalWidth(fs) == 112
    ensures AllWritable(fs) <==>
      AllWritable(Vec3Fields(t.origin)) && AllWritable(Vec3Fields(t.axis0)) &&
      AllWritable(Vec3Fields(t.axis1)) && AllWritable(Vec3Fields(t.axis2))
  {
    var a := [Name(t.name, MAX_QPATH)];
    var b := Vec3Fields(t.origin);
    var c := Vec3Fields(t.axis0);
    var d := Vec3Fields(t.axis1);
    var e := Vec3Fields(t.axis2);
    EmitSingle(Name(t.name, MAX_QPATH));
    TotalWidthAppend(a, b);
    TotalWidthAppend(a + b, c);
    TotalWidthAppend(a + b + c, d);
    TotalWidthAppend(a + b + c + d, e);
    AllWritableAppend(a, b);
    AllWritableAppend(a + b, c);
    AllWritableAppend(a + b + c, d);
    AllWritableAppend(a + b + c + d, e);
    a + b + c + d + e
  }

  function DecodeVec3(b: seq<byte>): Vec3
    requires |b| == 12
  {
    Vec3(DecodeS32(b[0..4]), DecodeS32(b[4..8]), DecodeS32(b[8..12]))
  }

  function Vec3At(d: seq<byte>, p: nat): Vec3
    requires p + 12 <= |d|
  {
    DecodeVec3(d[p..p + 12])
  }

  /** The name comes back as all 64 bytes of its field, zero bytes included. */
  function DecodeShader(b: seq<byte>): Shader
    requires |b| == 68
  {
    Shader(b[0..64], DecodeS32(b[64..68]))
  }

  function ShaderAt(d: seq<byte>, p: nat): Shader
    requires p + 68 <= |d|
  {
    DecodeShader(d[p..p + 68])
  }

  function DecodeTriangle(b: seq<byte>): Triangle
    requires |b| == 12
  {
    Triangle(DecodeS32(b[0..4]), DecodeS32(b[4..8]), DecodeS32(b[8..12]))
  }

  function TriangleAt(d: seq<byte>, p: nat): Triangle
    requires p + 12 <= |d|
  {
    DecodeTriangle(d[p..p + 12])
  }

  function DecodeTexCoord(b: seq<byte>): TexCoord
    requires |b| == 8
  {
    TexCoord(DecodeF32(b[0..4]), DecodeF32(b[4..8]))
  }

  function TexCoordAt(d: seq<byte>, p: nat): TexCoord
    requires p + 8 <= |d|
  {
    DecodeTexCoord(d[p..p + 8])
  }

  function DecodeVertex(b: seq<byte>): Vertex
    requires |b| == 8
  {
    Vertex(DecodeS16(b[0..2]), DecodeS16(b[2..4]), DecodeS16(b[4..6]), DecodeS16(b[6..8]))
  }

  function VertexAt(d: seq<byte>, p: nat): Vertex
    requires p + 8 <= |d|
  {
    DecodeVertex(d[p..p + 8])
  }

  /** A frame needs its first 40 bytes; its name is what is left of the
      following 16 bytes (fewer at the end of the file). */
  function DecodeFrame(b: seq<byte>): Frame
    requires 40 <= |b| <= 56
  {
    Frame(DecodeVec3(b[0..12]), DecodeVec3(b[12..24]), DecodeVec3(b[24..36]), DecodeF32(b[36..40]), b[40..])
  }

  function FrameAt(d: seq<byte>, p: nat): Frame
    requires p + 40 <= |d|
  {
    DecodeFrame(d[p..p + 40 + |Window(d, p + 40, FRAME_NAME)|])
  }

  /** A frame in the file is read field by field. */
  lemma {:induction false} FrameAtParts(d: seq<byte>, p: nat)
    requires p + 40 <= |d|
    ensures FrameAt(d, p) == Frame(Vec3At(d, p), Vec3At(d, p + 12), Vec3At(d, p + 24),
                                   DecodeF32(d[p + 36..p + 40]), Window(d, p + 40, FRAME_NAME))
  {
    var name := Window(d, p + 40, FRAME_NAME);
    var n := 40 + |name|;
    if p + 40 < |d| {
      SubSlice(d, p, n, 40, n);
    }
    SubSlice(d, p, n, 0, 12);
    SubSlice(d, p, n, 12, 24);
    SubSlice(d, p, n, 24, 36);
    SubSlice(d, p, n, 36, 40);
  }

  function DecodeTag(b: seq<byte>): Tag
    requires |b| == 112
  {
    Tag(b[0..64], DecodeVec3(b[64..76]), DecodeVec3(b[76..88]), DecodeVec3(b[88..100]), DecodeVec3(b[100..112]))
  }

  function TagAt(d: seq<byte>, p: nat): Tag
    requires p + 112 <= |d|
  {
    DecodeTag(d[p..p + 112])
  }

  /** A slice of a slice is a slice of the whole. */
  lemma {:induction false} SubSlice(d: seq<byte>, p: nat, n: nat, i: nat, j: nat)
    requires p + n <= |d| && i <= j <= n
    ensures d[p..p + n][i..j] == d[p + i..p + j]
  {
    var a, b := d[p..p + n][i..j], d[p + i..p + j];
    assert |a| == |b|;
    forall k | 0 <= k < |a|
      ensures a[k] == b[k]
    {
    }
  }

  lemma {:induction false} Vec3RoundTrip(v: Vec3)
    requires AllWritable(Vec3Fields(v))
    ensures |Emit(Vec3Fields(v))| == 12
    ensures DecodeVec3(Emit(Vec3Fields(v))) == v
  {
    Fields3(I32(v.x), I32(v.y), I32(v.z));
    var e := Emit(Vec3Fields(v));
    assert e[0..4] == EncodeS32(v.x);
    assert e[4..8] == EncodeS32(v.y);
    assert e[8..12] == EncodeS32(v.z);
    S32RoundTrip(v.x);
    S32RoundTrip(v.y);
    S32RoundTrip(v.z);
  }

  lemma {:induction false} TriangleRoundTrip(t: Triangle)
    requires AllWritable(TriangleFields(t))
    ensures |Emit(TriangleFields(t))| == 12
    ensures DecodeTriangle(Emit(TriangleFields(t))) == t
  {
    Fields3(I32(t.a), I32(t.b), I32(t.c));
    var e := Emit(TriangleFields(t));
    assert e[0..4] == EncodeS32(t.a);
    assert e[4..8] == EncodeS32(t.b);
    assert e[8..12] == EncodeS32(t.c);
    S32RoundTrip(t.a);
    S32RoundTrip(t.b);
    S32RoundTrip(t.c);
  }

  /** The index survives; the name comes back padded (or cut) to its 64-byte field. */
  lemma {:induction false} ShaderRoundTrip(s: Shader)
    requires AllWritable(ShaderFields(s))
    ensures |Emit(ShaderFields(s))| == 68
    ensures DecodeShader(Emit(ShaderFields(s))) == Shader(PadName(s.name, MAX_QPATH), s.index)
  {
    Fields2(Name(s.name, MAX_QPATH), I32(s.index));
    var e := Emit(ShaderFields(s));
    assert e[0..64] == PadName(s.name, MAX_QPATH);
    assert e[64..68] == EncodeS32(s.index);
    S32RoundTrip(s.index);
  }

  lemma {:induction false} TexCoordRoundTrip(t: TexCoord)
    ensures |Emit(TexCoordFields(t))| == 8
    ensures DecodeTexCoord(Emit(TexCoordFields(t))) == t
  {
    Fields2(Float(t.s), Float(t.t));
    var e := Emit(TexCoordFields(t));
    assert e[0..4] == t.s.Bytes();
    assert e[4..8] == t.t.Bytes();
  }

  lemma {:induction false} VertexRoundTrip(v: Vertex)
    requires AllWritable(VertexFields(v))
    ensures |Emit(VertexFields(v))| == 8
    ensures DecodeVertex(Emit(VertexFields(v))) == v
  {
    Fields4(I16(v.x), I16(v.y), I16(v.z), I16(v.normal));
    var e := Emit(VertexFields(v));
    assert e[0..2] == EncodeS16(v.x);
    assert e[2..4] == EncodeS16(v.y);
    assert e[4..6] == EncodeS16(v.z);
    assert e[6..8] == EncodeS16(v.normal);
    S16RoundTrip(v.x);
    S16RoundTrip(v.y);
    S16RoundTrip(v.z);
    S16RoundTrip(v.normal);
  }

  /** Decoding a frame from its five parts, laid end to end. */
  lemma {:induction false} DecodeFrameParts(a: seq<byte>, b: seq<byte>, c: seq<byte>, r: seq<byte>, name: seq<byte>)
    requires |a| == 12 && |b| == 12 && |c| == 12 && |r| == 4 && |name| <= FRAME_NAME
    ensures DecodeFrame(a + b + c + r + name) == Frame(DecodeVec3(a), DecodeVec3(b), DecodeVec3(c), DecodeF32(r), name)
  {
    var w := a + b + c + r + name;
    assert w[0..12] == a;
    assert w[12..24] == b;
    assert w[24..36] == c;
    assert w[36..40] == r;
    assert w[40..] == name;
  }

  lemma {:induction false} FrameRoundTrip(fr: Frame)
    requires AllWritable(FrameFields(fr))
    ensures |Emit(FrameFields(fr))| == 56
    ensures DecodeFrame(Emit(FrameFields(fr))) == fr.(name := PadName(fr.name, FRAME_NAME))
  {
    var a, b, c := Vec3Fields(fr.minBounds), Vec3Fields(fr.maxBounds), Vec3Fields(fr.localOrigin);
    var tail := [Float(fr.radius), Name(fr.name, FRAME_NAME)];
    Fields2(Float(fr.radius), Name(fr.name, FRAME_NAME));
    AllWritableAppend(a, b);
    AllWritableAppend(a + b, c);
    EmitAppend(a, b);
    EmitAppend(a + b, c);
    EmitAppend(a + b + c, tail);
    Vec3RoundTrip(fr.minBounds);
    Vec3RoundTrip(fr.maxBounds);
    Vec3RoundTrip(fr.localOrigin);
    var pad := PadName(fr.name, FRAME_NAME);
    assert Emit(FrameFields(fr)) == Emit(a) + Emit(b) + Emit(c) + fr.radius.Bytes() + pad;
    DecodeFrameParts(Emit(a), Emit(b), Emit(c), fr.radius.Bytes(), pad);
  }

  /** Decoding a tag from its five parts, laid end to end. */
  lemma {:induction false} DecodeTagParts(name: seq<byte>, o: seq<byte>, x: seq<byte>, y: seq<byte>, z: seq<byte>)
    requires |name| == 64 && |o| == 12 && |x| == 12 && |y| == 12 && |z| == 12
    ensures DecodeTag(name + o + x + y + z) == Tag(name, DecodeVec3(o), DecodeVec3(x), DecodeVec3(y), DecodeVec3(z))
  {
    var w := name + o + x + y + z;
    assert w[0..64] == name;
    assert w[64..76] == o;
    assert w[76..88] == x;
    assert w[88..100] == y;
    assert w[100..112] == z;
  }

  lemma {:induction false} TagRoundTrip(t: Tag)
    requires AllWritable(TagFields(t))
    ensures |Emit(TagFields(t))| == 112
    ensures DecodeTag(Emit(TagFields(t))) == t.(name := PadName(t.name, MAX_QPATH))
  {
    var a := [Name(t.name, MAX_QPATH)];
    var b, c, d, e := Vec3Fields(t.origin), Vec3Fields(t.axis0), Vec3Fields(t.axis1), Vec3Fields(t.axis2);
    EmitSingle(Name(t.name, MAX_QPATH));
    AllWritableAppend(a, b);
    AllWritableAppend(a + b, c);
    AllWritableAppend(a + b + c, d);
    EmitAppend(a, b);
    EmitAppend(a + b, c);
    EmitAppend(a + b + c, d);
    EmitAppend(a + b + c + d, e);
    Vec3RoundTrip(t.origin);
    Vec3RoundTrip(t.axis0);
    Vec3RoundTrip(t.axis1);
    Vec3RoundTrip(t.axis2);
    var pad := PadName(t.name, MAX_QPATH);
    assert Emit(TagFields(t)) == pad + Emit(b) + Emit(c) + Emit(d) + Emit(e);
    DecodeTagParts(pad, Emit(b), Emit(c), Emit(d), Emit(e));
  }

  method ReadVec3(f: Stream) returns (r: Option<Vec3>)
    modifies f`pos
    ensures r.Some? <==> old(f.pos) + 12 <= |f.data|
    ensures r.Some? ==> r.value == Vec3At(f.data, old(f.pos)) && f.pos == old(f.pos) + 12
  {
    var p := f.pos;
    var x := ReadS32(f);
    if x.None? { return None; }
    var y := ReadS32(f);
    if y.None? { return None; }
    var z := ReadS32(f);
    if z.None? { return None; }
    SubSlice(f.data, p, 12, 0, 4);
    SubSlice(f.data, p, 12, 4, 8);
    SubSlice(f.data, p, 12, 8, 12);
    r := Some(Vec3(x.value, y.value, z.value));
  }

  method WriteVec3(f: Stream, v: Vec3) returns (ok: bool)
    modifies f
    ensures ok == AllWritable(Vec3Fields(v))
    ensures f.data == Overwrite(old(f.data), old(f.pos), Emit(Vec3Fields(v)))
    ensures f.pos == old(f.pos) + |Emit(Vec3Fields(v))|
  {
    ok := WriteFields(f, Vec3Fields(v));
  }

  method ReadShader(f: Stream) returns (r: Option<Shader>)
    modifies f`pos
    ensures r.Some? <==> old(f.pos) + 68 <= |f.data|
    ensures r.Some? ==> r.value == ShaderAt(f.data, old(f.pos)) && f.pos == old(f.pos) + 68
  {
    var p := f.pos;
    var name := ReadMax(f, MAX_QPATH);
    var index := ReadS32(f);
    if index.None? { return None; }
    SubSlice(f.data, p, 68, 0, 64);
    SubSlice(f.data, p, 68, 64, 68);
    r := Some(Shader(name, index.value));
  }

  method WriteShader(f: Stream, s: Shader) returns (ok: bool)
    modifies f
    ensures ok == AllWritable(ShaderFields(s))
    ensures f.data == Overwrite(old(f.data), old(f.pos), Emit(ShaderFields(s)))
    ensures f.pos == old(f.pos) + |Emit(ShaderFields(s))|
  {
    ok := WriteFields(f, ShaderFields(s));
  }

  method ReadTriangle(f: Stream) returns (r: Option<Triangle>)
    modifies f`pos
    ensures r.Some? <==> old(f.pos) + 12 <= |f.data|
    ensures r.Some? ==> r.value == TriangleAt(f.data, old(f.pos)) && f.pos == old(f.pos) + 12
  {
    var p := f.pos;
    var a := ReadS32(f);
    if a.None? { return None; }
    var b := ReadS32(f);
    if b.None? { return None; }
    var c := ReadS32(f);
    if c.None? { return None; }
    SubSlice(f.data, p, 12, 0, 4);
    SubSlice(f.data, p, 12, 4, 8);
    SubSlice(f.data, p, 12, 8, 12);
    r := Some(Triangle(a.value, b.value, c.value));
  }

  method WriteTriangle(f: Stream, t: Triangle) returns (ok: bool)
    modifies f
    ensures ok == AllWritable(TriangleFields(t))
    ensures f.data == Overwrite(old(f.data), old(f.pos), Emit(TriangleFields(t)))
    ensures f.pos == old(f.pos) + |Emit(TriangleFields(t))|
  {
    ok := WriteFields(f, TriangleFields(t));
  }

  method ReadTexCoord(f: Stream) returns (r: Option<TexCoord>)
    modifies f`pos
    ensures r.Some? <==> old(f.pos) + 8 <= |f.data|
    ensures r.Some? ==> r.value == TexCoordAt(f.data, old(f.pos)) && f.pos == old(f.pos) + 8
  {
    var p := f.pos;
    var s := ReadF32(f);
    if s.None? { return None; }
    var t := ReadF32(f);
    if t.None? { return None; }
    SubSlice(f.data, p, 8, 0, 4);
    SubSlice(f.data, p, 8, 4, 8);
    r := Some(TexCoord(s.value, t.value));
  }

  method WriteTexCoord(f: Stream, t: TexCoord) returns (ok: bool)
    modifies f
    ensures ok == AllWritable(TexCoordFields(t))
    ensures f.data == Overwrite(old(f.data), old(f.pos), Emit(TexCoordFields(t)))
    ensures f.pos == old(f.pos) + |Emit(TexCoordFields(t))|
  {
    ok := WriteFields(f, TexCoordFields(t));
  }

  method ReadVertex(f: Stream) returns (r: Option<Vertex>)
    modifies f`pos
    ensures r.Some? <==> old(f.pos) + 8 <= |f.data|
    ensures r.Some? ==> r.value == VertexAt(f.data, old(f.pos)) && f.pos == old(f.pos) + 8
  {
    var p := f.pos;
    var x := ReadS16(f);
    if x.None? { return None; }
    var y := ReadS16(f);
    if y.None? { return None; }
    var z := ReadS16(f);
    if z.None? { return None; }
    var normal := ReadS16(f);
    if normal.None? { return None; }
    SubSlice(f.data, p, 8, 0, 2);
    SubSlice(f.data, p, 8, 2, 4);
    SubSlice(f.data, p, 8, 4, 6);
    SubSlice(f.data, p, 8, 6, 8);
    r := Some(Vertex(x.value, y.value, z.value, normal.value));
  }

  method WriteVertex(f: Stream, v: Vertex) returns (ok: bool)
    modifies f
    ensures ok == AllWritable(VertexFields(v))
    ensures f.data == Overwrite(old(f.data), old(f.pos), Emit(VertexFields(v)))
    ensures f.pos == old(f.pos) + |Emit(VertexFields(v))|
  {
    ok := WriteFields(f, VertexFields(v));
  }

  /** The trailing name is read with `readmax`, whose short read at the end
      of the file is not an error: a frame whose name runs past the end of
      the file is still read. */
  method ReadFrame(f: Stream) returns (r: Option<Frame>)
    modifies f`pos
    ensures r.Some? <==> old(f.pos) + 40 <= |f.data|
    ensures r.Some? ==> r.value == FrameAt(f.data, old(f.pos))
    ensures r.Some? ==> f.pos == old(f.pos) + 40 + |Window(f.data, old(f.pos) + 40, FRAME_NAME)|
  {
    var p := f.pos;
    var mn := ReadVec3(f);
    if mn.None? { return None; }
    var mx := ReadVec3(f);
    if mx.None? { return None; }
    var origin := ReadVec3(f);
    if origin.None? { return None; }
    var radius := ReadF32(f);
    if radius.None? { return None; }
    var name := ReadMax(f, FRAME_NAME);
    FrameAtParts(f.data, p);
    r := Some(Frame(mn.value, mx.value, origin.value, radius.value, name));
  }

  method WriteFrame(f: Stream, fr: Frame) returns (ok: bool)
    modifies f
    ensures ok == AllWritable(FrameFields(fr))
    ensures f.data == Overwrite(old(f.data), old(f.pos), Emit(FrameFields(fr)))
    ensures f.pos == old(f.pos) + |Emit(FrameFields(fr))|
  {
    ok := WriteFields(f, FrameFields(fr));
  }

  /** `Tag.read` with its fields given the meaning the file and `Tag.write`
      give them: the name, the origin and the three axes, in file order. */
  method ReadTag(f: Stream) returns (r: Option<Tag>)
    modifies f`pos
    ensures r.Some? <==> old(f.pos) + 112 <= |f.data|
    ensures r.Some? ==> r.value == TagAt(f.data, old(f.pos)) && f.pos == old(f.pos) + 112
  {
    var p := f.pos;
    var name := ReadMax(f, MAX_QPATH);
    var origin := ReadVec3(f);
    if origin.None? { return None; }
    var a0 := ReadVec3(f);
    if a0.None? { return None; }
    var a1 := ReadVec3(f);
    if a1.None? { return None; }
    var a2 := ReadVec3(f);
    if a2.None? { return None; }
    SubSlice(f.data, p, 112, 0, 64);
    SubSlice(f.data, p, 112, 64, 76);
    SubSlice(f.data, p, 112, 76, 88);
    SubSlice(f.data, p, 112, 88, 100);
    SubSlice(f.data, p, 112, 100, 112);
    r := Some(Tag(name, origin.value, a0.value, a1.value, a2.value));
  }

  method WriteTag(f: Stream, t: Tag) returns (ok: bool)
    modifies f
    ensures ok == AllWritable(TagFields(t))
    ensures f.data == Overwrite(old(f.data), old(f.pos), Emit(TagFields(t)))
    ensures f.pos == old(f.pos) + |Emit(TagFields(t))|
  {
    ok := WriteFields(f, TagFields(t));
  }

  /** What one attribute of a Python `Tag` object holds. */
  datatype TagAttribute = Text(bytes: seq<byte>) | Vector(v: Vec3) | Vectors(vs: seq<Vec3>)

  /** A `Tag` object as the source keeps it: `NAME`, `ORIGIN`, `AXIS_ROTATION`. */
  datatype TagObject = TagObject(name: TagAttribute, origin: TagAttribute, axisRotation: TagAttribute)

  /** `Tag(origin, axis_rotation, name)`: the constructor's parameters, in its order. */
  function NewTag(origin: TagAttribute, axisRotation: TagAttribute, name: TagAttribute): TagObject
  {
    TagObject(name, origin, axisRotation)
  }

  /** The object a tag should become: its name, its origin and its axes. */
  function IntendedTag(t: Tag): TagObject
  {
    NewTag(Vector(t.origin), Vectors([t.axis0, t.axis1, t.axis2]), Text(t.name))
  }

  /** `Tag.read` as written: the name, the origin and the axes, read in file
      order, are passed to the constructor in that order, which is not its
      own. */
  function TagObjectAt(d: seq<byte>, p: nat): TagObject
    requires p + 112 <= |d|
  {
    var t := TagAt(d, p);
    NewTag(Text(t.name), Vector(t.origin), Vectors([t.axis0, t.axis1, t.axis2]))
  }

  /** `Tag.write` of an object: the fields it writes, or `None` where it
      raises. `NAME.encode` needs a string, `ORIGIN.write` a vector and
      `AXIS_ROTATION[i].write` a list of at least three vectors. */
  function TagObjectFields(o: TagObject): Option<seq<Field>>
  {
    if !o.name.Text? || !o.origin.Vector? || !o.axisRotation.Vectors? || |o.axisRotation.vs| < 3 then None
    else Some(TagFields(Tag(o.name.bytes, o.origin.v, o.axisRotation.vs[0], o.axisRotation.vs[1], o.axisRotation.vs[2])))
  }

  /** `Tag.read` as written, on a file. */
  method ReadTagAsWritten(f: Stream) returns (r: Option<TagObject>)
    modifies f`pos
    ensures r.Some? <==> old(f.pos) + 112 <= |f.data|
    ensures r.Some? ==> r.value == TagObjectAt(f.data, old(f.pos)) && f.pos == old(f.pos) + 112
  {
    var t := ReadTag(f);
    if t.None? {
      return None;
    }
    r := Some(NewTag(Text(t.value.name), Vector(t.value.origin), Vectors([t.value.axis0, t.value.axis1, t.value.axis2])));
  }

  /** A tag the source reads holds the three axes as its name, the name as its
      origin and the origin as its axes, and writing it back raises at
      `NAME.encode`: no tag read from a file can be written again. */
  lemma {:induction false} TagReadNotWritable(d: seq<byte>, p: nat)
    requires p + 112 <= |d|
    ensures TagObjectAt(d, p).name == Vectors([TagAt(d, p).axis0, TagAt(d, p).axis1, TagAt(d, p).axis2])
    ensures TagObjectAt(d, p).origin == Text(TagAt(d, p).name)
    ensures TagObjectAt(d, p).axisRotation == Vector(TagAt(d, p).origin)
    ensures TagObjectFields(TagObjectAt(d, p)) == None
  {
  }

  /** With the intended assignment, `Tag.write` writes exactly the tag's
      fields, and what it writes reads back as the same object, the name
      padded or cut to 64 bytes. */
  lemma {:induction false} IntendedTagRoundTrip(t: Tag)
    requires AllWritable(TagFields(t))
    ensures TagObjectFields(IntendedTag(t)) == Some(TagFields(t))
    ensures |Emit(TagFields(t))| == 112
    ensures IntendedTag(TagAt(Emit(TagFields(t)), 0)) == IntendedTag(t.(name := PadName(t.name, MAX_QPATH)))
  {
    TagRoundTrip(t);
    assert Emit(TagFields(t))[0..112] == Emit(TagFields(t));
  }
}
