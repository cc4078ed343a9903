/**
  `Surface.read(f, ofs_surface)` of Utilities.py. The header is read where
  the cursor stands; each block is then read after seeking to its offset
  plus `ofs_surface`, in the order shaders, triangles, texture coordinates,
  vertices. A read past the end of the file and a seek to a negative
  position both raise: the model returns `None` for either.
*/
module SurfaceReader {
  import opened Bytes
  import opened Wrappers
  import opened Streams
  import opened Primitives
  import opened Records
  import opened Surfaces

  /** The number of rounds of `for _ in range(n)`: none for a negative `n`. */
  function Count(n: int): nat
  {
    if n < 0 then 0 else n
  }

  /** `n` bytes can be read from `p`: reading none always succeeds, even
      with the cursor past the end of the file. */
  predicate Fits(d: seq<byte>, p: nat, n: nat)
  {
    n == 0 || p + n <= |d|
  }

  function S32At(d: seq<byte>, p: nat): int
    requires p + 4 <= |d|
  {
    DecodeS32(d[p..p + 4])
  }

  /** Integer `k` of the ten after the name, in a header at `q`. */
  function HeaderInt(d: seq<byte>, q: nat, k: nat): int
    requires k < 10 && q + INTS_AT + 4 * k + 4 <= |d|
  {
    S32At(d, q + INTS_AT + 4 * k)
  }

  /** The ten integers after the name of the header at `q`. */
  function HeaderIntsAt(d: seq<byte>, q: nat): (xs: seq<int>)
    requires q + HEADER_SIZE <= |d|
    ensures |xs| == 10
  {
    [HeaderInt(d, q, 0), HeaderInt(d, q, 1), HeaderInt(d, q, 2), HeaderInt(d, q, 3), HeaderInt(d, q, 4),
     HeaderInt(d, q, 5), HeaderInt(d, q, 6), HeaderInt(d, q, 7), HeaderInt(d, q, 8), HeaderInt(d, q, 9)]
  }

  function ShadersAt(d: seq<byte>, p: nat, n: nat): seq<Shader>
    requires Fits(d, p, 68 * n)
  {
    seq(n, k requires 0 <= k < n => ShaderAt(d, p + 68 * k))
  }

  function TrianglesAt(d: seq<byte>, p: nat, n: nat): seq<Triangle>
    requires Fits(d, p, 12 * n)
  {
    seq(n, k requires 0 <= k < n => TriangleAt(d, p + 12 * k))
  }

  /** Entries read from a file are never `None`. */
  function TexCoordsAt(d: seq<byte>, p: nat, n: nat): seq<Option<TexCoord>>
    requires Fits(d, p, 8 * n)
  {
    seq(n, k requires 0 <= k < n => Some(TexCoordAt(d, p + 8 * k)))
  }

  function VerticesAt(d: seq<byte>, p: nat, n: nat): seq<Option<Vertex>>
    requires Fits(d, p, 8 * n)
  {
    seq(n, k requires 0 <= k < n => Some(VertexAt(d, p + 8 * k)))
  }

  /** `rows` rows of `cols` vertices each, back to back. */
  function GridAt(d: seq<byte>, p: nat, rows: nat, cols: nat): (g: seq<seq<Option<Vertex>>>)
    requires Fits(d, p, Times(8 * cols, rows))
    ensures |g| == rows
    decreases rows
  {
    if rows == 0 then []
    else GridAt(d, p, rows - 1, cols) + [VerticesAt(d, p + Times(8 * cols, rows - 1), cols)]
  }

  /** Row `r` of the grid is the `cols` vertices at `p + 8 * cols * r`. */
  lemma {:induction false} GridAtRow(d: seq<byte>, p: nat, rows: nat, cols: nat, r: nat)
    requires Fits(d, p, Times(8 * cols, rows)) && r < rows
    ensures Fits(d, p + Times(8 * cols, r), 8 * cols)
    ensures GridAt(d, p, rows, cols)[r] == VerticesAt(d, p + Times(8 * cols, r), cols)
    decreases rows
  {
    if r < rows - 1 {
      GridAtRow(d, p, rows - 1, cols, r);
    }
  }

  /** The surface whose header starts at `q`, with its blocks at their
      offsets from `base`; `None` when a read runs past the end of the file
      or an offset plus `base` is negative. */
  function SurfaceAt(d: seq<byte>, q: nat, base: int): Option<Surface>
  {
    if |d| < q + HEADER_SIZE then None
    else
      var xs := HeaderIntsAt(d, q);
      var nf, ns, nv, nt := Count(xs[1]), Count(xs[2]), Count(xs[3]), Count(xs[4]);
      var pt, ps, pu, px := xs[5] + base, xs[6] + base, xs[7] + base, xs[8] + base;
      if ps < 0 || !Fits(d, ps, 68 * ns) then None
      else if pt < 0 || !Fits(d, pt, 12 * nt) then None
      else if pu < 0 || !Fits(d, pu, 8 * nv) then None
      else if px < 0 || !Fits(d, px, Times(8 * nv, nf)) then None
      else Some(Surface(S32At(d, q), d[q + 4..q + INTS_AT],
                        xs[0], xs[1], xs[2], xs[3], xs[4], xs[5], xs[6], xs[7], xs[8], xs[9],
                        ShadersAt(d, ps, ns), TrianglesAt(d, pt, nt), TexCoordsAt(d, pu, nv), GridAt(d, px, nf, nv)))
  }

  /** Integer `k` of the ten after the name of the header at `q`. The
      cursor is at it, or already at the end of the file when an earlier
      read came up short. */
  method ReadHeaderInt(f: Stream, ghost q: nat, k: nat) returns (r: Option<int>)
    requires k < 10
    requires f.pos == q + INTS_AT + 4 * k || |f.data| <= f.pos < q + INTS_AT + 4 * k
    modifies f`pos
    ensures r.Some? <==> q + INTS_AT + 4 * k + 4 <= |f.data|
    ensures r.Some? ==> r.value == HeaderInt(f.data, q, k) && f.pos == q + INTS_AT + 4 * k + 4
  {
    r := ReadS32(f);
  }

  /** The ten integers after the name, read one after the other. A name
      cut short by the end of the file leaves the cursor there, and the
      first of them fails. */
  method ReadHeaderInts(f: Stream, ghost q: nat) returns (r: Option<seq<int>>)
    requires f.pos == q + INTS_AT || |f.data| <= f.pos < q + INTS_AT
    modifies f`pos
    ensures r.Some? <==> q + HEADER_SIZE <= |f.data|
    ensures r.Some? ==> r.value == HeaderIntsAt(f.data, q) && f.pos == q + HEADER_SIZE
  {
    var flags := ReadHeaderInt(f, q, 0);
    if flags.None? { return None; }
    var numFrames := ReadHeaderInt(f, q, 1);
    if numFrames.None? { return None; }
    var numShaders := ReadHeaderInt(f, q, 2);
    if numShaders.None? { return None; }
    var numVerts := ReadHeaderInt(f, q, 3);
    if numVerts.None? { return None; }
    var numTriangles := ReadHeaderInt(f, q, 4);
    if numTriangles.None? { return None; }
    var ofsTriangles := ReadHeaderInt(f, q, 5);
    if ofsTriangles.None? { return None; }
    var ofsShaders := ReadHeaderInt(f, q, 6);
    if ofsShaders.None? { return None; }
    var ofsSt := ReadHeaderInt(f, q, 7);
    if ofsSt.None? { return None; }
    var ofsXyzNormal := ReadHeaderInt(f, q, 8);
    if ofsXyzNormal.None? { return None; }
    var ofsEnd := ReadHeaderInt(f, q, 9);
    if ofsEnd.None? { return None; }
    r := Some([flags.value, numFrames.value, numShaders.value, numVerts.value, numTriangles.value,
               ofsTriangles.value, ofsShaders.value, ofsSt.value, ofsXyzNormal.value, ofsEnd.value]);
  }

  method ReadShaders(f: Stream, n: int) returns (r: Option<seq<Shader>>)
    modifies f`pos
    ensures r.Some? <==> Fits(f.data, old(f.pos), 68 * Count(n))
    ensures r.Some? ==> r.value == ShadersAt(f.data, old(f.pos), Count(n)) && f.pos == old(f.pos) + 68 * Count(n)
  {
    var p := f.pos;
    var shaders := [];
    var i := 0;
    while i < Count(n)
      invariant i <= Count(n) && f.pos == p + 68 * i && Fits(f.data, p, 68 * i)
      invariant shaders == ShadersAt(f.data, p, i)
    {
      var x := ReadShader(f);
      if x.None? {
        return None;
      }
      shaders := shaders + [x.value];
      i := i + 1;
    }
    r := Some(shaders);
  }

  method ReadTriangles(f: Stream, n: int) returns (r: Option<seq<Triangle>>)
    modifies f`pos
    ensures r.Some? <==> Fits(f.data, old(f.pos), 12 * Count(n))
    ensures r.Some? ==> r.value == TrianglesAt(f.data, old(f.pos), Count(n)) && f.pos == old(f.pos) + 12 * Count(n)
  {
    var p := f.pos;
    var triangles := [];
    var i := 0;
    while i < Count(n)
      invariant i <= Count(n) && f.pos == p + 12 * i && Fits(f.data, p, 12 * i)
      invariant triangles == TrianglesAt(f.data, p, i)
    {
      var x := ReadTriangle(f);
      if x.None? {
        return None;
      }
      triangles := triangles + [x.value];
      i := i + 1;
    }
    r := Some(triangles);
  }

  method ReadTexCoords(f: Stream, n: int) returns (r: Option<seq<Option<TexCoord>>>)
    modifies f`pos
    ensures r.Some? <==> Fits(f.data, old(f.pos), 8 * Count(n))
    ensures r.Some? ==> r.value == TexCoordsAt(f.data, old(f.pos), Count(n)) && f.pos == old(f.pos) + 8 * Count(n)
  {
    var p := f.pos;
    var sts := [];
    var i := 0;
    while i < Count(n)
      invariant i <= Count(n) && f.pos == p + 8 * i && Fits(f.data, p, 8 * i)
      invariant sts == TexCoordsAt(f.data, p, i)
    {
      var x := ReadTexCoord(f);
      if x.None? {
        return None;
      }
      sts := sts + [x];
      i := i + 1;
    }
    r := Some(sts);
  }

  /** One row of the vertex grid: the inner loop of the source. */
  method ReadVertices(f: Stream, n: int) returns (r: Option<seq<Option<Vertex>>>)
    modifies f`pos
    ensures r.Some? <==> Fits(f.data, old(f.pos), 8 * Count(n))
    ensures r.Some? ==> r.value == VerticesAt(f.data, old(f.pos), Count(n)) && f.pos == old(f.pos) + 8 * Count(n)
  {
    var p := f.pos;
    var row := [];
    var i := 0;
    while i < Count(n)
      invariant i <= Count(n) && f.pos == p + 8 * i && Fits(f.data, p, 8 * i)
      invariant row == VerticesAt(f.data, p, i)
    {
      var x := ReadVertex(f);
      if x.None? {
        return None;
      }
      row := row + [x];
      i := i + 1;
    }
    r := Some(row);
  }

  method ReadGrid(f: Stream, rows: int, cols: int) returns (r: Option<seq<seq<Option<Vertex>>>>)
    modifies f`pos
    ensures r.Some? <==> Fits(f.data, old(f.pos), Times(8 * Count(cols), Count(rows)))
    ensures r.Some? ==> (r.value == GridAt(f.data, old(f.pos), Count(rows), Count(cols))
                         && f.pos == old(f.pos) + Times(8 * Count(cols), Count(rows)))
  {
    var p := f.pos;
    var xyzs := [];
    var i := 0;
    while i < Count(rows)
      invariant i <= Count(rows) && f.pos == p + Times(8 * Count(cols), i) && Fits(f.data, p, Times(8 * Count(cols), i))
      invariant xyzs == GridAt(f.data, p, i, Count(cols))
    {
      var row := ReadVertices(f, cols);
      if row.None? {
        TimesMono(8 * Count(cols), i + 1, Count(rows));
        return None;
      }
      xyzs := xyzs + [row.value];
      i := i + 1;
    }
    r := Some(xyzs);
  }

  /** Seek to `p` and read `n` shaders there: the seek fails when `p` is
      negative. */
  method ReadShaderBlock(f: Stream, p: int, n: int) returns (r: Option<seq<Shader>>)
    modifies f`pos
    ensures r.Some? <==> p >= 0 && Fits(f.data, p, 68 * Count(n))
    ensures r.Some? ==> r.value == ShadersAt(f.data, p, Count(n))
  {
    var ok := f.Seek(p);
    if !ok { return None; }
    r := ReadShaders(f, n);
  }

  /** Seek to `p` and read `n` triangles there. */
  method ReadTriangleBlock(f: Stream, p: int, n: int) returns (r: Option<seq<Triangle>>)
    modifies f`pos
    ensures r.Some? <==> p >= 0 && Fits(f.data, p, 12 * Count(n))
    ensures r.Some? ==> r.value == TrianglesAt(f.data, p, Count(n))
  {
    var ok := f.Seek(p);
    if !ok { return None; }
    r := ReadTriangles(f, n);
  }

  /** Seek to `p` and read `n` texture coordinates there. */
  method ReadTexCoordBlock(f: Stream, p: int, n: int) returns (r: Option<seq<Option<TexCoord>>>)
    modifies f`pos
    ensures r.Some? <==> p >= 0 && Fits(f.data, p, 8 * Count(n))
    ensures r.Some? ==> r.value == TexCoordsAt(f.data, p, Count(n))
  {
    var ok := f.Seek(p);
    if !ok { return None; }
    r := ReadTexCoords(f, n);
  }

  /** Seek to `p` and read `rows` rows of `cols` vertices there; the cursor
      ends past the grid. */
  method ReadGridBlock(f: Stream, p: int, rows: int, cols: int) returns (r: Option<seq<seq<Option<Vertex>>>>)
    modifies f`pos
    ensures r.Some? <==> p >= 0 && Fits(f.data, p, Times(8 * Count(cols), Count(rows)))
    ensures r.Some? ==> r.value == GridAt(f.data, p, Count(rows), Count(cols))
                        && f.pos == p + Times(8 * Count(cols), Count(rows))
  {
    var ok := f.Seek(p);
    if !ok { return None; }
    r := ReadGrid(f, rows, cols);
  }

  /** `Surface.read(f, ofs_surface)`. After a successful read the cursor is
      at the end of the vertex grid, which is where the next header is read
      from unless the caller seeks. */
  method Read(f: Stream, base: int) returns (r: Option<Surface>)
    modifies f`pos
    ensures r == SurfaceAt(f.data, old(f.pos), base)
    ensures r.Some? ==> f.pos == base + r.value.ofsXyzNormal + Times(8 * Count(r.value.numVerts), Count(r.value.numFrames))
  {
    var q := f.pos;
    var ident := ReadS32(f);
    if ident.None? { return None; }
    var name := ReadMax(f, MAX_QPATH);
    var ints := ReadHeaderInts(f, q);
    if ints.None? { return None; }
    r := ReadBody(f, q, base, ident.value, name, ints.value);
  }

  /** The four blocks of the surface whose header, at `q`, holds `ident`,
      `name` and the integers `xs`. */
  method ReadBody(f: Stream, ghost q: nat, base: int, ident: int, name: seq<byte>, xs: seq<int>)
    returns (r: Option<Surface>)
    requires q + HEADER_SIZE <= |f.data|
    requires ident == S32At(f.data, q) && name == f.data[q + 4..q + INTS_AT] && xs == HeaderIntsAt(f.data, q)
    modifies f`pos
    ensures r == SurfaceAt(f.data, q, base)
    ensures r.Some? ==> f.pos == base + r.value.ofsXyzNormal + Times(8 * Count(r.value.numVerts), Count(r.value.numFrames))
  {
    var shaders := ReadShaderBlock(f, xs[6] + base, xs[2]);
    if shaders.None? { return None; }
    var triangles := ReadTriangleBlock(f, xs[5] + base, xs[4]);
    if triangles.None? { return None; }
    var sts := ReadTexCoordBlock(f, xs[7] + base, xs[3]);
    if sts.None? { return None; }
    var xyzs := ReadGridBlock(f, xs[8] + base, xs[1], xs[3]);
    if xyzs.None? { return None; }
    r := Some(Surface(ident, name, xs[0], xs[1], xs[2], xs[3], xs[4], xs[5], xs[6], xs[7], xs[8], xs[9],
                      shaders.value, triangles.value, sts.value, xyzs.value));
  }

  /** Shaders as a reader gets them back: each name is its whole
      zero-padded field. */
  function PaddedShaders(ss: seq<Shader>): (r: seq<Shader>)
    ensures |r| == |ss|
  {
    seq(|ss|, k requires 0 <= k < |ss| => Shader(PadName(ss[k].name, MAX_QPATH), ss[k].index))
  }

  /** A surface as `Surface.read` returns it once written: the names come
      back as whole zero-padded fields. */
  function AsRead(s: Surface): Surface
  {
    s.(name := PadName(s.name, MAX_QPATH), shaders := PaddedShaders(s.shaders))
  }

  /** The counts in the header agree with the lists, and every row of the
      grid has one vertex per texture coordinate. */
  predicate Consistent(s: Surface)
  {
    && s.numShaders == |s.shaders| && s.numTriangles == |s.triangles|
    && s.numVerts == |s.sts| && s.numFrames == |s.xyzs|
    && forall r :: 0 <= r < |s.xyzs| ==> |s.xyzs[r]| == |s.sts|
  }

  /** What `SurfaceAt` yields, part by part. */
  lemma {:induction false} SurfaceAtParts(d: seq<byte>, q: nat, base: int, h: Surface,
                                          ps: nat, pt: nat, pu: nat, px: nat, ns: nat, nt: nat, nv: nat, nf: nat,
                                          sh: seq<Shader>, tr: seq<Triangle>, st: seq<Option<TexCoord>>,
                                          g: seq<seq<Option<Vertex>>>)
    requires q + HEADER_SIZE <= |d|
    requires S32At(d, q) == h.ident && d[q + 4..q + INTS_AT] == h.name
    requires HeaderIntsAt(d, q) == HeaderInts(h)
    requires ps == h.ofsShaders + base && pt == h.ofsTriangles + base && pu == h.ofsSt + base && px == h.ofsXyzNormal + base
    requires ns == Count(h.numShaders) && nt == Count(h.numTriangles) && nv == Count(h.numVerts) && nf == Count(h.numFrames)
    requires h.shaders == sh && h.triangles == tr && h.sts == st && h.xyzs == g
    requires Fits(d, ps, 68 * ns) && ShadersAt(d, ps, ns) == sh
    requires Fits(d, pt, 12 * nt) && TrianglesAt(d, pt, nt) == tr
    requires Fits(d, pu, 8 * nv) && TexCoordsAt(d, pu, nv) == st
    requires Fits(d, px, Times(8 * nv, nf)) && GridAt(d, px, nf, nv) == g
    ensures SurfaceAt(d, q, base) == Some(h)
  {
  }

  /** Bytes `i .. j` of what was written at `p`, `e`, are found at `p + i .. p + j`. */
  lemma {:induction false} WrittenSlice(d: seq<byte>, p: nat, b: seq<byte>, w: seq<byte>, i: nat, j: nat, e: seq<byte>)
    requires w == Overwrite(d, p, b)
    requires i <= j <= |b| && b != [] && b[i..j] == e
    ensures p + j <= |w| && w[p + i..p + j] == e
  {
    OverwriteWindow(d, p, b);
    SubSlice(w, p, |b|, i, j);
  }


  /** Bytes `i .. j` of the slice `p .. q` are bytes `p + i .. p + j`. */
  lemma {:induction false} SubSliceAt(d: seq<byte>, p: nat, q: nat, i: nat, j: nat)
    requires p <= q <= |d| && i <= j <= q - p
    ensures d[p..q][i..j] == d[p + i..p + j]
  {
    SubSlice(d, p, q - p, i, j);
  }

  /** What sits at `i .. j` in bytes `p .. q` sits at `lo .. hi`, which
      are `p + i .. p + j`. */
  lemma {:induction false} SliceTransfer(d: seq<byte>, p: nat, q: nat, e: seq<byte>, i: nat, j: nat, x: seq<byte>,
                                         lo: nat, hi: nat)
    requires p <= q <= |d| && i <= j <= q - p
    requires d[p..q] == e && e[i..j] == x
    requires lo == p + i && hi == p + j
    ensures hi <= |d| && d[lo..hi] == x
  {
    SubSliceAt(d, p, q, i, j);
  }

  /** Bytes `i .. j` of the right operand, found past the left one. */
  lemma {:induction false} SliceOfAppendShift<T>(x: seq<T>, y: seq<T>, i: nat, j: nat)
    requires i <= j <= |y|
    ensures (x + y)[|x| + i..|x| + j] == y[i..j]
  {
  }

  /** Where a header was written, its integer `k` reads back. */
  lemma {:induction false} HeaderIntBack(d: seq<byte>, q: nat, s: Surface, k: nat)
    requires IsS32(s.ident) && AllS32(HeaderInts(s)) && k < 10
    requires q + HEADER_SIZE <= |d| && d[q..q + HEADER_SIZE] == HeaderPrefix(s) + Int32Bytes(HeaderInts(s))
    ensures HeaderInt(d, q, k) == HeaderInts(s)[k]
  {
    var xs := HeaderInts(s);
    var a := INTS_AT + 4 * k;
    SubSlice(d, q, HEADER_SIZE, a, a + 4);
    SliceOfAppendShift(HeaderPrefix(s), Int32Bytes(xs), 4 * k, 4 * k + 4);
    Int32BytesAt(xs, k);
    assert d[q + a..q + a + 4] == EncodeS32(xs[k]);
    S32RoundTrip(xs[k]);
    assert q + INTS_AT + 4 * k == q + a;
  }

  /** Where a header was written, its ident, name and integers read back. */
  lemma {:induction false} HeaderReadBack(d: seq<byte>, q: nat, s: Surface)
    requires AllWritable(HeaderFields(s))
    requires q + HEADER_SIZE <= |d| && d[q..q + HEADER_SIZE] == Emit(HeaderFields(s))
    ensures S32At(d, q) == s.ident
    ensures d[q + 4..q + INTS_AT] == PadName(s.name, MAX_QPATH)
    ensures HeaderIntsAt(d, q) == HeaderInts(s)
  {
    HeaderBytes(s);
    var e := Emit(HeaderFields(s));
    assert e == EncodeS32(s.ident) + PadName(s.name, MAX_QPATH) + Int32Bytes(HeaderInts(s));
    SubSlice(d, q, HEADER_SIZE, 0, 4);
    assert e[0..4] == EncodeS32(s.ident);
    S32RoundTrip(s.ident);
    SubSlice(d, q, HEADER_SIZE, 4, INTS_AT);
    assert e[4..INTS_AT] == PadName(s.name, MAX_QPATH);
    forall k | 0 <= k < 10
      ensures HeaderInt(d, q, k) == HeaderInts(s)[k]
    {
      HeaderIntBack(d, q, s, k);
    }
  }

  /** Record `k` of a list of records written at `p` is found `w * k`
      bytes further on. */
  lemma {:induction false} RecordBack(d: seq<byte>, p: nat, q: nat, rs: seq<seq<Field>>, w: nat, k: nat, lo: nat)
    requires k < |rs| && RecordsWritable(rs, |rs|) && Uniform(rs, w)
    requires q == p + Times(w, |rs|) <= |d| && d[p..q] == EmitRecords(rs, |rs|)
    requires lo == p + Times(w, k)
    ensures AllWritable(rs[k]) && lo + w <= |d|
    ensures d[lo..lo + w] == Emit(rs[k])
  {
    RecordInBlock(rs, w, k);
    SliceTransfer(d, p, q, EmitRecords(rs, |rs|), Times(w, k), Times(w, k) + w, Emit(rs[k]), lo, lo + w);
  }

  /** Record `k` of a block of records of `w` bytes each is writable and
      is emitted at `w * k`. */
  lemma {:induction false} RecordInBlock(rs: seq<seq<Field>>, w: nat, k: nat)
    requires k < |rs| && RecordsWritable(rs, |rs|) && Uniform(rs, w)
    ensures AllWritable(rs[k])
    ensures Times(w, k) + w <= Times(w, |rs|) == |EmitRecords(rs, |rs|)|
    ensures EmitRecords(rs, |rs|)[Times(w, k)..Times(w, k) + w] == Emit(rs[k])
  {
    EmitRecordsLength(rs, |rs|, w);
    EmitRecordsAt(rs, |rs|, w, k);
    RecordsWritableAt(rs, |rs|, k);
  }

  lemma {:induction false} ShaderBack(d: seq<byte>, p: nat, q: nat, ss: seq<Shader>, k: nat, lo: nat)
    requires k < |ss| && RecordsWritable(ShaderRecords(ss), |ss|)
    requires q == p + 68 * |ss| <= |d| && d[p..q] == EmitRecords(ShaderRecords(ss), |ss|)
    requires lo == p + 68 * k
    ensures lo + 68 <= |d|
    ensures ShaderAt(d, lo) == Shader(PadName(ss[k].name, MAX_QPATH), ss[k].index)
  {
    TimesProduct(68, |ss|);
    TimesProduct(68, k);
    RecordBack(d, p, q, ShaderRecords(ss), 68, k, lo);
    ShaderRoundTrip(ss[k]);
  }

  lemma {:induction false} TriangleBack(d: seq<byte>, p: nat, q: nat, ts: seq<Triangle>, k: nat, lo: nat)
    requires k < |ts| && RecordsWritable(TriangleRecords(ts), |ts|)
    requires q == p + 12 * |ts| <= |d| && d[p..q] == EmitRecords(TriangleRecords(ts), |ts|)
    requires lo == p + 12 * k
    ensures lo + 12 <= |d|
    ensures TriangleAt(d, lo) == ts[k]
  {
    TimesProduct(12, |ts|);
    TimesProduct(12, k);
    RecordBack(d, p, q, TriangleRecords(ts), 12, k, lo);
    TriangleRoundTrip(ts[k]);
  }

  lemma {:induction false} TexCoordBack(d: seq<byte>, p: nat, q: nat, sts: seq<Option<TexCoord>>, k: nat, lo: nat)
    requires k < |sts| && RecordsWritable(StRecords(sts), |sts|)
    requires q == p + 8 * |sts| <= |d| && d[p..q] == EmitRecords(StRecords(sts), |sts|)
    requires lo == p + 8 * k
    ensures lo + 8 <= |d|
    ensures sts[k] == Some(TexCoordAt(d, lo))
  {
    TimesProduct(8, |sts|);
    TimesProduct(8, k);
    RecordBack(d, p, q, StRecords(sts), 8, k, lo);
    TexCoordRoundTrip(sts[k].value);
  }

  lemma {:induction false} VertexBack(d: seq<byte>, p: nat, q: nat, row: seq<Option<Vertex>>, k: nat, lo: nat)
    requires k < |row| && RecordsWritable(VertexRecords(row), |row|)
    requires q == p + 8 * |row| <= |d| && d[p..q] == EmitRecords(VertexRecords(row), |row|)
    requires lo == p + 8 * k
    ensures lo + 8 <= |d|
    ensures row[k] == Some(VertexAt(d, lo))
  {
    TimesProduct(8, |row|);
    TimesProduct(8, k);
    RecordBack(d, p, q, VertexRecords(row), 8, k, lo);
    VertexRoundTrip(row[k].value);
  }

  lemma {:induction false} ShadersReadBack(d: seq<byte>, p: nat, q: nat, n: nat, ss: seq<Shader>)
    requires n == |ss| && RecordsWritable(ShaderRecords(ss), |ss|)
    requires q == p + 68 * |ss| <= |d| && d[p..q] == EmitRecords(ShaderRecords(ss), |ss|)
    ensures Fits(d, p, 68 * n)
    ensures ShadersAt(d, p, n) == PaddedShaders(ss)
  {
    forall k | 0 <= k < n
      ensures ShadersAt(d, p, n)[k] == PaddedShaders(ss)[k]
    {
      ShaderBack(d, p, q, ss, k, p + 68 * k);
    }
  }

  lemma {:induction false} TrianglesReadBack(d: seq<byte>, p: nat, q: nat, n: nat, ts: seq<Triangle>)
    requires n == |ts| && RecordsWritable(TriangleRecords(ts), |ts|)
    requires q == p + 12 * |ts| <= |d| && d[p..q] == EmitRecords(TriangleRecords(ts), |ts|)
    ensures Fits(d, p, 12 * n)
    ensures TrianglesAt(d, p, n) == ts
  {
    forall k | 0 <= k < n
      ensures TrianglesAt(d, p, n)[k] == ts[k]
    {
      TriangleBack(d, p, q, ts, k, p + 12 * k);
    }
  }

  lemma {:induction false} TexCoordsReadBack(d: seq<byte>, p: nat, q: nat, n: nat, sts: seq<Option<TexCoord>>)
    requires n == |sts| && RecordsWritable(StRecords(sts), |sts|)
    requires q == p + 8 * |sts| <= |d| && d[p..q] == EmitRecords(StRecords(sts), |sts|)
    ensures Fits(d, p, 8 * n)
    ensures TexCoordsAt(d, p, n) == sts
  {
    forall k | 0 <= k < n
      ensures TexCoordsAt(d, p, n)[k] == sts[k]
    {
      TexCoordBack(d, p, q, sts, k, p + 8 * k);
    }
  }

  lemma {:induction false} VerticesReadBack(d: seq<byte>, p: nat, q: nat, n: nat, row: seq<Option<Vertex>>)
    requires n == |row| && RecordsWritable(VertexRecords(row), |row|)
    requires q == p + 8 * |row| <= |d| && d[p..q] == EmitRecords(VertexRecords(row), |row|)
    ensures Fits(d, p, 8 * n)
    ensures VerticesAt(d, p, n) == row
  {
    forall k | 0 <= k < n
      ensures VerticesAt(d, p, n)[k] == row[k]
    {
      VertexBack(d, p, q, row, k, p + 8 * k);
    }
  }

  lemma {:induction false} CellsUniform<T>(rows: seq<seq<T>>, n: nat, c: nat)
    requires n <= |rows| && forall r :: 0 <= r < n ==> |rows[r]| == c
    ensures Cells(rows, n) == Times(c, n)
  {
    if n > 0 {
      CellsUniform(rows, n - 1, c);
    }
  }

  lemma {:induction false} TimesOfTimes(c: nat, n: nat)
    ensures Times(8, Times(c, n)) == Times(8 * c, n)
  {
    TimesProduct(8, Times(c, n));
    if n > 0 {
      TimesOfTimes(c, n - 1);
      TimesProduct(8, Times(c, n - 1));
    }
  }

  /** Row `r` of rows of records written at `p`, here `e` of `n` records,
      is found past the cells of the rows before it, at `p + a .. p + b`. */
  lemma {:induction false} RowBack(d: seq<byte>, p: nat, q: nat, rows: seq<seq<seq<Field>>>, w: nat, r: nat,
                                   e: seq<seq<Field>>, n: nat, a: nat, b: nat, lo: nat, hi: nat)
    requires r < |rows| && RowsWritable(rows, |rows|) && UniformRows(rows, w)
    requires e == rows[r] && n == |e|
    requires q == p + |EmitRows(rows, |rows|)| <= |d| && d[p..q] == EmitRows(rows, |rows|)
    requires a == Times(w, Cells(rows, r)) && b == a + |EmitRecords(e, n)|
    requires lo == p + a && hi == p + b
    ensures RecordsWritable(e, n)
    ensures hi <= |d| && d[lo..hi] == EmitRecords(e, n)
  {
    RowInRows(rows, w, r, e, n, a, b);
    SliceTransfer(d, p, q, EmitRows(rows, |rows|), a, b, EmitRecords(e, n), lo, hi);
  }

  /** Row `r` of a grid of records of `w` bytes each is writable and is
      emitted at `a .. b`, after the cells of the rows before it. */
  lemma {:induction false} RowInRows(rows: seq<seq<seq<Field>>>, w: nat, r: nat, e: seq<seq<Field>>, n: nat, a: nat, b: nat)
    requires r < |rows| && RowsWritable(rows, |rows|) && UniformRows(rows, w)
    requires e == rows[r] && n == |e|
    requires a == Times(w, Cells(rows, r)) && b == a + |EmitRecords(e, n)|
    ensures RecordsWritable(e, n)
    ensures b <= |EmitRows(rows, |rows|)| && EmitRows(rows, |rows|)[a..b] == EmitRecords(e, n)
  {
    EmitRowsAt(rows, |rows|, w, r);
    RowsWritableAt(rows, |rows|, r);
  }

  /** The bytes of row `r` of a grid written at `p` are at `lo .. hi`,
      `lo` being `p + 8 * cols * r`. */
  lemma {:induction false} GridRowBytes(d: seq<byte>, p: nat, q: nat, g: seq<seq<Option<Vertex>>>, cols: nat, r: nat,
                                        lo: nat, hi: nat)
    requires r < |g| && forall i :: 0 <= i < |g| ==> |g[i]| == cols
    requires RowsWritable(VertexRows(g), |g|)
    requires q == p + |EmitRows(VertexRows(g), |g|)| <= |d| && d[p..q] == EmitRows(VertexRows(g), |g|)
    requires lo == p + Times(8 * cols, r) && hi == lo + 8 * cols
    ensures hi <= |d| && |g[r]| == cols
    ensures RecordsWritable(VertexRecords(g[r]), |g[r]|)
    ensures d[lo..hi] == EmitRecords(VertexRecords(g[r]), |g[r]|)
  {
    var rows := VertexRows(g);
    var e := VertexRecords(g[r]);
    var a := Times(8 * cols, r);
    assert rows[r] == e && |g[r]| == cols && |e| == |g[r]|;
    assert a == Times(8, Cells(rows, r)) by {
      VertexRowsCells(g, r);
      CellsUniform(g, r, cols);
      TimesOfTimes(cols, r);
    }
    assert |EmitRecords(e, |g[r]|)| == 8 * cols by {
      RowsWritableAt(rows, |rows|, r);
      EmitRecordsLength(e, |g[r]|, 8);
      TimesProduct(8, cols);
    }
    RowBack(d, p, q, rows, 8, r, e, |g[r]|, a, a + 8 * cols, lo, hi);
  }

  /** Row `r` of a grid written at `p` reads back from `lo`, which is
      `p + 8 * cols * r`. */
  lemma {:induction false} GridRowBack(d: seq<byte>, p: nat, q: nat, g: seq<seq<Option<Vertex>>>, cols: nat, r: nat, lo: nat)
    requires r < |g| && forall i :: 0 <= i < |g| ==> |g[i]| == cols
    requires RowsWritable(VertexRows(g), |g|)
    requires q == p + |EmitRows(VertexRows(g), |g|)| <= |d| && d[p..q] == EmitRows(VertexRows(g), |g|)
    requires lo == p + Times(8 * cols, r)
    ensures lo + 8 * cols <= |d|
    ensures VerticesAt(d, lo, cols) == g[r]
  {
    var hi := lo + 8 * cols;
    GridRowBytes(d, p, q, g, cols, r, lo, hi);
    VerticesReadBack(d, lo, hi, cols, g[r]);
  }

  /** A grid written at `p` reads back, row after row. */
  lemma {:induction false} GridReadBack(d: seq<byte>, p: nat, q: nat, rows: nat, cols: nat, g: seq<seq<Option<Vertex>>>)
    requires rows == |g| && forall r :: 0 <= r < |g| ==> |g[r]| == cols
    requires RowsWritable(VertexRows(g), |g|)
    requires q == p + |EmitRows(VertexRows(g), |g|)| <= |d| && d[p..q] == EmitRows(VertexRows(g), |g|)
    ensures q == p + Times(8 * cols, rows) && Fits(d, p, Times(8 * cols, rows))
    ensures GridAt(d, p, rows, cols) == g
  {
    assert q == p + Times(8 * cols, |g|) by {
      var rows := VertexRows(g);
      EmitRowsLength(rows, |g|, 8);
      VertexRowsCells(g, |g|);
      CellsUniform(g, |g|, cols);
      TimesOfTimes(cols, |g|);
    }
    forall r | 0 <= r < |g|
      ensures GridAt(d, p, rows, cols)[r] == g[r]
    {
      var lo := p + Times(8 * cols, r);
      GridRowBack(d, p, q, g, cols, r, lo);
      GridAtRow(d, p, rows, cols, r);
    }
  }

  /** The header of a surface `t` laid out in `b`, written at `start`,
      reads back. */
  lemma {:induction false} HeaderWrittenBack(d: seq<byte>, start: nat, b: seq<byte>, w: seq<byte>, t: Surface)
    requires w == Overwrite(d, start, b)
    requires AllWritable(HeaderFields(t))
    requires HEADER_SIZE <= |b| && b[0..HEADER_SIZE] == Emit(HeaderFields(t))
    ensures start + HEADER_SIZE <= |w|
    ensures S32At(w, start) == t.ident
    ensures w[start + 4..start + INTS_AT] == PadName(t.name, MAX_QPATH)
    ensures HeaderIntsAt(w, start) == HeaderInts(t)
  {
    WrittenSlice(d, start, b, w, 0, HEADER_SIZE, Emit(HeaderFields(t)));
    HeaderReadBack(w, start, t);
  }

  /** The triangles of a surface `t` laid out in `b`, written at `start`,
      read back. */
  lemma {:induction false} TrianglesWrittenBack(d: seq<byte>, start: nat, b: seq<byte>, w: seq<byte>, t: Surface, p: nat)
    requires w == Overwrite(d, start, b) && p == start + t.ofsTriangles
    requires RecordsWritable(TriangleRecords(t.triangles), |t.triangles|)
    requires b != [] && 0 <= t.ofsTriangles <= t.ofsShaders <= |b| && b[t.ofsTriangles..t.ofsShaders] == TrianglesBytes(t)
    requires t.ofsShaders == t.ofsTriangles + 12 * |t.triangles|
    ensures Fits(w, p, 12 * |t.triangles|)
    ensures TrianglesAt(w, p, |t.triangles|) == t.triangles
  {
    WrittenSlice(d, start, b, w, t.ofsTriangles, t.ofsShaders, TrianglesBytes(t));
    TrianglesReadBack(w, p, start + t.ofsShaders, |t.triangles|, t.triangles);
  }

  /** The shaders of a surface `t` laid out in `b`, written at `start`,
      read back with their names padded. */
  lemma {:induction false} ShadersWrittenBack(d: seq<byte>, start: nat, b: seq<byte>, w: seq<byte>, t: Surface, p: nat)
    requires w == Overwrite(d, start, b) && p == start + t.ofsShaders
    requires RecordsWritable(ShaderRecords(t.shaders), |t.shaders|)
    requires b != [] && 0 <= t.ofsShaders <= t.ofsSt <= |b| && b[t.ofsShaders..t.ofsSt] == ShadersBytes(t)
    requires t.ofsSt == t.ofsShaders + 68 * |t.shaders|
    ensures Fits(w, p, 68 * |t.shaders|)
    ensures ShadersAt(w, p, |t.shaders|) == PaddedShaders(t.shaders)
  {
    WrittenSlice(d, start, b, w, t.ofsShaders, t.ofsSt, ShadersBytes(t));
    ShadersReadBack(w, p, start + t.ofsSt, |t.shaders|, t.shaders);
  }

  /** The texture coordinates of a surface `t` laid out in `b`, written at
      `start`, read back. */
  lemma {:induction false} TexCoordsWrittenBack(d: seq<byte>, start: nat, b: seq<byte>, w: seq<byte>, t: Surface, p: nat)
    requires w == Overwrite(d, start, b) && p == start + t.ofsSt
    requires RecordsWritable(StRecords(t.sts), |t.sts|)
    requires b != [] && 0 <= t.ofsSt <= t.ofsXyzNormal <= |b| && b[t.ofsSt..t.ofsXyzNormal] == StBytes(t)
    requires t.ofsXyzNormal == t.ofsSt + 8 * |t.sts|
    ensures Fits(w, p, 8 * |t.sts|)
    ensures TexCoordsAt(w, p, |t.sts|) == t.sts
  {
    WrittenSlice(d, start, b, w, t.ofsSt, t.ofsXyzNormal, StBytes(t));
    TexCoordsReadBack(w, p, start + t.ofsXyzNormal, |t.sts|, t.sts);
  }

  /** A vertex grid `g` of `cols` columns laid out in `b` at `i .. j`, the
      end of `b`, written at `start`, reads back, one row per frame. */
  lemma {:induction false} GridWrittenBack(d: seq<byte>, start: nat, b: seq<byte>, w: seq<byte>, i: nat, j: nat,
                                           g: seq<seq<Option<Vertex>>>, cols: nat, p: nat)
    requires w == Overwrite(d, start, b) && p == start + i
    requires RowsWritable(VertexRows(g), |g|)
    requires forall r :: 0 <= r < |g| ==> |g[r]| == cols
    requires b != [] && i <= j == |b| && b[i..j] == EmitRows(VertexRows(g), |g|)
    ensures Fits(w, p, Times(8 * cols, |g|))
    ensures GridAt(w, p, |g|, cols) == g
  {
    WrittenSlice(d, start, b, w, i, j, EmitRows(VertexRows(g), |g|));
    GridReadBack(w, p, start + j, |g|, cols, g);
  }

  /** `b` holds the header of `t` and its four blocks, back to back at the
      offsets the header gives, the grid ending at the end of `b`, and the
      header counts agree with the lists. */
  predicate LaidOut(b: seq<byte>, t: Surface)
  {
    && HEADER_SIZE <= |b| && b[0..HEADER_SIZE] == Emit(HeaderFields(t))
    && 0 <= t.ofsTriangles <= t.ofsShaders <= t.ofsSt <= t.ofsXyzNormal <= t.ofsEnd == |b|
    && b[t.ofsTriangles..t.ofsShaders] == TrianglesBytes(t)
    && b[t.ofsShaders..t.ofsSt] == ShadersBytes(t)
    && b[t.ofsSt..t.ofsXyzNormal] == StBytes(t)
    && b[t.ofsXyzNormal..t.ofsEnd] == EmitRows(VertexRows(t.xyzs), |t.xyzs|)
    && t.ofsShaders == t.ofsTriangles + 12 * |t.triangles|
    && t.ofsSt == t.ofsShaders + 68 * |t.shaders|
    && t.ofsXyzNormal == t.ofsSt + 8 * |t.sts|
    && Count(t.numShaders) == |t.shaders| && Count(t.numTriangles) == |t.triangles|
    && Count(t.numVerts) == |t.sts| && Count(t.numFrames) == |t.xyzs|
    && forall r :: 0 <= r < |t.xyzs| ==> |t.xyzs[r]| == |t.sts|
  }

  /** The bytes written for a normalized surface are laid out as its header says. */
  lemma {:induction false} NormalizedBlocks(s: Surface)
    requires AllWritable(HeaderFields(Normalized(s))) && BodyWritable(Normalized(s))
    requires Consistent(s)
    ensures LaidOut(SurfaceBytes(Normalized(s)), Normalized(s))
  {
    var t := Normalized(s);
    NormalizedLayout(s);
    assert SurfaceBytes(t)[..t.ofsTriangles] == SurfaceBytes(t)[0..HEADER_SIZE];
  }

  /** A surface laid out in `b` and written at `start` reads back, with
      `start` as its base, with its names padded. */
  lemma {:induction false} LaidOutReadBack(d: seq<byte>, start: nat, b: seq<byte>, t: Surface)
    requires AllWritable(HeaderFields(t)) && BodyWritable(t) && LaidOut(b, t)
    ensures SurfaceAt(Overwrite(d, start, b), start, start) == Some(AsRead(t))
  {
    var w := Overwrite(d, start, b);
    var ps, pt, pu, px := start + t.ofsShaders, start + t.ofsTriangles, start + t.ofsSt, start + t.ofsXyzNormal;
    PartsWrittenBack(d, start, b, t, w, ps, pt, pu, px);
    PartsReadBack(w, start, t, ps, pt, pu, px);
  }

  /** Each part of `t`, as it would be read, sits in `w`: the header at
      `start`, the shaders at `ps`, the triangles at `pt`, the texture
      coordinates at `pu` and the vertex grid at `px`. */
  ghost predicate PartsAt(w: seq<byte>, start: nat, t: Surface, ps: nat, pt: nat, pu: nat, px: nat)
  {
    && start + HEADER_SIZE <= |w|
    && S32At(w, start) == t.ident
    && w[start + 4..start + INTS_AT] == PadName(t.name, MAX_QPATH)
    && HeaderIntsAt(w, start) == HeaderInts(t)
    && Count(t.numShaders) == |t.shaders| && Count(t.numTriangles) == |t.triangles|
    && Count(t.numVerts) == |t.sts| && Count(t.numFrames) == |t.xyzs|
    && Fits(w, pt, 12 * |t.triangles|) && TrianglesAt(w, pt, |t.triangles|) == t.triangles
    && Fits(w, ps, 68 * |t.shaders|) && ShadersAt(w, ps, |t.shaders|) == PaddedShaders(t.shaders)
    && Fits(w, pu, 8 * |t.sts|) && TexCoordsAt(w, pu, |t.sts|) == t.sts
    && Fits(w, px, Times(8 * |t.sts|, |t.xyzs|)) && GridAt(w, px, |t.xyzs|, |t.sts|) == t.xyzs
  }

  /** Writing the bytes laid out for `t` at `start` puts each of its parts
      where its header says. */
  lemma {:induction false} PartsWrittenBack(d: seq<byte>, start: nat, b: seq<byte>, t: Surface, w: seq<byte>,
                                            ps: nat, pt: nat, pu: nat, px: nat)
    requires AllWritable(HeaderFields(t)) && BodyWritable(t) && LaidOut(b, t)
    requires w == Overwrite(d, start, b)
    requires ps == start + t.ofsShaders && pt == start + t.ofsTriangles
    requires pu == start + t.ofsSt && px == start + t.ofsXyzNormal
    ensures PartsAt(w, start, t, ps, pt, pu, px)
  {
    HeaderWrittenBack(d, start, b, w, t);
    TrianglesWrittenBack(d, start, b, w, t, pt);
    ShadersWrittenBack(d, start, b, w, t, ps);
    TexCoordsWrittenBack(d, start, b, w, t, pu);
    GridWrittenBack(d, start, b, w, t.ofsXyzNormal, t.ofsEnd, t.xyzs, |t.sts|, px);
  }

  /** Bytes holding each part of `t` where its header says are read, with
      `start` as the base, as `t` with its names padded. */
  lemma {:induction false} PartsReadBack(w: seq<byte>, start: nat, t: Surface, ps: nat, pt: nat, pu: nat, px: nat)
    requires PartsAt(w, start, t, ps, pt, pu, px)
    requires ps == start + t.ofsShaders && pt == start + t.ofsTriangles
    requires pu == start + t.ofsSt && px == start + t.ofsXyzNormal
    ensures SurfaceAt(w, start, start) == Some(AsRead(t))
  {
    var h := AsRead(t);
    assert HeaderInts(h) == HeaderInts(t);
    SurfaceAtParts(w, start, start, h, ps, pt, pu, px,
                   |t.shaders|, |t.triangles|, |t.sts|, |t.xyzs|,
                   PaddedShaders(t.shaders), t.triangles, t.sts, t.xyzs);
  }

  /** Reading back, with `start` as its base, the surface `writeWithoutOFS`
      wrote at `start` gives the normalized surface with its names padded,
      whenever the header counts agree with the lists. */
  lemma {:induction false} ReadAfterWriteWithoutOfs(d: seq<byte>, start: nat, s: Surface)
    requires AllWritable(HeaderFields(s)) && BodyWritable(Normalized(s)) && IsS32(Normalized(s).ofsEnd)
    requires Consistent(s)
    ensures SurfaceAt(Overwrite(d, start, SurfaceBytes(Normalized(s))), start, start) == Some(AsRead(Normalized(s)))
  {
    NormalizedHeader(s);
    NormalizedBlocks(s);
    LaidOutReadBack(d, start, SurfaceBytes(Normalized(s)), Normalized(s));
  }
}
