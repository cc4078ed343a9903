/**
  The reading half of `main` in import_md3.py. The 108-byte model header
  is read from the start of the file. Then come the frames, the tags and
  the surfaces: each list is read after a seek to its offset from the
  header, and each count is clamped to MD3_MAX_FRAMES, MD3_MAX_TAGS or
  MD3_MAX_SURFACES. Every surface is read with the running base
  `OFS_SURFACES`, which grows by each surface's own `OFS_END`.
*/
module ImportRead {
  import opened Bytes
  import opened Wrappers
  import opened Streams
  import opened Primitives
  import opened Records
  import opened Surfaces
  import opened SurfaceReader
  import Export

  const MD3_MAX_FRAMES: nat := 1024
  const MD3_MAX_TAGS: nat := 16
  const MD3_MAX_SURFACES: nat := 32

  /** The header fields `main` keeps; the ident, the version and the skin
      count are read and dropped. */
  datatype ModelHeader = ModelHeader(
    name: seq<byte>, flags: int,
    numFrames: int, numTags: int, numSurfaces: int,
    ofsFrames: int, ofsTags: int, ofsSurfaces: int, ofsEof: int)

  datatype Model = Model(header: ModelHeader, frames: seq<Frame>, tags: seq<Tag>, surfaces: seq<Surface>)

  /** The number of rounds of `range(min(n, max))`. */
  function Clamp(n: int, max: nat): (k: nat)
    ensures k <= max
  {
    Count(Min(n, max))
  }

  /** The header at `q`: two integers, the 64-byte name, then nine integers. */
  function ModelHeaderAt(d: seq<byte>, q: nat): Option<ModelHeader>
  {
    if |d| < q + Export.MODEL_HEADER_SIZE then None
    else Some(ModelHeader(d[q + 8..q + 72], S32At(d, q + 72),
                          S32At(d, q + 76), S32At(d, q + 80), S32At(d, q + 84),
                          S32At(d, q + 92), S32At(d, q + 96), S32At(d, q + 100), S32At(d, q + 104)))
  }

  /** `n` frames from `p`. Each needs its first 40 bytes. Only the last one
      may have a short name: a short name leaves the cursor at the end of
      the file, where the next frame cannot be read. */
  function FramesAt(d: seq<byte>, p: nat, n: nat): Option<seq<Frame>>
  {
    if n == 0 then Some([])
    else if p + 56 * (n - 1) + 40 <= |d| then Some(seq(n, k requires 0 <= k < n => FrameAt(d, p + 56 * k)))
    else None
  }

  /** `n` tags of 112 bytes each from `p`. */
  function TagsAt(d: seq<byte>, p: nat, n: nat): Option<seq<Tag>>
  {
    if Fits(d, p, 112 * n) then Some(seq(n, k requires 0 <= k < n => TagAt(d, p + 112 * k)))
    else None
  }

  /** Where the cursor stands after `Surface.read` of `s` with base `base`:
      at the end of its vertex block. */
  function SurfaceCursor(s: Surface, base: int): int
  {
    base + s.ofsXyzNormal + Times(8 * Count(s.numVerts), Count(s.numFrames))
  }

  /** A surface that can be read has its vertex block at a position that
      is not negative. */
  lemma {:induction false} SurfaceCursorNat(d: seq<byte>, q: nat, base: int)
    requires SurfaceAt(d, q, base).Some?
    ensures SurfaceCursor(SurfaceAt(d, q, base).value, base) >= 0
  {
  }

  /** Where the loop stands after some rounds: the surfaces read so far,
      the cursor, and the base for the next surface. */
  datatype Progress = Progress(surfaces: seq<Surface>, cursor: nat, base: int)

  /** One round of the loop: the surface whose header is at the cursor `q`
      and whose blocks are at their offsets from `base`, and the cursor
      after it, at the end of its vertex block. */
  function SurfaceStep(d: seq<byte>, q: nat, base: int): Option<(Surface, nat)>
  {
    match SurfaceAt(d, q, base)
    case None => None
    case Some(s) =>
      SurfaceCursorNat(d, q, base);
      Some((s, SurfaceCursor(s, base)))
  }

  function Reader(d: seq<byte>): (nat, int) -> Option<(Surface, nat)>
  {
    (q: nat, base: int) => SurfaceStep(d, q, base)
  }

  /** `read` does what one round of the loop does on `d`. */
  ghost predicate ReadsFrom(read: (nat, int) -> Option<(Surface, nat)>, d: seq<byte>)
  {
    forall q: nat, base: int {:trigger SurfaceStep(d, q, base)} :: read(q, base) == SurfaceStep(d, q, base)
  }

  lemma {:induction false} ReaderReads(d: seq<byte>)
    ensures ReadsFrom(Reader(d), d)
  {
    forall q: nat, base: int
      ensures Reader(d)(q, base) == SurfaceStep(d, q, base)
    {
    }
  }

  lemma {:induction false} StepAt(d: seq<byte>, q: nat, base: int, s: Surface, next: nat)
    requires SurfaceAt(d, q, base) == Some(s) && next == SurfaceCursor(s, base)
    ensures SurfaceStep(d, q, base) == Some((s, next))
  {
  }

  lemma {:induction false} StepFails(d: seq<byte>, q: nat, base: int)
    requires SurfaceAt(d, q, base) == None
    ensures SurfaceStep(d, q, base) == None
  {
  }

  /** The first `k` rounds of the surface loop with the reader `read`,
      started with the cursor at `c` and the base at `base`. Each round
      reads a surface where the cursor stands, with the current base; the
      base then moves on by the surface's `OFS_END`. */
  function SurfacesRead(read: (nat, int) -> Option<(Surface, nat)>, c: nat, base: int, k: nat): Option<Progress>
    decreases k
  {
    if k == 0 then Some(Progress([], c, base))
    else match SurfacesRead(read, c, base, k - 1)
      case None => None
      case Some(p) =>
        match read(p.cursor, p.base)
        case None => None
        case Some(r) => Some(Progress(p.surfaces + [r.0], r.1, p.base + r.0.ofsEnd))
  }

  /** A round that reads a surface extends the run by it. */
  lemma {:induction false} SurfacesReadStep(read: (nat, int) -> Option<(Surface, nat)>, c: nat, base: int, k: nat,
                                            p: Progress, r: (Surface, nat), k2: nat, base2: int)
    requires SurfacesRead(read, c, base, k) == Some(p) && read(p.cursor, p.base) == Some(r)
    requires k2 == k + 1 && base2 == p.base + r.0.ofsEnd
    ensures SurfacesRead(read, c, base, k2) == Some(Progress(p.surfaces + [r.0], r.1, base2))
  {
  }

  /** A round that fails ends the run. */
  lemma {:induction false} SurfacesReadStop(read: (nat, int) -> Option<(Surface, nat)>, c: nat, base: int, k: nat,
                                            p: Progress, n: nat)
    requires SurfacesRead(read, c, base, k) == Some(p) && read(p.cursor, p.base) == None && k < n
    ensures SurfacesRead(read, c, base, n) == None
  {
    SurfacesReadFailed(read, c, base, k + 1, n);
  }

  /** Once a round has failed, so have all longer runs. */
  lemma {:induction false} SurfacesReadFailed(read: (nat, int) -> Option<(Surface, nat)>, c: nat, base: int, k: nat, n: nat)
    requires k <= n && SurfacesRead(read, c, base, k) == None
    ensures SurfacesRead(read, c, base, n) == None
    decreases n
  {
    if k < n {
      SurfacesReadFailed(read, c, base, k, n - 1);
    }
  }

  /** What `main` reads from a file holding `d`. A read past the end of
      the file or a seek to a negative offset fails the import. */
  function ModelAt(d: seq<byte>): Option<Model>
  {
    match ModelHeaderAt(d, 0)
    case None => None
    case Some(h) =>
      if h.ofsFrames < 0 then None
      else match FramesAt(d, h.ofsFrames, Clamp(h.numFrames, MD3_MAX_FRAMES))
      case None => None
      case Some(frames) =>
        if h.ofsTags < 0 then None
        else match TagsAt(d, h.ofsTags, Clamp(h.numTags, MD3_MAX_TAGS))
        case None => None
        case Some(tags) =>
          if h.ofsSurfaces < 0 then None
          else match SurfacesRead(Reader(d), h.ofsSurfaces, h.ofsSurfaces, Clamp(h.numSurfaces, MD3_MAX_SURFACES))
          case None => None
          case Some(p) => Some(Model(h, frames, tags, p.surfaces))
  }

  method ReadModelHeader(f: Stream) returns (r: Option<ModelHeader>)
    modifies f`pos
    ensures r == ModelHeaderAt(f.data, old(f.pos))
    ensures r.Some? ==> f.pos == old(f.pos) + Export.MODEL_HEADER_SIZE
  {
    var q := f.pos;
    var ident := ReadS32(f);
    if ident.None? { return None; }
    var version := ReadS32(f);
    if version.None? { return None; }
    var name := ReadMax(f, MAX_QPATH);
    var flags := ReadS32(f);
    if flags.None? { return None; }
    var numFrames := ReadS32(f);
    if numFrames.None? { return None; }
    var numTags := ReadS32(f);
    if numTags.None? { return None; }
    var numSurfaces := ReadS32(f);
    if numSurfaces.None? { return None; }
    var skins := ReadS32(f);
    if skins.None? { return None; }
    var ofsFrames := ReadS32(f);
    if ofsFrames.None? { return None; }
    var ofsTags := ReadS32(f);
    if ofsTags.None? { return None; }
    var ofsSurfaces := ReadS32(f);
    if ofsSurfaces.None? { return None; }
    var ofsEof := ReadS32(f);
    if ofsEof.None? { return None; }
    r := Some(ModelHeader(name, flags.value, numFrames.value, numTags.value, numSurfaces.value,
                          ofsFrames.value, ofsTags.value, ofsSurfaces.value, ofsEof.value));
  }

  /** `for _ in range(n): Frames.append(Frame.read(file))`. */
  method ReadFrames(f: Stream, n: nat) returns (r: Option<seq<Frame>>)
    modifies f`pos
    ensures r == FramesAt(f.data, old(f.pos), n)
  {
    var p, d := f.pos, f.data;
    var frames: seq<Frame> := [];
    var i := 0;
    while i < n
      invariant i <= n
      invariant i > 0 ==> p + 56 * (i - 1) + 40 <= |f.data|
      invariant f.pos == if i == 0 then p else Min(p + 56 * i, |f.data|)
      invariant frames == seq(i, k requires 0 <= k < i => FrameAt(d, p + 56 * k))
    {
      var fr := ReadFrame(f);
      if fr.None? {
        return None;
      }
      frames := frames + [fr.value];
      i := i + 1;
    }
    r := Some(frames);
  }

  /** `for _ in range(n): Tags.append(Tag.read(file))`. */
  method ReadTags(f: Stream, n: nat) returns (r: Option<seq<Tag>>)
    modifies f`pos
    ensures r == TagsAt(f.data, old(f.pos), n)
  {
    var p, d := f.pos, f.data;
    var tags: seq<Tag> := [];
    var i := 0;
    while i < n
      invariant i <= n
      invariant i == 0 || p + 112 * i <= |f.data|
      invariant f.pos == p + 112 * i
      invariant tags == seq(i, k requires 0 <= k < i => TagAt(d, p + 112 * k))
    {
      var t := ReadTag(f);
      if t.None? {
        return None;
      }
      tags := tags + [t.value];
      i := i + 1;
    }
    r := Some(tags);
  }

  /** `Surface.read(file, base)` as one round of the loop: the surface and
      the cursor after it. */
  method ReadSurfaceStep(f: Stream, base: int, ghost rd: (nat, int) -> Option<(Surface, nat)>) returns (r: Option<(Surface, nat)>)
    requires ReadsFrom(rd, f.data)
    modifies f`pos
    ensures r == rd(old(f.pos), base)
    ensures r.Some? ==> f.pos == r.value.1
  {
    ghost var c := f.pos;
    var s := SurfaceReader.Read(f, base);
    if s.None? {
      StepFails(f.data, c, base);
      return None;
    }
    StepAt(f.data, c, base, s.value, f.pos);
    r := Some((s.value, f.pos));
  }

  /** `surface.append(Surface.read(file, OFS_SURFACES))` then
      `OFS_SURFACES += surface[-1].OFS_END`, `n` times. */
  method ReadSurfaces(f: Stream, base: int, n: nat, ghost rd: (nat, int) -> Option<(Surface, nat)>) returns (r: Option<seq<Surface>>)
    requires ReadsFrom(rd, f.data)
    modifies f`pos
    ensures r.Some? <==> SurfacesRead(rd, old(f.pos), base, n).Some?
    ensures r.Some? ==> r.value == SurfacesRead(rd, old(f.pos), base, n).value.surfaces
  {
    ghost var c0 := f.pos;
    var ofsSurfaces := base;
    var surfaces: seq<Surface> := [];
    var i := 0;
    while i < n
      invariant i <= n
      invariant SurfacesRead(rd, c0, base, i) == Some(Progress(surfaces, f.pos, ofsSurfaces))
    {
      ghost var p := Progress(surfaces, f.pos, ofsSurfaces);
      var step := ReadSurfaceStep(f, ofsSurfaces, rd);
      if step.None? {
        SurfacesReadStop(rd, c0, base, i, p, n);
        return None;
      }
      var s := step.value.0;
      var nextOfs := ofsSurfaces + s.ofsEnd;
      SurfacesReadStep(rd, c0, base, i, p, step.value, i + 1, nextOfs);
      surfaces := surfaces + [s];
      ofsSurfaces := nextOfs;
      i := i + 1;
    }
    r := Some(surfaces);
  }

  /** The reading part of `main` on a file opened for reading. */
  method ReadModel(contents: seq<byte>) returns (r: Option<Model>)
    ensures r == ModelAt(contents)
  {
    var f := new Stream.Open(contents);
    var header := ReadModelHeader(f);
    if header.None? { return None; }
    var h := header.value;
    var ok := f.Seek(h.ofsFrames);
    if !ok { return None; }
    var frames := ReadFrames(f, Clamp(h.numFrames, MD3_MAX_FRAMES));
    if frames.None? { return None; }
    ok := f.Seek(h.ofsTags);
    if !ok { return None; }
    var tags := ReadTags(f, Clamp(h.numTags, MD3_MAX_TAGS));
    if tags.None? { return None; }
    ok := f.Seek(h.ofsSurfaces);
    if !ok { return None; }
    ReaderReads(contents);
    var surfaces := ReadSurfaces(f, h.ofsSurfaces, Clamp(h.numSurfaces, MD3_MAX_SURFACES), Reader(contents));
    if surfaces.None? { return None; }
    r := Some(Model(h, frames.value, tags.value, surfaces.value));
  }
}
