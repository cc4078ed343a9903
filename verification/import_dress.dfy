/**
  The second loop over the surfaces in `main` of import_md3.py. For each
  surface it writes three texture coordinates per triangle into the UV
  layer, adds a material named after the surface with its first shader
  as the texture, and gives that material's index to the next
  `NUM_TRIANGLES` polygons. The texture coordinates are looked up in
  `sur.st` with Python's list indexing.
*/
module ImportDress {
  import opened Bytes
  import opened Records
  import opened Surfaces
  import opened Wrappers
  import opened SurfaceReader

  /** What the loop uses of a surface. */
  datatype DressPart = DressPart(
    name: seq<byte>, shaders: seq<Shader>, triangles: seq<Triangle>,
    sts: seq<Option<TexCoord>>, numTriangles: int)

  function DressPartOf(s: Surface): DressPart
  {
    DressPart(s.name, s.shaders, s.triangles, s.sts, s.numTriangles)
  }

  function DressParts(ss: seq<Surface>): (ps: seq<DressPart>)
    ensures |ps| == |ss|
    ensures forall k :: 0 <= k < |ss| ==> ps[k] == DressPartOf(ss[k])
  {
    seq(|ss|, k requires 0 <= k < |ss| => DressPartOf(ss[k]))
  }

  // ---------------------------------------------------------------- UV

  /** `sur.st[i].st`. A negative index counts from the end; an index
      outside the list raises, and so does a missing entry. */
  function StAt(sts: seq<Option<TexCoord>>, i: int): Option<TexCoord>
  {
    if 0 <= i < |sts| then sts[i]
    else if -|sts| <= i < 0 then sts[i + |sts|]
    else None
  }

  /** `tri.indexes[j]`. */
  function Corner(t: Triangle, j: nat): int
    requires j < 3
  {
    if j == 0 then t.a else if j == 1 then t.b else t.c
  }

  /** The three coordinates one triangle writes. */
  function TriangleUvs(sts: seq<Option<TexCoord>>, t: Triangle): Option<seq<TexCoord>>
  {
    var a, b, c := StAt(sts, t.a), StAt(sts, t.b), StAt(sts, t.c);
    if a.Some? && b.Some? && c.Some? then Some([a.value, b.value, c.value]) else None
  }

  /** The coordinates the triangles of one surface write, in order. */
  function SurfaceUvs(ts: seq<Triangle>, sts: seq<Option<TexCoord>>): Option<seq<TexCoord>>
    decreases |ts|
  {
    if ts == [] then Some([])
    else
      var n := |ts| - 1;
      match SurfaceUvs(ts[..n], sts)
      case None => None
      case Some(front) =>
        match TriangleUvs(sts, ts[n])
        case None => None
        case Some(three) => Some(front + three)
  }

  /** Slot `3 t + j` of a surface's coordinates is corner `j` of triangle
      `t`, and they are there exactly when every corner's lookup is. */
  lemma {:induction false} SurfaceUvsAt(ts: seq<Triangle>, sts: seq<Option<TexCoord>>)
    ensures SurfaceUvs(ts, sts).Some? <==>
              forall t, j :: 0 <= t < |ts| && 0 <= j < 3 ==> StAt(sts, Corner(ts[t], j)).Some?
    ensures SurfaceUvs(ts, sts).Some? ==>
              |SurfaceUvs(ts, sts).value| == 3 * |ts| &&
              forall t, j :: 0 <= t < |ts| && 0 <= j < 3 ==>
                SurfaceUvs(ts, sts).value[3 * t + j] == StAt(sts, Corner(ts[t], j)).value
    decreases |ts|
  {
    if ts != [] {
      var n := |ts| - 1;
      SurfaceUvsAt(ts[..n], sts);
      assert forall t :: 0 <= t < n ==> ts[..n][t] == ts[t];
      assert Corner(ts[n], 0) == ts[n].a && Corner(ts[n], 1) == ts[n].b && Corner(ts[n], 2) == ts[n].c;
    }
  }

  /** The coordinates of all surfaces, one surface after another. */
  function Uvs(ps: seq<DressPart>): Option<seq<TexCoord>>
    decreases |ps|
  {
    if ps == [] then Some([])
    else
      var n := |ps| - 1;
      match Uvs(ps[..n])
      case None => None
      case Some(front) =>
        match SurfaceUvs(ps[n].triangles, ps[n].sts)
        case None => None
        case Some(own) => Some(front + own)
  }

  /** The number of triangles read for the surfaces `ps`. */
  function TrianglesIn(ps: seq<DressPart>): nat
    decreases |ps|
  {
    if ps == [] then 0 else TrianglesIn(ps[..|ps| - 1]) + |ps[|ps| - 1].triangles|
  }

  lemma {:induction false} UvsPrefix(ps: seq<DressPart>, k: nat)
    requires k <= |ps| && Uvs(ps).Some?
    ensures Uvs(ps[..k]).Some? && Uvs(ps[..k]).value <= Uvs(ps).value
    ensures |Uvs(ps[..k]).value| == 3 * TrianglesIn(ps[..k])
    decreases |ps|
  {
    if k < |ps| {
      var n := |ps| - 1;
      assert ps[..n][..k] == ps[..k];
      UvsPrefix(ps[..n], k);
    } else {
      assert ps[..k] == ps;
      if k > 0 {
        UvsPrefix(ps[..k - 1], k - 1);
        assert ps[..k - 1][..k - 1] == ps[..k - 1];
        SurfaceUvsAt(ps[k - 1].triangles, ps[k - 1].sts);
      }
    }
  }

  /** UV slot `3 (T + t) + j`, with `T` the triangles of the surfaces
      before `k`, is corner `j` of triangle `t` of surface `k`. */
  lemma {:induction false} UvAt(ps: seq<DressPart>, k: nat, t: nat, j: nat)
    requires Uvs(ps).Some? && k < |ps| && t < |ps[k].triangles| && j < 3
    ensures 3 * (TrianglesIn(ps[..k]) + t) + j < |Uvs(ps).value|
    ensures StAt(ps[k].sts, Corner(ps[k].triangles[t], j)).Some?
    ensures Uvs(ps).value[3 * (TrianglesIn(ps[..k]) + t) + j] == StAt(ps[k].sts, Corner(ps[k].triangles[t], j)).value
  {
    UvsPrefix(ps, k);
    UvsPrefix(ps, k + 1);
    assert ps[..k + 1][..k] == ps[..k];
    SurfaceUvsAt(ps[k].triangles, ps[k].sts);
  }

  lemma {:induction false} UvsStop(ps: seq<DressPart>, k: nat)
    requires k <= |ps| && Uvs(ps[..k]).None?
    ensures Uvs(ps).None?
    decreases |ps|
  {
    if k < |ps| {
      var n := |ps| - 1;
      assert ps[..n][..k] == ps[..k];
      UvsStop(ps[..n], k);
    } else {
      assert ps[..k] == ps;
    }
  }

  lemma {:induction false} SurfaceUvsStop(ts: seq<Triangle>, sts: seq<Option<TexCoord>>, k: nat)
    requires k <= |ts| && SurfaceUvs(ts[..k], sts).None?
    ensures SurfaceUvs(ts, sts).None?
    decreases |ts|
  {
    if k < |ts| {
      var n := |ts| - 1;
      assert ts[..n][..k] == ts[..k];
      SurfaceUvsStop(ts[..n], sts, k);
    } else {
      assert ts[..k] == ts;
    }
  }

  /** `for tri in sur.triangles: uv.data[i].uv = ...; ...; i += 3`, with
      `acc` the coordinates written so far. */
  method WriteUvs(acc: seq<TexCoord>, ts: seq<Triangle>, sts: seq<Option<TexCoord>>) returns (r: Option<seq<TexCoord>>)
    ensures r.Some? <==> SurfaceUvs(ts, sts).Some?
    ensures r.Some? ==> r.value == acc + SurfaceUvs(ts, sts).value
  {
    var written := acc;
    var i := 0;
    while i < |ts|
      invariant i <= |ts|
      invariant SurfaceUvs(ts[..i], sts).Some? && written == acc + SurfaceUvs(ts[..i], sts).value
    {
      var tri := ts[i];
      assert ts[..i + 1][..i] == ts[..i];
      var a, b, c := StAt(sts, tri.a), StAt(sts, tri.b), StAt(sts, tri.c);
      if a.None? || b.None? || c.None? {
        SurfaceUvsStop(ts, sts, i + 1);
        return None;
      }
      written := written + [a.value, b.value, c.value];
      i := i + 1;
    }
    assert ts[..i] == ts;
    r := Some(written);
  }

  // ---------------------------------------------------------- materials

  /** A material: named after the surface, textured by its first shader. */
  datatype MaterialSlot = MaterialSlot(name: seq<byte>, texture: seq<byte>)

  /** The material of one surface: `sur.shaders[0]` raises for a surface
      without shaders, and `sh.VALUE` raises for any shader after the
      first, as a shader has no such attribute. */
  function SlotOf(p: DressPart): Option<MaterialSlot>
  {
    if |p.shaders| == 0 then None
    else if p.shaders[1..] != [] then None
    else Some(MaterialSlot(p.name, p.shaders[0].name))
  }

  /** The materials of the surfaces, appended surface by surface until
      one of them raises. Each surface needs exactly one shader. */
  function Slots(ps: seq<DressPart>): (r: Option<seq<MaterialSlot>>)
    ensures r.Some? <==> forall k :: 0 <= k < |ps| ==> |ps[k].shaders| == 1
    ensures r.Some? ==> |r.value| == |ps|
    ensures r.Some? ==> forall k :: 0 <= k < |ps| ==> r.value[k] == MaterialSlot(ps[k].name, ps[k].shaders[0].name)
    decreases |ps|
  {
    if ps == [] then Some([])
    else
      var n := |ps| - 1;
      assert forall k :: 0 <= k < n ==> ps[..n][k] == ps[k];
      match Slots(ps[..n])
      case None => None
      case Some(init) =>
        match SlotOf(ps[n])
        case None => None
        case Some(slot) => Some(init + [slot])
  }

  // ----------------------------------------------------- polygon indices

  /** `range(cnt)` from `lo` can index `n` polygons, counting negative
      indices from the end as Python collections do. */
  predicate RangeFits(lo: int, cnt: nat, n: nat)
  {
    cnt == 0 || (0 <= lo + n && lo + cnt <= n)
  }

  /** `polygons[lo + t].material_index = idx` for `t` in `range(cnt)`. */
  function Paint(m: seq<int>, lo: int, cnt: nat, idx: int): (r: seq<int>)
    requires RangeFits(lo, cnt, |m|)
    ensures |r| == |m|
  {
    seq(|m|, q requires 0 <= q < |m| => if lo <= q < lo + cnt || lo <= q - |m| < lo + cnt then idx else m[q])
  }

  /** The offset for the next surface: the sum of the `NUM_TRIANGLES`
      header fields so far. */
  function NumTrianglesSum(ps: seq<DressPart>): int
    decreases |ps|
  {
    if ps == [] then 0 else NumTrianglesSum(ps[..|ps| - 1]) + ps[|ps| - 1].numTriangles
  }

  /** The material index of every polygon after the surfaces `ps`, from
      the indices `m`; surface `k` paints its range with `k`. */
  function Painted(m: seq<int>, ps: seq<DressPart>): (r: Option<seq<int>>)
    ensures r.Some? ==> |r.value| == |m|
    decreases |ps|
  {
    if ps == [] then Some(m)
    else
      var n := |ps| - 1;
      match Painted(m, ps[..n])
      case None => None
      case Some(front) =>
        var lo, cnt := NumTrianglesSum(ps[..n]), Count(ps[n].numTriangles);
        if RangeFits(lo, cnt, |m|) then Some(Paint(front, lo, cnt, n)) else None
  }

  /** No header triangle count is negative. */
  predicate CountsNatural(ps: seq<DressPart>)
  {
    forall k :: 0 <= k < |ps| ==> ps[k].numTriangles >= 0
  }

  lemma {:induction false} NumTrianglesSumNatural(ps: seq<DressPart>, k: nat)
    requires CountsNatural(ps) && k <= |ps|
    ensures 0 <= NumTrianglesSum(ps[..k]) <= NumTrianglesSum(ps)
    decreases |ps|
  {
    if ps != [] {
      var n := |ps| - 1;
      assert forall j :: 0 <= j < n ==> ps[..n][j] == ps[j];
      if k <= n {
        assert ps[..n][..k] == ps[..k];
        NumTrianglesSumNatural(ps[..n], k);
      } else {
        assert ps[..k] == ps;
        NumTrianglesSumNatural(ps[..n], n);
      }
    }
  }

  /** With natural counts the painting gets through exactly when the
      counts add up to no more than the polygons. */
  lemma {:induction false} PaintedFits(m: seq<int>, ps: seq<DressPart>)
    requires CountsNatural(ps)
    ensures Painted(m, ps).Some? <==> NumTrianglesSum(ps) <= |m|
    decreases |ps|
  {
    if ps != [] {
      var n := |ps| - 1;
      assert forall j :: 0 <= j < n ==> ps[..n][j] == ps[j];
      PaintedFits(m, ps[..n]);
      NumTrianglesSumNatural(ps[..n], n);
    }
  }

  /** The polygon that triangle `t` of surface `k` stands for in the
      material loop: `t + ofs`, with `ofs` the counts before `k`. */
  function PolygonOf(ps: seq<DressPart>, k: nat, t: int): int
    requires k <= |ps|
  {
    NumTrianglesSum(ps[..k]) + t
  }

  /** With natural counts, triangle `t` of surface `k` lands below the
      offset of any later surface `n`, and the same with `ps` cut at `n`. */
  lemma {:induction false} PolygonBefore(ps: seq<DressPart>, n: nat, k: nat, t: int)
    requires CountsNatural(ps) && k < n <= |ps| && 0 <= t < ps[k].numTriangles
    ensures 0 <= PolygonOf(ps, k, t) == PolygonOf(ps[..n], k, t) < NumTrianglesSum(ps[..n])
  {
    assert forall j :: 0 <= j < n ==> ps[..n][j] == ps[j];
    assert ps[..n][..k] == ps[..k];
    assert ps[..n][..k + 1] == ps[..k + 1];
    assert ps[..k + 1][..k] == ps[..k];
    NumTrianglesSumNatural(ps[..n], k + 1);
    NumTrianglesSumNatural(ps, k);
  }

  /** With natural counts, the polygon of triangle `t` of surface `k`, for
      `t` below its count, gets material `k`; the polygons past all
      counts keep their index. */
  lemma {:induction false} PaintedLayout(m: seq<int>, ps: seq<DressPart>)
    requires CountsNatural(ps) && Painted(m, ps).Some?
    ensures forall k, t :: 0 <= k < |ps| && 0 <= t < ps[k].numTriangles ==>
              0 <= PolygonOf(ps, k, t) < |m| && Painted(m, ps).value[PolygonOf(ps, k, t)] == k
    ensures forall q :: 0 <= q < |m| && NumTrianglesSum(ps) <= q ==> Painted(m, ps).value[q] == m[q]
    decreases |ps|
  {
    if ps != [] {
      var n := |ps| - 1;
      assert forall j :: 0 <= j < n ==> ps[..n][j] == ps[j];
      PaintedLayout(m, ps[..n]);
      NumTrianglesSumNatural(ps[..n], n);
      assert ps[..n][..n] == ps[..n];
      var front := Painted(m, ps[..n]).value;
      var lo, cnt := NumTrianglesSum(ps[..n]), Count(ps[n].numTriangles);
      assert Painted(m, ps).value == Paint(front, lo, cnt, n);
      forall k, t | 0 <= k < |ps| && 0 <= t < ps[k].numTriangles
        ensures 0 <= PolygonOf(ps, k, t) < |m| && Painted(m, ps).value[PolygonOf(ps, k, t)] == k
      {
        if k < n {
          PolygonBefore(ps, n, k, t);
        } else {
          assert ps[..k] == ps[..n];
        }
      }
    }
  }

  lemma {:induction false} PaintedStop(m: seq<int>, ps: seq<DressPart>, k: nat)
    requires k <= |ps| && Painted(m, ps[..k]).None?
    ensures Painted(m, ps).None?
    decreases |ps|
  {
    if k < |ps| {
      var n := |ps| - 1;
      assert ps[..n][..k] == ps[..k];
      PaintedStop(m, ps[..n], k);
    } else {
      assert ps[..k] == ps;
    }
  }

  /** `for t in range(cnt): obj.data.polygons[t + lo].material_index = idx`. */
  method PaintRange(polys: array<int>, lo: int, cnt: int, idx: int) returns (ok: bool)
    modifies polys
    ensures ok == RangeFits(lo, Count(cnt), polys.Length)
    ensures ok ==> polys[..] == Paint(old(polys[..]), lo, Count(cnt), idx)
  {
    var n := polys.Length;
    var t := 0;
    while t < cnt
      invariant 0 <= t <= Count(cnt)
      invariant RangeFits(lo, t, n)
      invariant polys[..] == Paint(old(polys[..]), lo, t, idx)
    {
      var p := t + lo;
      if p < -n || p >= n {
        return false;
      }
      var q := if p < 0 then p + n else p;
      polys[q] := idx;
      assert polys[..] == Paint(old(polys[..]), lo, t + 1, idx);
      t := t + 1;
    }
    ok := true;
  }

  lemma {:induction false} SlotsStep(ps: seq<DressPart>, k: nat, slots: seq<MaterialSlot>)
    requires k < |ps| && Slots(ps[..k]) == Some(slots) && |ps[k].shaders| == 1
    ensures Slots(ps[..k + 1]) == Some(slots + [MaterialSlot(ps[k].name, ps[k].shaders[0].name)])
  {
    assert ps[..k + 1][..k] == ps[..k];
  }

  // ------------------------------------------------------------ the loop

  /** What the loop leaves: the UV layer's coordinates, the materials and
      every polygon's material index. */
  datatype Dressing = Dressing(uvs: seq<TexCoord>, slots: seq<MaterialSlot>, polygons: seq<int>)

  /** The loop over `ps` with polygon material indices `m`; it gets
      through when every coordinate lookup, every shader list and every
      polygon range does. */
  function DressOf(ps: seq<DressPart>, m: seq<int>): Option<Dressing>
  {
    var uvs, slots, polys := Uvs(ps), Slots(ps), Painted(m, ps);
    if uvs.Some? && slots.Some? && polys.Some? then Some(Dressing(uvs.value, slots.value, polys.value))
    else None
  }

  /** The UV and material loop of `main`. On failure the state left in the
      polygons is not described. */
  method Dress(ps: seq<DressPart>, polys: array<int>) returns (r: Option<Dressing>)
    modifies polys
    ensures r == DressOf(ps, old(polys[..]))
    ensures r.Some? ==> polys[..] == r.value.polygons
  {
    ghost var m := polys[..];
    var uvs: seq<TexCoord> := [];
    var slots: seq<MaterialSlot> := [];
    var ofs := 0;
    var k := 0;
    while k < |ps|
      invariant k <= |ps| && polys.Length == |m|
      invariant ofs == NumTrianglesSum(ps[..k])
      invariant Uvs(ps[..k]) == Some(uvs)
      invariant Slots(ps[..k]) == Some(slots)
      invariant Painted(m, ps[..k]) == Some(polys[..])
    {
      var sur := ps[k];
      assert ps[..k + 1][..k] == ps[..k];
      var written := WriteUvs(uvs, sur.triangles, sur.sts);
      if written.None? {
        UvsStop(ps, k + 1);
        return None;
      }
      if |sur.shaders| != 1 {
        return None;
      }
      var fits := PaintRange(polys, ofs, sur.numTriangles, k);
      if !fits {
        PaintedStop(m, ps, k + 1);
        return None;
      }
      uvs := written.value;
      SlotsStep(ps, k, slots);
      slots := slots + [MaterialSlot(sur.name, sur.shaders[0].name)];
      ofs := ofs + sur.numTriangles;
      k := k + 1;
    }
    assert ps[..k] == ps;
    r := Some(Dressing(uvs, slots, polys[..]));
  }
}
