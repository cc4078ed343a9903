/**
  The integer bookkeeping `export` does before it writes a surface: the mesh
  as the exporter sees it, the per-material vertex lists, the triangles
  renumbered into those lists, and the texture-coordinate list and vertex
  grid laid out along them.
*/
module ExportLists {
  import opened Bytes
  import opened Wrappers
  import opened Records

  /** A polygon of the mesh: its material slot and its vertex ids. */
  datatype Polygon = Polygon(material: nat, vertices: seq<nat>)

  /** A shape key: the frame record computed for it (bounds, origin and
      radius come from floating-point geometry; the name is the key's), and
      each of its vertices quantized to MD3 units with the mesh vertex's
      packed normal. */
  datatype ShapeKey = ShapeKey(frame: Frame, coords: seq<Vertex>)

  /** The "Image Texture" node of a material's node tree, and the file
      path of its image when one is assigned. */
  datatype ImageNode = ImageNode(image: Option<seq<byte>>)

  /** A material's node tree: how many nodes it holds, its "Image Texture"
      node when it has one, and how many value nodes it holds. */
  datatype NodeTree = NodeTree(nodeCount: nat, imageNode: Option<ImageNode>, valueNodes: nat)

  /** A material: its name and its node tree, which a material that never
      used nodes lacks. */
  datatype Material = Material(name: seq<byte>, nodeTree: Option<NodeTree>)

  /** The exported object: its name, material slots (an empty slot holds no
      material), polygons, the active
      UV layer when there is one (one on-disk texture coordinate per polygon
      corner, in loop order) and the key blocks of its shape keys when it
      has shape keys. */
  datatype MeshObject = MeshObject(name: seq<byte>, materials: seq<Option<Material>>, polygons: seq<Polygon>,
                                   uvLayer: Option<seq<TexCoord>>, shapeKeys: Option<seq<ShapeKey>>)

  /** The key blocks, none when the mesh has no shape keys. */
  function KeyBlocks(obj: MeshObject): seq<ShapeKey>
  {
    if obj.shapeKeys.Some? then obj.shapeKeys.value else []
  }

  /** The UV layer's loops, none when there is no active layer. */
  function UvData(obj: MeshObject): seq<TexCoord>
  {
    if obj.uvLayer.Some? then obj.uvLayer.value else []
  }

  /** An entry of `mat_triangles`: the polygon's index and its vertices. */
  datatype MatTriangle = MatTriangle(poly: nat, vertices: seq<nat>)

  // ---------------------------------------------------------------------
  // rsplit on names

  /** Where the last `c` of `s` is. */
  function LastIndex(s: seq<byte>, c: byte): (r: Option<nat>)
    ensures r.None? <==> c !in s
    ensures r.Some? ==> r.value < |s| && s[r.value] == c && c !in s[r.value + 1..]
    decreases |s|
  {
    if s == [] then None
    else if s[|s| - 1] == c then Some(|s| - 1)
    else
      var r := LastIndex(s[..|s| - 1], c);
      assert r.Some? ==> s[r.value + 1..] == s[..|s| - 1][r.value + 1..] + [s[|s| - 1]];
      assert r.None? ==> s == s[..|s| - 1] + [s[|s| - 1]];
      r
  }

  /** `s.rsplit(c, 1)[0]`. */
  function BeforeLast(s: seq<byte>, c: byte): seq<byte>
  {
    match LastIndex(s, c)
    case None => s
    case Some(k) => s[..k]
  }

  /** `s.rsplit(c, 1)[-1]`. */
  function AfterLast(s: seq<byte>, c: byte): seq<byte>
  {
    match LastIndex(s, c)
    case None => s
    case Some(k) => s[k + 1..]
  }

  /** Splitting at the last `c` cuts `s` into two parts around that `c`, and
      the part after it holds no `c`; without a `c` both parts are `s`. */
  lemma {:induction false} RsplitParts(s: seq<byte>, c: byte)
    ensures c in s ==> BeforeLast(s, c) + [c] + AfterLast(s, c) == s
    ensures c !in AfterLast(s, c)
    ensures c !in s ==> BeforeLast(s, c) == s
  {
    match LastIndex(s, c)
    case None =>
    case Some(k) =>
      assert s == s[..k] + [s[k]] + s[k + 1..];
  }

  /** A `c` with none after it is the last one. */
  lemma {:induction false} LastIndexAt(s: seq<byte>, c: byte, i: nat)
    requires i < |s| && s[i] == c && c !in s[i + 1..]
    ensures LastIndex(s, c) == Some(i)
  {
    assert s[i] in s;
  }

  /** Splitting at the last `c` drops exactly one suffix without a `c`. */
  lemma {:induction false} BeforeLastDropsSuffix(b: seq<byte>, c: byte, ext: seq<byte>)
    requires c !in ext
    ensures BeforeLast(b + [c] + ext, c) == b
  {
    var s := b + [c] + ext;
    assert s[|b| + 1..] == ext;
    LastIndexAt(s, c, |b|);
    assert s[..|b|] == b;
  }

  const DOT: byte := 46
  const BACKSLASH: byte := 92

  /** The model's name: the object name without its last extension, then ".md3". */
  function ModelName(objName: seq<byte>): seq<byte>
  {
    BeforeLast(objName, DOT) + [46, 109, 100, 51]
  }

  // ---------------------------------------------------------------------
  // Per-material vertex lists

  /** No duplicates, in increasing order. */
  predicate Increasing(xs: seq<nat>)
  {
    forall i, j :: 0 <= i < j < |xs| ==> xs[i] < xs[j]
  }

  function Insert(xs: seq<nat>, v: nat): (r: seq<nat>)
    requires Increasing(xs)
    ensures Increasing(r)
    ensures forall u :: u in r <==> u in xs || u == v
    decreases |xs|
  {
    if xs == [] then [v]
    else if v < xs[0] then ConsBelow(v, xs); [v] + xs
    else if v == xs[0] then xs
    else
      TailBelow(xs);
      var t := Insert(xs[1..], v);
      ConsBelow(xs[0], t);
      [xs[0]] + t
  }

  /** The head of an increasing list is below the rest of it. */
  lemma {:induction false} TailBelow(xs: seq<nat>)
    requires Increasing(xs) && xs != []
    ensures Increasing(xs[1..]) && forall u :: u in xs[1..] ==> xs[0] < u
    ensures forall u :: u in xs <==> u == xs[0] || u in xs[1..]
  {
    forall u | u in xs[1..] ensures xs[0] < u {
      var i :| 0 <= i < |xs[1..]| && xs[1..][i] == u;
      assert xs[i + 1] == u;
    }
    assert xs == [xs[0]] + xs[1..];
  }

  /** Putting a value below every element in front keeps a list increasing. */
  lemma {:induction false} ConsBelow(x: nat, t: seq<nat>)
    requires Increasing(t) && forall u :: u in t ==> x < u
    ensures Increasing([x] + t)
    ensures forall u :: u in [x] + t <==> u == x || u in t
  {
    var r := [x] + t;
    forall i, j | 0 <= i < j < |r| ensures r[i] < r[j] {
      if i == 0 {
        assert r[j] == t[j - 1] && t[j - 1] in t;
      } else {
        assert r[i] == t[i - 1] && r[j] == t[j - 1];
      }
    }
  }

  /** `list(dict.fromkeys(xs))` followed by `.sort()`: the distinct ids of
      `xs` in increasing order. */
  function SortedDistinct(xs: seq<nat>): (r: seq<nat>)
    ensures Increasing(r)
    ensures forall u :: u in r <==> u in xs
    decreases |xs|
  {
    if xs == [] then []
    else
      assert xs == xs[..|xs| - 1] + [xs[|xs| - 1]];
      Insert(SortedDistinct(xs[..|xs| - 1]), xs[|xs| - 1])
  }

  /** Both lists hold the same ids. */
  ghost predicate SameIds(a: seq<nat>, b: seq<nat>)
  {
    forall u :: u in a <==> u in b
  }

  /** Two increasing lists with the same ids start alike, and what follows
      their first entries holds the same ids again. */
  lemma {:induction false} IncreasingHeads(a: seq<nat>, b: seq<nat>)
    requires Increasing(a) && Increasing(b) && SameIds(a, b) && a != []
    ensures b != [] && a[0] == b[0] && SameIds(a[1..], b[1..])
  {
    assert a[0] in a && a[0] in b;
    var i :| 0 <= i < |b| && b[i] == a[0];
    assert b[0] in b && b[0] in a;
    var j :| 0 <= j < |a| && a[j] == b[0];
    forall u
      ensures u in a[1..] <==> u in b[1..]
    {
      if u in a[1..] {
        var k :| 0 <= k < |a[1..]| && a[1..][k] == u;
        assert a[k + 1] == u && u in a && u in b;
        var l :| 0 <= l < |b| && b[l] == u;
        assert b[1..][l - 1] == u;
      }
      if u in b[1..] {
        var k :| 0 <= k < |b[1..]| && b[1..][k] == u;
        assert b[k + 1] == u && u in b && u in a;
        var l :| 0 <= l < |a| && a[l] == u;
        assert a[1..][l - 1] == u;
      }
    }
  }

  /** A list without duplicates in increasing order is fixed by the ids it
      holds, so deduplicating and sorting in any manner gives the list above. */
  lemma {:induction false} IncreasingUnique(a: seq<nat>, b: seq<nat>)
    requires Increasing(a) && Increasing(b) && SameIds(a, b)
    ensures a == b
    decreases |a|
  {
    if a != [] {
      IncreasingHeads(a, b);
      IncreasingUnique(a[1..], b[1..]);
      assert a == [a[0]] + a[1..];
      assert b == [b[0]] + b[1..];
    } else if b != [] {
      IncreasingHeads(b, a);
    }
  }

  /** `indexes[m]` once the first `n` polygons were added with `extend`. */
  function Collected(polys: seq<Polygon>, n: nat, m: nat): (r: seq<nat>)
    requires n <= |polys|
  {
    if n == 0 then []
    else Collected(polys, n - 1, m) + (if polys[n - 1].material == m then polys[n - 1].vertices else [])
  }

  /** The ids collected for `m` are the vertices of the polygons of material `m`. */
  lemma {:induction false} CollectedMembers(polys: seq<Polygon>, n: nat, m: nat, v: nat)
    requires n <= |polys|
    ensures v in Collected(polys, n, m) <==> exists k :: 0 <= k < n && polys[k].material == m && v in polys[k].vertices
  {
    if n > 0 {
      CollectedMembers(polys, n - 1, m, v);
      var last := if polys[n - 1].material == m then polys[n - 1].vertices else [];
      assert v in Collected(polys, n, m) <==> v in Collected(polys, n - 1, m) || v in last;
    }
  }

  /** Every polygon names a material slot of the object. */
  predicate InRange(polys: seq<Polygon>, numMaterials: nat)
  {
    forall k :: 0 <= k < |polys| ==> polys[k].material < numMaterials
  }

  /** The final `indexes`: one sorted, duplicate-free list per material. */
  function Groups(polys: seq<Polygon>, numMaterials: nat): (g: seq<seq<nat>>)
    ensures |g| == numMaterials
  {
    seq(numMaterials, m requires 0 <= m < numMaterials => SortedDistinct(Collected(polys, |polys|, m)))
  }

  /** `indexes[m]` is the sorted, duplicate-free list of the vertex ids of
      the polygons whose material is `m`. */
  lemma {:induction false} GroupContents(polys: seq<Polygon>, numMaterials: nat, m: nat, v: nat)
    requires m < numMaterials
    ensures Increasing(Groups(polys, numMaterials)[m])
    ensures v in Groups(polys, numMaterials)[m] <==>
            exists k :: 0 <= k < |polys| && polys[k].material == m && v in polys[k].vertices
  {
    CollectedMembers(polys, |polys|, m, v);
  }

  /** The grouping loops of `export`: one empty list per material, each
      polygon's vertices appended to the list of its material (an index past
      the last material raises `IndexError`), then every list deduplicated
      and sorted. */
  method GroupByMaterial(numMaterials: nat, polys: seq<Polygon>) returns (r: Option<seq<seq<nat>>>)
    ensures r.Some? <==> InRange(polys, numMaterials)
    ensures r.Some? ==> r.value == Groups(polys, numMaterials)
  {
    var indexes: seq<seq<nat>> := [];
    var i := 0;
    while i < numMaterials
      invariant i <= numMaterials && |indexes| == i
      invariant forall m :: 0 <= m < i ==> indexes[m] == []
    {
      indexes := indexes + [[]];
      i := i + 1;
    }
    var k := 0;
    while k < |polys|
      invariant k <= |polys| && |indexes| == numMaterials
      invariant forall j :: 0 <= j < k ==> polys[j].material < numMaterials
      invariant forall m :: 0 <= m < numMaterials ==> indexes[m] == Collected(polys, k, m)
    {
      var mi := polys[k].material;
      if mi >= numMaterials {
        return None;
      }
      indexes := indexes[mi := indexes[mi] + polys[k].vertices];
      k := k + 1;
    }
    i := 0;
    while i < numMaterials
      invariant i <= numMaterials && |indexes| == numMaterials
      invariant forall m :: 0 <= m < i ==> indexes[m] == SortedDistinct(Collected(polys, |polys|, m))
      invariant forall m :: i <= m < numMaterials ==> indexes[m] == Collected(polys, |polys|, m)
    {
      indexes := indexes[i := SortedDistinct(indexes[i])];
      i := i + 1;
    }
    assert indexes == Groups(polys, numMaterials);
    r := Some(indexes);
  }

  // ---------------------------------------------------------------------
  // Triangles of one material

  /** `xs.index(v)`: the first position holding `v`. */
  function IndexOf(xs: seq<nat>, v: nat): (k: nat)
    requires v in xs
    ensures k < |xs| && xs[k] == v && v !in xs[..k]
    decreases |xs|
  {
    if xs[0] == v then 0
    else
      assert v in xs[1..] by {
        var i :| 0 <= i < |xs| && xs[i] == v;
        assert xs[1..][i - 1] == v;
      }
      var k := IndexOf(xs[1..], v);
      assert xs[..k + 1] == [xs[0]] + xs[1..][..k];
      k + 1
  }

  /** In a list without duplicates, the position of an entry is where it is. */
  lemma {:induction false} IndexOfIncreasing(xs: seq<nat>, p: nat)
    requires Increasing(xs) && p < |xs|
    ensures IndexOf(xs, xs[p]) == p
  {
  }

  /** `mat_triangles` over the first `n` polygons: the index and vertices of
      each polygon of material `m`, in polygon order. */
  function MaterialTriangles(polys: seq<Polygon>, n: nat, m: nat): (r: seq<MatTriangle>)
    requires n <= |polys|
    ensures |r| <= n
    decreases n
  {
    if n == 0 then []
    else
      MaterialTriangles(polys, n - 1, m)
      + (if polys[n - 1].material == m then [MatTriangle(n - 1, polys[n - 1].vertices)] else [])
  }

  /** `mat_triangles` holds exactly the polygons of material `m`, each with
      its own vertices, in increasing polygon order. */
  lemma {:induction false} MaterialTrianglesSpec(polys: seq<Polygon>, n: nat, m: nat)
    requires n <= |polys|
    ensures forall j :: 0 <= j < |MaterialTriangles(polys, n, m)| ==>
              var t := MaterialTriangles(polys, n, m)[j];
              t.poly < n && polys[t.poly].material == m && t.vertices == polys[t.poly].vertices
    ensures forall i, j :: 0 <= i < j < |MaterialTriangles(polys, n, m)| ==>
              MaterialTriangles(polys, n, m)[i].poly < MaterialTriangles(polys, n, m)[j].poly
    ensures forall k :: 0 <= k < n && polys[k].material == m ==>
              exists j :: 0 <= j < |MaterialTriangles(polys, n, m)| && MaterialTriangles(polys, n, m)[j].poly == k
  {
    MaterialTrianglesSound(polys, n, m);
    MaterialTrianglesOrdered(polys, n, m);
    forall k | 0 <= k < n && polys[k].material == m
      ensures exists j :: 0 <= j < |MaterialTriangles(polys, n, m)| && MaterialTriangles(polys, n, m)[j].poly == k
    {
      var j := MaterialTriangleOf(polys, n, m, k);
    }
  }

  lemma {:induction false} MaterialTrianglesSound(polys: seq<Polygon>, n: nat, m: nat)
    requires n <= |polys|
    ensures forall j :: 0 <= j < |MaterialTriangles(polys, n, m)| ==>
              var t := MaterialTriangles(polys, n, m)[j];
              t.poly < n && polys[t.poly].material == m && t.vertices == polys[t.poly].vertices
  {
    if n > 0 {
      MaterialTrianglesSound(polys, n - 1, m);
      var prev := MaterialTriangles(polys, n - 1, m);
      var r := MaterialTriangles(polys, n, m);
      forall j | 0 <= j < |r|
        ensures r[j].poly < n && polys[r[j].poly].material == m && r[j].vertices == polys[r[j].poly].vertices
      {
        if j < |prev| {
          assert r[j] == prev[j];
        }
      }
    }
  }

  lemma {:induction false} MaterialTrianglesOrdered(polys: seq<Polygon>, n: nat, m: nat)
    requires n <= |polys|
    ensures forall i, j :: 0 <= i < j < |MaterialTriangles(polys, n, m)| ==>
              MaterialTriangles(polys, n, m)[i].poly < MaterialTriangles(polys, n, m)[j].poly
  {
    if n > 0 {
      MaterialTrianglesOrdered(polys, n - 1, m);
      MaterialTrianglesSound(polys, n - 1, m);
      var prev := MaterialTriangles(polys, n - 1, m);
      var r := MaterialTriangles(polys, n, m);
      forall i, j | 0 <= i < j < |r| ensures r[i].poly < r[j].poly {
        assert r[i] == prev[i];
        if j < |prev| {
          assert r[j] == prev[j];
        } else {
          assert r[j].poly == n - 1;
        }
      }
    }
  }

  /** Polygon `k` of material `m` is listed. */
  lemma {:induction false} MaterialTriangleOf(polys: seq<Polygon>, n: nat, m: nat, k: nat) returns (j: nat)
    requires n <= |polys| && k < n && polys[k].material == m
    ensures j < |MaterialTriangles(polys, n, m)| && MaterialTriangles(polys, n, m)[j].poly == k
  {
    var prev := MaterialTriangles(polys, n - 1, m);
    var r := MaterialTriangles(polys, n, m);
    if k < n - 1 {
      j := MaterialTriangleOf(polys, n - 1, m, k);
      assert r == prev + (if polys[n - 1].material == m then [MatTriangle(n - 1, polys[n - 1].vertices)] else []);
      assert r[j] == prev[j];
    } else {
      j := |r| - 1;
    }
  }

  /** Corner `j` of a renumbered triangle. */
  function Corner(t: Triangle, j: nat): int
  {
    if j == 0 then t.a else if j == 1 then t.b else t.c
  }

  /** Every corner is a position of a list of `size` entries. */
  predicate CornersBelow(rt: seq<Triangle>, size: nat)
  {
    forall k :: 0 <= k < |rt| ==> 0 <= rt[k].a < size && 0 <= rt[k].b < size && 0 <= rt[k].c < size
  }

  /** The corners of every triangle can be found in `index`, and polygons
      have at least three vertices. */
  predicate CornersIndexed(index: seq<nat>, tris: seq<MatTriangle>)
  {
    forall k :: 0 <= k < |tris| ==>
      |tris[k].vertices| >= 3 && tris[k].vertices[0] in index && tris[k].vertices[1] in index && tris[k].vertices[2] in index
  }

  /** `ut.Triangle([indexes[m].index(v) for v in tri])`; its `write` uses the
      first three entries. */
  function RemapTriangle(index: seq<nat>, vs: seq<nat>): (t: Triangle)
    requires |vs| >= 3 && vs[0] in index && vs[1] in index && vs[2] in index
    ensures 0 <= t.a < |index| && index[t.a] == vs[0]
    ensures 0 <= t.b < |index| && index[t.b] == vs[1]
    ensures 0 <= t.c < |index| && index[t.c] == vs[2]
  {
    Triangle(IndexOf(index, vs[0]), IndexOf(index, vs[1]), IndexOf(index, vs[2]))
  }

  /** `sur_triangles`: every triangle renumbered into `index`. */
  function RemapTriangles(index: seq<nat>, tris: seq<MatTriangle>): (r: seq<Triangle>)
    requires CornersIndexed(index, tris)
    ensures |r| == |tris| && CornersBelow(r, |index|)
    ensures forall k :: 0 <= k < |tris| ==> r[k] == RemapTriangle(index, tris[k].vertices)
  {
    seq(|tris|, k requires 0 <= k < |tris| => RemapTriangle(index, tris[k].vertices))
  }

  /** The triangles of material `m` have their corners in `indexes[m]`. */
  lemma {:induction false} MaterialCornersIndexed(polys: seq<Polygon>, numMaterials: nat, m: nat)
    requires m < numMaterials
    requires forall k :: 0 <= k < |polys| ==> |polys[k].vertices| >= 3
    ensures CornersIndexed(Groups(polys, numMaterials)[m], MaterialTriangles(polys, |polys|, m))
  {
    var tris := MaterialTriangles(polys, |polys|, m);
    MaterialTrianglesSpec(polys, |polys|, m);
    forall k, j | 0 <= k < |tris| && 0 <= j < 3
      ensures tris[k].vertices[j] in Groups(polys, numMaterials)[m]
    {
      GroupContents(polys, numMaterials, m, tris[k].vertices[j]);
      assert tris[k].vertices[j] in polys[tris[k].poly].vertices;
    }
  }

  // ---------------------------------------------------------------------
  // Texture coordinates

  /** Every corner of every triangle has its entry in the UV layer. */
  predicate LoopsCovered(tris: seq<MatTriangle>, uvs: seq<TexCoord>)
  {
    forall k :: 0 <= k < |tris| ==> 3 * tris[k].poly + 2 < |uvs|
  }

  /** `sts` once the first `n` triangles were visited: corner `j` of the
      triangle of polygon `i` stores the texture coordinate of loop
      `3 * i + j` at its position `indexes[id].index(tri[j])`, which is the
      renumbered corner `rt[k]`. */
  function StsAfter(size: nat, tris: seq<MatTriangle>, rt: seq<Triangle>, uvs: seq<TexCoord>, n: nat): (r: seq<Option<TexCoord>>)
    requires n <= |tris| == |rt| && LoopsCovered(tris, uvs) && CornersBelow(rt, size)
    ensures |r| == size
  {
    if n == 0 then seq(size, _ => None)
    else
      var t, i := rt[n - 1], tris[n - 1].poly;
      StsAfter(size, tris, rt, uvs, n - 1)[t.a := Some(uvs[3 * i])][t.b := Some(uvs[3 * i + 1])][t.c := Some(uvs[3 * i + 2])]
  }

  /** What visiting triangle `n - 1` does to position `p`: the last of its
      corners that lands on `p` decides the entry, and when none does the
      entry stays as it was. */
  lemma {:induction false} StsStep(size: nat, tris: seq<MatTriangle>, rt: seq<Triangle>, uvs: seq<TexCoord>, n: nat, p: nat)
    requires 0 < n <= |tris| == |rt| && LoopsCovered(tris, uvs) && CornersBelow(rt, size)
    requires p < size
    ensures var r, t, i := StsAfter(size, tris, rt, uvs, n)[p], rt[n - 1], tris[n - 1].poly;
            if t.c == p then r == Some(uvs[3 * i + 2])
            else if t.b == p then r == Some(uvs[3 * i + 1])
            else if t.a == p then r == Some(uvs[3 * i])
            else r == StsAfter(size, tris, rt, uvs, n - 1)[p]
  {
  }

  /** Position `p` of `sts` is set exactly when some corner lands on it. */
  lemma {:induction false} StsSet(size: nat, tris: seq<MatTriangle>, rt: seq<Triangle>, uvs: seq<TexCoord>, n: nat, p: nat)
    requires n <= |tris| == |rt| && LoopsCovered(tris, uvs) && CornersBelow(rt, size)
    requires p < size
    ensures StsAfter(size, tris, rt, uvs, n)[p].Some? <==>
            exists k, j :: 0 <= k < n && 0 <= j < 3 && Corner(rt[k], j) == p
  {
    if n > 0 {
      StsSet(size, tris, rt, uvs, n - 1, p);
      StsStep(size, tris, rt, uvs, n, p);
      var t := rt[n - 1];
      if t.a == p || t.b == p || t.c == p {
        var j := if t.a == p then 0 else if t.b == p then 1 else 2;
        assert Corner(rt[n - 1], j) == p;
      } else {
        forall k, j | 0 <= k < n && 0 <= j < 3 && Corner(rt[k], j) == p
          ensures k < n - 1
        {
        }
      }
    }
  }

  /** When corner `j` of triangle `k` lands on position `p` and no later
      corner does, position `p` holds that corner's texture coordinate:
      later corners overwrite earlier ones. */
  lemma {:induction false} StsLastCorner(size: nat, tris: seq<MatTriangle>, rt: seq<Triangle>, uvs: seq<TexCoord>, n: nat, p: nat,
                                         k: nat, j: nat)
    requires n <= |tris| == |rt| && LoopsCovered(tris, uvs) && CornersBelow(rt, size)
    requires p < size
    requires k < n && j < 3 && Corner(rt[k], j) == p
    requires forall k', j' :: k <= k' < n && 0 <= j' < 3 && (k' > k || j' > j) ==> Corner(rt[k'], j') != p
    ensures StsAfter(size, tris, rt, uvs, n)[p] == Some(uvs[3 * tris[k].poly + j])
  {
    StsStep(size, tris, rt, uvs, n, p);
    if k < n - 1 {
      assert Corner(rt[n - 1], 0) != p && Corner(rt[n - 1], 1) != p && Corner(rt[n - 1], 2) != p;
      StsLastCorner(size, tris, rt, uvs, n - 1, p, k, j);
    } else if j < 2 {
      assert Corner(rt[k], 2) != p;
      assert j < 1 ==> Corner(rt[k], 1) != p;
    }
  }

  /** In a list without duplicates, a renumbered corner lands on position
      `p` exactly when the original corner is vertex `index[p]`. */
  lemma {:induction false} CornerPosition(index: seq<nat>, vs: seq<nat>, j: nat, p: nat)
    requires |vs| >= 3 && vs[0] in index && vs[1] in index && vs[2] in index
    requires Increasing(index) && j < 3 && p < |index|
    ensures Corner(RemapTriangle(index, vs), j) == p <==> vs[j] == index[p]
  {
    IndexOfIncreasing(index, p);
  }

  /** The `sts` loop of `export`: a list of `None`, then for each triangle
      of the material the texture coordinates of its three loops stored at
      the positions of its three vertices. */
  method BuildSts(index: seq<nat>, tris: seq<MatTriangle>, uvs: seq<TexCoord>) returns (sts: seq<Option<TexCoord>>)
    requires CornersIndexed(index, tris) && LoopsCovered(tris, uvs)
    ensures sts == StsAfter(|index|, tris, RemapTriangles(index, tris), uvs, |tris|)
  {
    ghost var rt := RemapTriangles(index, tris);
    sts := seq(|index|, _ => None);
    var k := 0;
    while k < |tris|
      invariant k <= |tris| && sts == StsAfter(|index|, tris, rt, uvs, k)
    {
      sts := StoreCorners(index, tris, uvs, k, sts);
      k := k + 1;
    }
  }

  /** One pass of the `sts` loop: the three corners of triangle `k`. */
  method StoreCorners(index: seq<nat>, tris: seq<MatTriangle>, uvs: seq<TexCoord>, k: nat, sts: seq<Option<TexCoord>>)
      returns (sts': seq<Option<TexCoord>>)
    requires CornersIndexed(index, tris) && LoopsCovered(tris, uvs) && k < |tris|
    requires sts == StsAfter(|index|, tris, RemapTriangles(index, tris), uvs, k)
    ensures sts' == StsAfter(|index|, tris, RemapTriangles(index, tris), uvs, k + 1)
  {
    ghost var rt := RemapTriangles(index, tris);
    var i, tri := tris[k].poly, tris[k].vertices;
    var q0, q1, q2 := IndexOf(index, tri[0]), IndexOf(index, tri[1]), IndexOf(index, tri[2]);
    assert rt[k] == Triangle(q0, q1, q2);
    StsAfterNext(|index|, tris, rt, uvs, k);
    sts' := sts[q0 := Some(uvs[3 * i])];
    sts' := sts'[q1 := Some(uvs[3 * i + 1])];
    sts' := sts'[q2 := Some(uvs[3 * i + 2])];
  }

  lemma {:induction false} StsAfterNext(size: nat, tris: seq<MatTriangle>, rt: seq<Triangle>, uvs: seq<TexCoord>, k: nat)
    requires k < |tris| == |rt| && LoopsCovered(tris, uvs) && CornersBelow(rt, size)
    ensures 0 <= rt[k].a < size && 0 <= rt[k].b < size && 0 <= rt[k].c < size && 3 * tris[k].poly + 2 < |uvs|
    ensures StsAfter(size, tris, rt, uvs, k + 1)
         == StsAfter(size, tris, rt, uvs, k)[rt[k].a := Some(uvs[3 * tris[k].poly])]
              [rt[k].b := Some(uvs[3 * tris[k].poly + 1])][rt[k].c := Some(uvs[3 * tris[k].poly + 2])]
  {
  }

  /** For a triangulated mesh with a UV entry per loop, every position of
      `sts` is set: each vertex of the material is a corner of one of its
      triangles. */
  lemma {:induction false} StsFilled(polys: seq<Polygon>, numMaterials: nat, m: nat, uvs: seq<TexCoord>)
    requires m < numMaterials
    requires forall k :: 0 <= k < |polys| ==> |polys[k].vertices| == 3
    requires |uvs| >= 3 * |polys|
    ensures var index, tris := Groups(polys, numMaterials)[m], MaterialTriangles(polys, |polys|, m);
            && CornersIndexed(index, tris) && LoopsCovered(tris, uvs)
            && forall p :: 0 <= p < |index| ==> StsAfter(|index|, tris, RemapTriangles(index, tris), uvs, |tris|)[p].Some?
  {
    var index, tris := Groups(polys, numMaterials)[m], MaterialTriangles(polys, |polys|, m);
    assert LoopsCovered(tris, uvs) by {
      MaterialTrianglesSpec(polys, |polys|, m);
    }
    MaterialCornersIndexed(polys, numMaterials, m);
    GroupContents(polys, numMaterials, m, 0);
    var rt := RemapTriangles(index, tris);
    forall p | 0 <= p < |index|
      ensures StsAfter(|index|, tris, rt, uvs, |tris|)[p].Some?
    {
      StsFilledVertex(polys, numMaterials, m, uvs, index, tris, rt, p);
    }
  }

  /** Vertex `index[p]` is a corner of some triangle of the material. */
  lemma {:induction false} StsFilledVertex(polys: seq<Polygon>, numMaterials: nat, m: nat, uvs: seq<TexCoord>,
                                           index: seq<nat>, tris: seq<MatTriangle>, rt: seq<Triangle>, p: nat)
    requires m < numMaterials && index == Groups(polys, numMaterials)[m] && tris == MaterialTriangles(polys, |polys|, m)
    requires forall k :: 0 <= k < |polys| ==> |polys[k].vertices| == 3
    requires CornersIndexed(index, tris) && LoopsCovered(tris, uvs) && rt == RemapTriangles(index, tris)
    requires p < |index|
    ensures StsAfter(|index|, tris, rt, uvs, |tris|)[p].Some?
  {
    GroupContents(polys, numMaterials, m, index[p]);
    var k, j := VertexOwner(polys, numMaterials, m, index[p]);
    var l := TriangleOf(polys, m, k);
    StsFilledAt(index, tris, rt, uvs, p, l, j);
  }

  /** A vertex of the list of material `m` is corner `j` of a polygon `k` of that material. */
  lemma {:induction false} VertexOwner(polys: seq<Polygon>, numMaterials: nat, m: nat, v: nat) returns (k: nat, j: nat)
    requires m < numMaterials && v in Groups(polys, numMaterials)[m]
    requires forall k :: 0 <= k < |polys| ==> |polys[k].vertices| == 3
    ensures k < |polys| && polys[k].material == m && j < 3 && polys[k].vertices[j] == v
  {
    GroupContents(polys, numMaterials, m, v);
    k :| 0 <= k < |polys| && polys[k].material == m && v in polys[k].vertices;
    j :| 0 <= j < |polys[k].vertices| && polys[k].vertices[j] == v;
  }

  /** Polygon `k` of material `m` is one of the triangles `mat_triangles` lists. */
  lemma {:induction false} TriangleOf(polys: seq<Polygon>, m: nat, k: nat) returns (l: nat)
    requires k < |polys| && polys[k].material == m
    ensures l < |MaterialTriangles(polys, |polys|, m)|
    ensures MaterialTriangles(polys, |polys|, m)[l].vertices == polys[k].vertices
  {
    MaterialTrianglesSpec(polys, |polys|, m);
    l :| 0 <= l < |MaterialTriangles(polys, |polys|, m)| && MaterialTriangles(polys, |polys|, m)[l].poly == k;
  }

  /** A position on which some corner lands is set. */
  lemma {:induction false} StsFilledAt(index: seq<nat>, tris: seq<MatTriangle>, rt: seq<Triangle>, uvs: seq<TexCoord>,
                                       p: nat, l: nat, j: nat)
    requires CornersIndexed(index, tris) && LoopsCovered(tris, uvs) && rt == RemapTriangles(index, tris)
    requires Increasing(index) && p < |index| && l < |tris| && j < 3 && tris[l].vertices[j] == index[p]
    ensures StsAfter(|index|, tris, rt, uvs, |tris|)[p].Some?
  {
    var vs := tris[l].vertices;
    assert |vs| >= 3 && vs[0] in index && vs[1] in index && vs[2] in index;
    CornerPosition(index, vs, j, p);
    assert Corner(rt[l], j) == p;
    StsSet(|index|, tris, rt, uvs, |tris|, p);
  }

  // ---------------------------------------------------------------------
  // Vertex grid

  /** Row `shapedata` of a shape key: position `p` holds vertex `index[p]`
      of the key when the key has that vertex, and stays `None` otherwise. */
  function ShapeRow(index: seq<nat>, coords: seq<Vertex>): (row: seq<Option<Vertex>>)
    ensures |row| == |index|
  {
    seq(|index|, p requires 0 <= p < |index| => if index[p] < |coords| then Some(coords[index[p]]) else None)
  }

  /** `xyzs`: one row per shape key. */
  function Grid(index: seq<nat>, shapes: seq<ShapeKey>): (g: seq<seq<Option<Vertex>>>)
    ensures |g| == |shapes|
  {
    seq(|shapes|, k requires 0 <= k < |shapes| => ShapeRow(index, shapes[k].coords))
  }

  /** The `shapedata` loop: a list of `None`, then every vertex id of the
      key that belongs to the material stored at its position in `index`.
      Position `p` ends up holding vertex `index[p]` of the key when the key
      has it, and `None` otherwise. */
  method BuildRow(index: seq<nat>, coords: seq<Vertex>) returns (row: seq<Option<Vertex>>)
    requires Increasing(index)
    ensures |row| == |index|
    ensures forall p :: 0 <= p < |index| ==>
              row[p] == if index[p] < |coords| then Some(coords[index[p]]) else None
  {
    row := seq(|index|, _ => None);
    var i := 0;
    while i < |coords|
      invariant i <= |coords| && |row| == |index|
      invariant forall p :: 0 <= p < |index| ==> row[p] == if index[p] < i then Some(coords[index[p]]) else None
    {
      if i in index {
        var q := IndexOf(index, i);
        forall p | 0 <= p < |index| && p != q
          ensures index[p] != i
        {
          IndexOfIncreasing(index, p);
        }
        row := row[q := Some(coords[i])];
      }
      i := i + 1;
    }
  }

  /** The `xyzs` loop: one row per shape key, in key order. */
  method BuildGrid(index: seq<nat>, shapes: seq<ShapeKey>) returns (xyzs: seq<seq<Option<Vertex>>>)
    requires Increasing(index)
    ensures xyzs == Grid(index, shapes)
  {
    xyzs := [];
    var k := 0;
    while k < |shapes|
      invariant k <= |shapes| && |xyzs| == k
      invariant forall r :: 0 <= r < k ==> xyzs[r] == ShapeRow(index, shapes[r].coords)
    {
      var row := BuildRow(index, shapes[k].coords);
      xyzs := xyzs + [row];
      k := k + 1;
    }
  }
}
