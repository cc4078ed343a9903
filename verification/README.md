# MD3 codec of the Blender MD3 add-on, modelled in Dafny

This project models the integer and byte-level core of a Blender add-on
that imports and exports Quake III MD3 models. It covers three parts:

- `Utilities.py`: the little-endian primitives, the fixed-size records
  (`Vec3`, `Shader`, `Triangle`, `TexCoord`, `Vertex`, `Frame`, `Tag`) and
  the surface codec (`Surface.read`, `Surface.write` and
  `Surface.writeWithoutOFS`, which backpatches its offsets).
- `export_md3.py`: `export`. It writes the model header, one frame per
  shape key, and one surface per material. It also builds the per-material
  vertex lists, the renumbered triangles, the texture-coordinate table and
  the vertex grid.
- `import_md3.py`: `main`. It reads the header, the frames, the tags and
  the surfaces. Then it appends frame-0 geometry to the module-level
  `verts`/`edges`/`faces` lists, builds the shape keys, the UV layer, the
  materials with their polygon ranges, and the custom normals.

## How it is modelled

- **File.** A file is the class `Streams.Stream`, with a byte sequence and
  a cursor.
  - Writing overwrites at the cursor and extends the file. A gap past the
    end is filled with zero bytes.
  - `read(n)` returns fewer bytes at the end of the file, as Python's file
    objects do.
  - Seeking to a negative position fails.
- **Writers.** The flat record writers state the exact new contents. The
  composite writers (`writeWithoutOFS`, `Surface.write`, the record loops
  and `export`) state the contents on success and the exact failure
  condition. A failure is a `struct.error` for an integer out of range, or
  an `AttributeError`, for instance for a `None` list entry.
- **Readers.** Every reader is a method proved equal to a pure function of
  the file's bytes (`SurfaceAt`, `ModelAt`, ...). A short read or a
  `struct.error` in the source is the `None` result. The UTF-8 decoding of
  names is not modelled (see `Primitives.ReadMax` under "Left out").
- **Surfaces.** The surface codec has a round-trip theorem:
  `SurfaceReader.ReadAfterWriteWithoutOfs`. Whatever `writeWithoutOFS`
  writes reads back through `Surface.read`, with the surface's own start as
  its base. This holds whenever the header counts agree with the lists.
- **Import.** The import's mutable lists are the class
  `ImportMesh.MeshBuffers`. The polygons' material indices are an
  `array<int>` that the material loop paints in place.

Where the code and the usual description of the format differ, the model
follows the code:

- **`readmax` keeps zero bytes.** It compares a `bytes` value with the
  `str` `'\x00'`, which is never equal. So a name comes back as its whole
  zero-padded field.
- **`Surface.read` uses the current cursor.** It reads its header at the
  cursor, not at its `ofs_surface` argument. The argument is only the base
  of the block offsets.
- **`main` mixes totals and restarts.** The module-level lists accumulate
  across imports, but the index offset `ofs` restarts at 0 on every import.
  Both the vertex offset and the polygon offset are sums of the header's
  `NUM_VERTS`/`NUM_TRIANGLES` fields, not of what was read.
- **Negative indices follow Python.** A negative triangle corner index
  counts from the end of the texture-coordinate list. A negative polygon
  index counts from the end of the polygon list.
- **A negative count reads nothing.** `range` of a negative number is
  empty.

## Model

| member | source | states |
|---|---|---|
| Bytes.Overwrite | Utilities.py:40-41 | writing `a` at cursor `p` leaves a file of length max(old length, p + \|a\|); nothing changes for an empty write |
| Bytes.OverwriteContents | Utilities.py:40-41 | after a write, each byte is the written byte inside the written range, the old byte elsewhere, and zero in a gap past the old end |
| Bytes.OverwriteSequential | Utilities.py:260-288 | writing `a` and then `b` at the cursor after it is the same as writing `a + b` |
| Bytes.OverwritePatch | Utilities.py:316-320 | seeking back into bytes just written and overwriting some of them is the same as having written the patched bytes in one go |
| Bytes.OverwriteAtEnd | export_md3.py:206 | writing at the end of the file appends |
| Bytes.OverwriteWindow | Utilities.py:40-41 | the bytes just written are found where they were written |
| Bytes.LittleEndianRoundTrip | Utilities.py:21-22 | decoding the n little-endian bytes of an unsigned value below 256^n gives the value back |
| Bytes.FromLittleEndianRoundTrip | Utilities.py:40-41 | encoding the value of any byte string in as many bytes gives the same string |
| Streams.Window | Utilities.py:17-35 | `read(n)` returns at most n bytes: exactly n iff they lie inside the file, the bytes at the cursor, none past the end, and a short read stops at the end |
| Streams.WindowStep | Utilities.py:29-35 | reading n bytes and then one more is reading n + 1 |
| Streams.Stream.Empty | export_md3.py:30-31 | a file opened with "w+b" is empty, with the cursor at 0 |
| Streams.Stream.Open | import_md3.py:54 | a file opened with "rb" holds its contents, with the cursor at 0 |
| Streams.Stream.Seek | Utilities.py:232 | seeking fails exactly for a negative target; any other target, even past the end, becomes the cursor |
| Streams.Stream.Write | Utilities.py:41 | the file is overwritten at the cursor and the cursor moves past the bytes written |
| Streams.Stream.Read | Utilities.py:18 | returns the window at the cursor and moves the cursor past it |
| Primitives.S32RoundTrip | Utilities.py:21-22 | a signed 32-bit value reads back as itself after `writeS32` |
| Primitives.S32Canonical | Utilities.py:40-41 | any 4 bytes are the encoding of the value they decode to |
| Primitives.S16RoundTrip | Utilities.py:17-18 | a signed 16-bit value reads back as itself after `writeS16` |
| Primitives.S16Canonical | Utilities.py:48-49 | any 2 bytes are the encoding of the value they decode to |
| Primitives.DecodeF32 | Utilities.py:25-26 | a float read is the 4 bytes it came from |
| Primitives.PadName | Utilities.py:52-59 | `writemax(s, n)` produces n bytes: byte i of `s` while `s` lasts, then zero bytes |
| Primitives.PadNameTruncates | Utilities.py:52-59 | a name at least as long as its field is cut to the field, with no terminator |
| Primitives.Emit | Utilities.py:62-185 | a record's bytes never exceed its total width, and equal it when every field can be written |
| Primitives.EmitAppend | Utilities.py:62-185 | writing two field lists in turn, the first in full, emits the bytes of both, one after the other |
| Primitives.ReadS16 | Utilities.py:17-18 | succeeds exactly when 2 bytes remain, decodes them and moves past them; a short read moves to the end |
| Primitives.ReadS32 | Utilities.py:21-22 | succeeds exactly when 4 bytes remain, decodes them and moves past them; a short read moves to the end |
| Primitives.ReadF32 | Utilities.py:25-26 | succeeds exactly when 4 bytes remain and returns those bytes |
| Primitives.ReadMax | Utilities.py:29-34 | returns the window of n bytes at the cursor, zero bytes included; a short read at the end of the file is not an error |
| Primitives.WriteS32 | Utilities.py:40-41 | succeeds exactly for a signed 32-bit value and writes its encoding; on failure the file is unchanged |
| Primitives.WriteS16 | Utilities.py:48-49 | succeeds exactly for a signed 16-bit value and writes its encoding; on failure the file is unchanged |
| Primitives.WriteF32 | Utilities.py:44-45 | writes the 4 bytes of the float |
| Primitives.WriteNameByte | Utilities.py:54-59 | one loop round of `writemax` extends the written prefix of the padded name by one byte |
| Primitives.WriteMax | Utilities.py:52-59 | writes exactly the padded name and moves the cursor n bytes |
| Primitives.WriteField | Utilities.py:40-49 | succeeds exactly when the field can be written, and writes its bytes or nothing |
| Primitives.WriteFields | Utilities.py:71-74 | writes fields in order, stops at the first one that raises, and leaves exactly the bytes emitted before it |
| Primitives.Int32Emit | Utilities.py:293-314 | a run of integer fields can be written exactly when all are 32-bit, taking 4 bytes each |
| Primitives.Int32BytesAt | Utilities.py:301-314 | integer k of a run sits at bytes 4k to 4k + 4 |
| Primitives.Int32BytesPatch | Utilities.py:316-320 | replacing integer k of a run changes only its 4 bytes |
| Primitives.PatchInt32 | Utilities.py:316-320 | seeking back to integer k of a written run and rewriting it is writing the patched run |
| Primitives.RecordsWritableAll | Utilities.py:277-284 | a list of records can be written exactly when each record can |
| Primitives.EmitRecordsLength | Utilities.py:277-284 | records of w bytes take w bytes each |
| Primitives.EmitRecordsAt | Utilities.py:277-284 | record k of the list is found at bytes w·k to w·k + w |
| Primitives.WriteRecord | Utilities.py:277-278 | one round of `for x in xs: x.write(f)` appends record i after the earlier ones |
| Primitives.WriteAll | Utilities.py:277-284 | `for x in xs: x.write(f)` succeeds exactly when every record can be written, and then writes all records in order |
| Primitives.WriteAllAfter | Utilities.py:322-345 | the same loop after bytes already written keeps them and appends the records |
| Primitives.EmitRowsLength | Utilities.py:286-288 | rows of w-byte records take w bytes per cell |
| Primitives.EmitRowsAt | Utilities.py:286-288 | row r is found after the cells of the rows before it |
| Primitives.WriteRow | Utilities.py:286-288 | one outer round appends row i after the earlier rows |
| Primitives.WriteRows | Utilities.py:286-288 | the nested loop over rows succeeds exactly when every row can be written, and writes them row after row |
| Primitives.WriteRowsAfter | Utilities.py:353-359 | the same nested loop after bytes already written keeps them and appends the rows |
| Records.Vec3Fields | Utilities.py:71-74 | a `Vec3` is 12 bytes, writable exactly when x, y and z are 32-bit |
| Records.ShaderFields | Utilities.py:87-90 | a `Shader` is 68 bytes, writable exactly when its index is 32-bit |
| Records.TriangleFields | Utilities.py:100-103 | a `Triangle` is 12 bytes, writable exactly when its three indices are 32-bit |
| Records.TexCoordFields | Utilities.py:113-115 | a `TexCoord` is 8 bytes and always writable |
| Records.VertexFields | Utilities.py:138-145 | a `Vertex` is 8 bytes, writable exactly when coordinates and packed normal are 16-bit |
| Records.FrameFields | Utilities.py:162-168 | a `Frame` is 56 bytes, writable exactly when its three vectors are |
| Records.TagFields | Utilities.py:181-185 | a `Tag` is 112 bytes, writable exactly when its four vectors are |
| Records.FrameAtParts | Utilities.py:158-160 | a frame is read as three vectors, a float, and the window of its 16-byte name |
| Records.Vec3RoundTrip | Utilities.py:68-74 | a written `Vec3` reads back as itself |
| Records.TriangleRoundTrip | Utilities.py:97-103 | a written `Triangle` reads back as itself |
| Records.ShaderRoundTrip | Utilities.py:84-90 | a written `Shader` reads back with its index and its name padded or cut to 64 bytes |
| Records.TexCoordRoundTrip | Utilities.py:110-115 | a written `TexCoord` reads back as itself, the stored 1 - t included |
| Records.VertexRoundTrip | Utilities.py:127-145 | a written `Vertex` reads back as itself, packed normal included |
| Records.FrameRoundTrip | Utilities.py:158-168 | a written `Frame` reads back with its name padded or cut to 16 bytes |
| Records.TagRoundTrip | Utilities.py:177-185 | a written `Tag` reads back, fields in file order, with its name padded or cut to 64 bytes (the intended reading; see Findings) |
| Records.IntendedTagRoundTrip | Utilities.py:171-185 | once `Tag.read` gives each field its own attribute, the tag read back is writable again, is 112 bytes, and equals the written one with its name padded |
| Records.TagReadNotWritable | Utilities.py:171-185 | as written, `Tag.read` puts the axes in NAME, the name in ORIGIN and the origin in AXIS_ROTATION, so the tag read can never be written back |
| Records.ReadVec3 | Utilities.py:68-69 | succeeds exactly when 12 bytes remain, and returns the vector there |
| Records.WriteVec3 | Utilities.py:71-74 | succeeds exactly when the vector is writable, and writes what its fields emit |
| Records.ReadShader | Utilities.py:84-85 | succeeds exactly when 68 bytes remain, and returns the shader there |
| Records.WriteShader | Utilities.py:87-90 | succeeds exactly when the shader is writable, and writes what its fields emit |
| Records.ReadTriangle | Utilities.py:97-98 | succeeds exactly when 12 bytes remain, and returns the triangle there |
| Records.WriteTriangle | Utilities.py:100-103 | succeeds exactly when the triangle is writable, and writes what its fields emit |
| Records.ReadTexCoord | Utilities.py:110-111 | succeeds exactly when 8 bytes remain, and returns the coordinate there |
| Records.WriteTexCoord | Utilities.py:113-115 | writes the 8 bytes of the coordinate |
| Records.ReadVertex | Utilities.py:127-136 | succeeds exactly when 8 bytes remain, and returns the vertex there |
| Records.WriteVertex | Utilities.py:138-145 | succeeds exactly when the vertex is writable, and writes what its fields emit |
| Records.ReadFrame | Utilities.py:158-160 | succeeds exactly when 40 bytes remain, since a name cut by the end of the file is still read, and returns the frame there |
| Records.WriteFrame | Utilities.py:162-168 | succeeds exactly when the frame is writable, and writes what its fields emit |
| Records.ReadTag | Utilities.py:177-179 | succeeds exactly when 112 bytes remain, and returns the tag there with name, origin and axes in file order (the intended reading; see Findings) |
| Records.ReadTagAsWritten | Utilities.py:171-179 | `Tag.read` as written: succeeds exactly when 112 bytes remain, and returns the tag built with the file's fields in the constructor's slots for origin, axes and name |
| Records.WriteTag | Utilities.py:181-185 | succeeds exactly when the tag is writable, and writes what its fields emit |
| Surfaces.HeaderFields | Utilities.py:261-272 | a surface header is 108 bytes, writable exactly when the ident and the ten integers are 32-bit |
| Surfaces.HeaderBytes | Utilities.py:261-272 | a header is the ident and 64-byte name, followed by the ten integers |
| Surfaces.StFields | Utilities.py:283-284 | a `None` texture coordinate cannot be written; any other is a `TexCoord` record |
| Surfaces.VertexEntryFields | Utilities.py:286-288 | a `None` vertex cannot be written; any other is a `Vertex` record |
| Surfaces.BlockSizes | Utilities.py:277-288 | the blocks take 12, 68, 8 and 8 bytes per triangle, shader, texture coordinate and vertex |
| Surfaces.SurfaceSize | Utilities.py:260-288 | `write` emits 108 + 12·triangles + 68·shaders + 8·coordinates + 8·vertices bytes |
| Surfaces.Write | Utilities.py:260-288 | `write` succeeds exactly when header and blocks are writable, and then writes header, triangles, shaders, coordinates and grid in that order |
| Surfaces.FillGridCells | Utilities.py:353-359 | filling does not change the number of vertices |
| Surfaces.FilledWritable | Utilities.py:340-345 | the filled coordinates can always be written |
| Surfaces.Backpatch | Utilities.py:316-320 | storing the distance from the start to the cursor in offset slot k succeeds exactly when that distance is 32-bit, changes only that integer, and keeps the cursor |
| Surfaces.BlockLength | Utilities.py:322-359 | a writable block has its computed size |
| Surfaces.StageOffset | Utilities.py:316-365 | the offset stored for each block is the header size plus the sizes of the blocks before it |
| Surfaces.NormalizedOffsets | Utilities.py:290-365 | whatever offsets came in, the stored ones are the closed forms OFS_TRIANGLES = 108, OFS_SHADERS = 108 + 12T, OFS_ST = OFS_SHADERS + 68S, OFS_XYZNORMAL = OFS_ST + 8U, OFS_END = OFS_XYZNORMAL + 8·Σ\|row\|; the blocks are writable exactly when each stage is |
| Surfaces.PatchStep | Utilities.py:316-320 | backpatching offset j changes exactly that integer of the header bytes |
| Surfaces.WriteBlock | Utilities.py:322-359 | writes block j after what was already written, succeeding exactly when it is writable |
| Surfaces.Stage | Utilities.py:316-359 | one stage (backpatch, then block) succeeds exactly when the offset is 32-bit and the block is writable, and extends the written surface by one block |
| Surfaces.StageFails | Utilities.py:290-365 | a stage that fails makes `writeWithoutOFS` fail |
| Surfaces.StagesDone | Utilities.py:290-365 | after the five stages, the backpatched header and the blocks are the bytes of the normalized surface |
| Surfaces.StagesBytes | Utilities.py:322-359 | the stages' blocks are the normalized surface's four blocks in order |
| Surfaces.NormalizedHeader | Utilities.py:290-314 | when `writeWithoutOFS` succeeds, the header it leaves can be written as it stands |
| Surfaces.HeaderIntsS32 | Utilities.py:263-272 | the ten header integers are 32-bit exactly when each field is |
| Surfaces.NormalizedLayout | Utilities.py:290-365 | the written surface is `ofsEnd` bytes long, and each block lies between its offset and the next |
| Surfaces.WriteWithoutOfs | Utilities.py:290-365 | succeeds exactly when the header, the filled blocks and the end offset can be written, and then writes the normalized surface from the cursor and moves `ofsEnd` bytes |
| SurfaceReader.GridAtRow | Utilities.py:248-253 | row r of the grid is the `cols` vertices at p + 8·cols·r |
| SurfaceReader.ReadHeaderInt | Utilities.py:219-230 | reads header integer k when its 4 bytes lie in the file |
| SurfaceReader.ReadHeaderInts | Utilities.py:219-230 | reads the ten header integers exactly when the whole header lies in the file |
| SurfaceReader.ReadShaders | Utilities.py:233-235 | reads `Count(n)` shaders exactly when they lie in the file, and moves past them |
| SurfaceReader.ReadTriangles | Utilities.py:238-240 | reads `Count(n)` triangles exactly when they lie in the file, and moves past them |
| SurfaceReader.ReadTexCoords | Utilities.py:243-245 | reads `Count(n)` coordinates exactly when they lie in the file, and moves past them |
| SurfaceReader.ReadVertices | Utilities.py:251-252 | reads one row of `Count(n)` vertices exactly when it lies in the file |
| SurfaceReader.ReadGrid | Utilities.py:248-253 | reads `Count(rows)` rows of `Count(cols)` vertices exactly when they lie in the file |
| SurfaceReader.ReadShaderBlock | Utilities.py:232-235 | seek then shaders: fails for a negative position or a block past the end |
| SurfaceReader.ReadTriangleBlock | Utilities.py:237-240 | seek then triangles: fails for a negative position or a block past the end |
| SurfaceReader.ReadTexCoordBlock | Utilities.py:242-245 | seek then coordinates: fails for a negative position or a block past the end |
| SurfaceReader.ReadGridBlock | Utilities.py:247-253 | seek then grid: fails for a negative position or a grid past the end, and leaves the cursor past the grid |
| SurfaceReader.Read | Utilities.py:216-258 | `Surface.read` returns the surface the bytes at the cursor describe, with block offsets relative to `base`, and leaves the cursor past the vertex grid |
| SurfaceReader.ReadBody | Utilities.py:232-258 | once the header at `q` is read, the four blocks are read at their offsets plus `base` and the result is the surface those bytes describe, or nothing when a block position is negative or a block runs past the end |
| SurfaceReader.SurfaceAtParts | Utilities.py:216-258 | a surface whose header and four blocks are read from their places is what `Surface.read` returns |
| SurfaceReader.HeaderReadBack | Utilities.py:216-230 | a written header reads back with its ident, its padded name and its ten integers |
| SurfaceReader.ShadersReadBack | Utilities.py:232-235 | written shaders read back with their names padded |
| SurfaceReader.TrianglesReadBack | Utilities.py:237-240 | written triangles read back unchanged |
| SurfaceReader.TexCoordsReadBack | Utilities.py:242-245 | written coordinates read back unchanged |
| SurfaceReader.VerticesReadBack | Utilities.py:251-252 | a written row of vertices reads back unchanged |
| SurfaceReader.GridReadBack | Utilities.py:247-253 | a written grid of equal-length rows reads back row by row |
| SurfaceReader.HeaderWrittenBack | Utilities.py:216-230 | the header of a surface written into a file reads back from that file |
| SurfaceReader.TrianglesWrittenBack | Utilities.py:237-240 | the triangles of a surface written into a file read back from their offset |
| SurfaceReader.ShadersWrittenBack | Utilities.py:232-235 | the shaders of a surface written into a file read back from their offset, names padded |
| SurfaceReader.TexCoordsWrittenBack | Utilities.py:242-245 | the coordinates of a surface written into a file read back from their offset |
| SurfaceReader.GridWrittenBack | Utilities.py:247-253 | the vertex grid of a surface written into a file reads back from its offset |
| SurfaceReader.NormalizedBlocks | Utilities.py:290-365 | the bytes `writeWithoutOFS` writes are laid out as their header says, when the counts agree with the lists |
| SurfaceReader.PartsWrittenBack | Utilities.py:216-258 | after bytes laid out for a surface are written at `start`, its header and each of its four blocks sit where the header says |
| SurfaceReader.PartsReadBack | Utilities.py:216-258 | a file holding a surface's header at `start` and each block at `start` plus its offset reads back as that surface, names padded |
| SurfaceReader.LaidOutReadBack | Utilities.py:216-258 | a surface laid out as its header says and written at `start` is read back by `Surface.read(f, start)`, names padded |
| SurfaceReader.ReadAfterWriteWithoutOfs | Utilities.py:216-365 | what `writeWithoutOFS` writes at `start` is read back by `Surface.read(f, start)` as the normalized surface, whenever the header counts agree with the lists |
| ExportLists.LastIndex | export_md3.py:42 | finds the last occurrence of a byte: none iff the byte is absent, otherwise a position holding it with none after |
| ExportLists.RsplitParts | export_md3.py:42 | `rsplit(c, 1)` cuts at the last `c`: before + c + after is the whole, and after holds no `c`; without a `c` the whole is kept |
| ExportLists.LastIndexAt | export_md3.py:42 | a position holding `c` with no `c` after it is the last occurrence |
| ExportLists.BeforeLastDropsSuffix | import_md3.py:122 | `rsplit(c, 1)[0]` of b + c + ext, with no `c` in ext, is b |
| ExportLists.Insert | export_md3.py:135-137 | inserting into an increasing list keeps it increasing and adds exactly the value |
| ExportLists.SortedDistinct | export_md3.py:135-137 | `list(dict.fromkeys(xs)).sort()` is increasing, without duplicates, and holds exactly the ids of xs |
| ExportLists.IncreasingUnique | export_md3.py:135-137 | two increasing lists with the same ids are equal, so the result does not depend on how it is computed |
| ExportLists.CollectedMembers | export_md3.py:128-132 | `indexes[m]` after `extend` holds exactly the vertices of the polygons of material m |
| ExportLists.GroupContents | export_md3.py:128-137 | the final `indexes[m]` is increasing and holds exactly the vertices of material m's polygons |
| ExportLists.GroupByMaterial | export_md3.py:128-137 | the grouping loops succeed exactly when every polygon's material index is a slot, and yield `Groups` |
| ExportLists.IndexOf | export_md3.py:154-156 | `xs.index(v)` is the first position holding v |
| ExportLists.IndexOfIncreasing | export_md3.py:154-156 | in a list without duplicates, `index` of the entry at p is p |
| ExportLists.MaterialTrianglesSpec | export_md3.py:151-153 | `mat_triangles` lists exactly the polygons of material m with their own vertices, in increasing polygon order |
| ExportLists.MaterialTriangleOf | export_md3.py:151-153 | every polygon of material m is listed |
| ExportLists.RemapTriangle | export_md3.py:154-156 | each renumbered corner is the position of the original vertex in `indexes[m]` |
| ExportLists.RemapTriangles | export_md3.py:154-156 | `sur_triangles` renumbers every triangle, in order, with corners below the list length |
| ExportLists.MaterialCornersIndexed | export_md3.py:151-156 | every corner of every triangle of material m is in `indexes[m]` |
| ExportLists.StsStep | export_md3.py:172-179 | after triangle n, an entry holds the UV of the last of its three corners that lands on it, or is unchanged |
| ExportLists.StsSet | export_md3.py:171-179 | entry p of `sts` is set exactly when some corner lands on p |
| ExportLists.StsLastCorner | export_md3.py:171-179 | the entry holds the UV of the last corner that lands on it |
| ExportLists.CornerPosition | export_md3.py:154-156 | a renumbered corner lands on p exactly when the vertex is `indexes[m][p]` |
| ExportLists.BuildSts | export_md3.py:171-179 | the `sts` loop yields the table `StsAfter` describes |
| ExportLists.StoreCorners | export_md3.py:172-179 | one round stores the three corners of triangle k |
| ExportLists.StsAfterNext | export_md3.py:172-179 | a round is three updates: corners a, b, c with UV loops 3i, 3i+1, 3i+2 |
| ExportLists.StsFilled | export_md3.py:171-179 | for triangle meshes, no entry of `sts` is left `None` |
| ExportLists.StsFilledVertex | export_md3.py:171-179 | each vertex of the material's list gets a texture coordinate |
| ExportLists.VertexOwner | export_md3.py:128-137 | a vertex of `indexes[m]` is a corner of some polygon of material m |
| ExportLists.TriangleOf | export_md3.py:151-153 | a polygon of material m appears in `mat_triangles` with its vertices |
| ExportLists.StsFilledAt | export_md3.py:171-179 | an entry that some corner lands on is set |
| ExportLists.BuildRow | export_md3.py:183-192 | the `shapedata` loop puts the key's vertex `indexes[m][p]` at p when the key has it, and leaves `None` otherwise |
| ExportLists.BuildGrid | export_md3.py:181-193 | the `xyzs` loop yields one such row per shape key, in key order |
| Export.ModelHeaderIntsS32 | export_md3.py:45-67 | the nine model-header integers are 32-bit exactly when the counts and offsets are |
| Export.ModelHeaderFields | export_md3.py:39-67 | the model header is 72 + 4·9 = 108 bytes, writable exactly when its integers are 32-bit |
| Export.ModelHeaderBytes | export_md3.py:39-67 | the header's bytes are the prefix followed by the nine integers |
| Export.FramesSize | export_md3.py:100-101 | writable frames take 56 bytes each |
| Export.MaterialLoopsCovered | export_md3.py:172-179 | every triangle of a material has its three UV loops in the layer |
| Export.PatchModelOffset | export_md3.py:71-75 | seeking back to offset slot k and writing the cursor succeeds exactly when the cursor is 32-bit, and replaces only that integer |
| Export.PatchModelSlot | export_md3.py:71-75 | overwriting integer k of a file that starts with the header yields the file with that integer replaced and the same length |
| Export.WriteModelHeader | export_md3.py:39-75 | writes the header with OFS_FRAMES = 108 and the other offsets 0, succeeding exactly when the counts are 32-bit |
| Export.WriteHeaderAndFrames | export_md3.py:39-118 | writes the header, the frames, and OFS_TAGS = OFS_SURFACES = 108 + 56·frames, succeeding exactly when the mesh has shape keys and all of it is writable |
| Export.MakeSurface | export_md3.py:144-205 | fails exactly when the slot is empty or its material has no node tree, when, with more than two nodes, the "Image Texture" node has no image, or when there is no UV layer and the material has a triangle; otherwise builds `SurfaceFor(obj, m)` |
| Export.ExportSurface | export_md3.py:144-207 | appends material m's surface, succeeding exactly when it has a material with a node tree, its UV lookups exist, with more than two nodes its "Image Texture" node (if any) has an image and it has no value node, and `writeWithoutOFS` succeeds |
| Export.SurfaceAppended | export_md3.py:206 | a surface written at the end of the file is appended, `ofsEnd` bytes long |
| Export.WriteSurfaces | export_md3.py:144-207 | the material loop appends one normalized surface per material, succeeding exactly when every surface does |
| Export.Export | export_md3.py:23-213 | `export` succeeds exactly when the object is exportable, and leaves header, frames and surfaces with the backpatched offsets |
| Export.BlockedAt | export_md3.py:144-179 | the material loop cannot get past an empty slot, a material without a node tree, a material whose triangles find no UV layer, or a material with more than two nodes whose "Image Texture" node has no image or which has a value node |
| Export.BlockedStep | export_md3.py:144-207 | a loop that cannot get past the materials from k + 1 on cannot get past those from k on |
| Export.BlockedSteps | export_md3.py:144-207 | the previous step holds for every material |
| Export.MaterialFailureFails | export_md3.py:144-179 | an empty slot, a material without a node tree, a material whose triangles find no UV layer, or a material with more than two nodes whose "Image Texture" node has no image or which has a value node makes the object not exportable |
| Export.NoShapeKeysFails | export_md3.py:47 | a mesh without shape keys is not exportable |
| Export.ExportLength | export_md3.py:209-213 | the end offset stored is the length of the file |
| Export.ExportTail | export_md3.py:209-213 | storing OFS_EOF completes the model file |
| ImportRead.SurfacesReadStep | import_md3.py:96-98 | a round that reads a surface appends it and moves the base by its `OFS_END` |
| ImportRead.SurfacesReadStop | import_md3.py:96-98 | a round that fails ends the surface loop with failure |
| ImportRead.SurfacesReadFailed | import_md3.py:96-98 | once a round has failed, every longer loop has failed |
| ImportRead.ReadModelHeader | import_md3.py:55-76 | reads the model header at the cursor when its 108 bytes are there |
| ImportRead.ReadFrames | import_md3.py:83-86 | the frame loop reads `FramesAt` |
| ImportRead.ReadTags | import_md3.py:88-91 | the tag loop reads `TagsAt` |
| ImportRead.ReadSurfaceStep | import_md3.py:97 | one round is `Surface.read` at the cursor with the current base |
| ImportRead.ReadSurfaces | import_md3.py:94-98 | the surface loop succeeds exactly when every round does, and yields the surfaces read |
| ImportRead.ReadModel | import_md3.py:54-98 | reading a file yields `ModelAt` of its contents |
| ImportMesh.MeshBuffers.constructor | import_md3.py:10-12 | the module-level lists start empty |
| ImportMesh.FirstGap | import_md3.py:104-108 | every entry before the first gap is present, and the gap is `None` |
| ImportMesh.EdgesOfFaces | import_md3.py:110-113 | three edges per face in face order: (a, b), (b, c), (c, a) |
| ImportMesh.EdgesAppend | import_md3.py:110-116 | the edges of two runs of faces are those of each run |
| ImportMesh.ModelDataStep | import_md3.py:102-118 | one more surface appends its part after the earlier ones and adds its `NUM_VERTS` to the offset |
| ImportMesh.ModelDataStops | import_md3.py:102-118 | after a failure nothing more is appended |
| ImportMesh.ModelDataOk | import_md3.py:101-118 | the loop gets through exactly when every surface has a frame-0 row without gaps |
| ImportMesh.ModelDataPrefix | import_md3.py:101-118 | what the first k surfaces append is a prefix of the whole |
| ImportMesh.ModelDataFaceAt | import_md3.py:110-118 | triangle t of surface k becomes the face after those of the earlier surfaces, shifted by their `NUM_VERTS` sum |
| ImportMesh.ModelDataVertAt | import_md3.py:104-108 | entry j of surface k's frame-0 row becomes the vertex after those of the earlier surfaces |
| ImportMesh.OffsetCountsVerts | import_md3.py:101-118 | when the counts agree with the rows, the offset before surface k is the number of vertices appended before it |
| ImportMesh.FaceCornerIsOwnVertex | import_md3.py:104-118 | when the counts agree, a face's corner is the vertex appended for its own surface's entry |
| ImportMesh.ModelDataEdges | import_md3.py:110-116 | the edges appended are those of the faces appended |
| ImportMesh.AppendVerts | import_md3.py:104-108 | appends the positions of the row up to its first gap, and succeeds exactly when there is none |
| ImportMesh.AppendFaces | import_md3.py:110-116 | appends one shifted face and its three edges per triangle |
| ImportMesh.AppendPart | import_md3.py:102-118 | the loop body for one surface appends its part |
| ImportMesh.AppendModelData | import_md3.py:101-118 | the model-data loop appends `ModelData` to the three lists |
| ImportKeys.KeyRowSome | import_md3.py:139-145 | row f can be filled exactly when every surface has row f without gaps |
| ImportKeys.KeyRowPrefix | import_md3.py:139-145 | more surfaces only add to the row |
| ImportKeys.KeyRowStep | import_md3.py:139-145 | surface k extends the row with the positions of its row f |
| ImportKeys.KeyRowZero | import_md3.py:104-108 | row 0 of the grids is what the model-data loop appended to `verts` |
| ImportKeys.KeysUpToFrames | import_md3.py:133-145 | the keys exist exactly when each frame's key does, and key f - 1 is that of frame f |
| ImportKeys.FillRow | import_md3.py:140-145 | one surface's row appends its positions, and fails at a gap or past the mesh's vertex count |
| ImportKeys.FillKey | import_md3.py:137-145 | filling key f succeeds exactly when row f is whole everywhere and fits in the mesh, and yields that row |
| ImportKeys.AddShapeKeys | import_md3.py:130-145 | the shape-key part yields `ShapeKeysOf` |
| ImportKeys.NormalsMatchVerts | import_md3.py:179-185 | the normals are those of the very vertices whose positions were appended, in the same order |
| ImportKeys.CollectNormals | import_md3.py:179-183 | the normals loop yields `NormalsOf` |
| ImportKeys.NormalsStop | import_md3.py:179-183 | a failing surface fails the whole normals loop |
| ImportDress.SurfaceUvsAt | import_md3.py:157-161 | slot 3t + j of a surface's coordinates is corner j of triangle t, and all are there exactly when every corner's lookup succeeds |
| ImportDress.UvsPrefix | import_md3.py:151-161 | the first k surfaces write a prefix of three coordinates per triangle |
| ImportDress.UvAt | import_md3.py:151-161 | UV slot 3(T + t) + j is corner j of triangle t of surface k, with T the triangles before k |
| ImportDress.UvsStop | import_md3.py:151-161 | a failing surface fails the whole UV loop |
| ImportDress.SurfaceUvsStop | import_md3.py:157-161 | a failing triangle fails the surface |
| ImportDress.WriteUvs | import_md3.py:157-161 | the triangle loop appends the surface's coordinates exactly when every lookup succeeds |
| ImportDress.Slots | import_md3.py:153-171 | built surface by surface as the loop runs; materials exist exactly when every surface has exactly one shader, with one material per surface named after it and textured by its shader |
| ImportDress.NumTrianglesSumNatural | import_md3.py:177 | with natural counts, the offsets are natural and grow |
| ImportDress.PaintedFits | import_md3.py:174-177 | with natural counts, painting succeeds exactly when the counts add up to at most the polygons |
| ImportDress.PolygonBefore | import_md3.py:174-177 | triangle t of surface k lands below the offset of any later surface |
| ImportDress.PaintedLayout | import_md3.py:173-177 | every polygon in surface k's range gets index k, and polygons past all ranges keep their index |
| ImportDress.PaintedStop | import_md3.py:173-177 | a failing range fails the whole painting |
| ImportDress.PaintRange | import_md3.py:174-175 | the range loop paints in place, and succeeds exactly when every index, negative ones counting from the end, is a polygon |
| ImportDress.SlotsStep | import_md3.py:165-167 | a surface with one shader adds its material after the earlier ones |
| ImportDress.Dress | import_md3.py:151-177 | the UV and material loop yields `DressOf` and leaves the polygons painted |
| Import.ObjectNameOfExport | import_md3.py:122 | the object name an import gives to an exported model is the exported object's name up to its last dot, when that and ".md3" fit in 64 bytes |
| Import.Build | import_md3.py:101-185 | everything after reading yields `BlenderObjectOf` and appends exactly `ModelData` to the lists |
| Import.Import | import_md3.py:54-185 | `main` yields `ImportOf` of the contents; the lists are unchanged when the model cannot be read, and otherwise gain exactly `ModelData` |
| Import.FacesPerTriangle | import_md3.py:110-116 | each surface gives one face per triangle read |
| Import.BuiltNormals | import_md3.py:179-185 | the custom normals of a successful import are the packed normals of the frame-0 vertices appended, one per vertex |
| Import.BuiltKeys | import_md3.py:130-145 | a successful import has a basis key named after frame 0, and for each later frame a key with its name holding its vertex row |
| Import.BuiltDressing | import_md3.py:149-177 | a successful import has three UVs per face appended, one material per surface, and one material index per polygon |

## Left out

- Floating point is opaque. A float is modelled as the 4 bytes `struct.pack('f')` produces, assuming a little-endian host. This leaves out:
  - the 1 - t flip of texture coordinates;
  - the `MD3_XYZ_SCALE` factor;
  - the trigonometry that packs and unpacks normals;
  - the bounding box, centre, radius and `floor` of `export`'s frames.

  `Export.Frames` takes each shape key's frame as given.
- The `None` defaults are fixed constants: `TexCoord([0.0, 0.0])` and `Vertex(0, 0, 0, [0.0, 0.0, 0.0])` have their packed bytes written out.
- UTF-8 encoding of names is left out: names are byte strings.
- Primitives.ReadMax: the closing `decode("utf-8")` is not modelled. The source raises `UnicodeDecodeError` on a name that is not valid UTF-8, including one that `writemax` cut inside a multibyte character; the model returns the bytes. Every reader of a name inherits this: `ImportRead.ReadModel` and `ImportRead.ModelAt`, `SurfaceReader.Read`, and the Shader, Frame and Tag readers with `Records.ShaderRoundTrip`, `Records.FrameRoundTrip` and `Records.TagRoundTrip`.
- The Blender API is described only by what the importer passes to it: `bpy.data`, `from_pydata` validation, `create_alpha_material` and `normals_split_custom_set_from_vertices`. A shader's missing `VALUE` attribute is modelled as the failure it raises.
- File opening, `dirname`/`join` of the texture path, and `print` are left out. `Streams.Stream.Open` takes the file's contents as a parameter.
- `__init__.py` (operator registration and menus) is not part of this model.
- Surfaces.Write: on failure, the bytes left in the file are not described.
- Surfaces.WriteWithoutOfs: on failure, the partially written surface is not described. Only the failure condition is stated.
- Export.Export: on failure, the partially written file is not described. Only the failure condition is stated.
- ImportDress.Dress: on failure, the material indices left in the polygons are not described.
- Primitives.WriteAll and Primitives.WriteRows: on failure, the records written before the failing one are not described.
- ImportRead.ReadModelHeader: on failure, the cursor is not described. The import stops there.
- Import.Import: when reading succeeds but building fails, the Blender object created by then is not described. Only the lists are.

## Findings

| source | as written | input that shows it | evidently intended | confidence | as-written member | corrected member |
|---|---|---|---|---|---|---|
| Utilities.py:177-179 | `Tag.read` passes name, origin and axes, in file order, to `Tag(origin, axis_rotation, name)`, so NAME holds the three axes, ORIGIN the name and AXIS_ROTATION the origin | any 112 bytes read as a tag; writing that tag back raises `AttributeError` at `self.NAME.encode` (Utilities.py:182), since NAME is a list | NAME is the name, ORIGIN the origin and AXIS_ROTATION the three axes, so that a tag read back writes out again with its name padded | not executed | Records.ReadTagAsWritten, Records.TagReadNotWritable | Records.ReadTag, Records.TagRoundTrip, Records.IntendedTagRoundTrip |

The importer reads the tags (import_md3.py:88-91) and never uses them, so the import behaves the same under either reading. `ImportRead.TagsAt` and `ImportRead.ReadTags` use the corrected, file-order `Tag`.
