/**
  The primitive codec of Utilities.py: little-endian signed 16- and 32-bit
  integers, 32-bit floats kept as opaque 4-byte payloads, and the fixed-width
  name field. Every record of the format is written as a list of such fields;
  `Emit` gives the bytes such a list produces, stopping at the first field
  that raises (an integer outside its width, or a missing entry).
*/
module Primitives {
  import opened Bytes
  import opened Wrappers
  import opened Streams

  /** Width of every name field except the 16-byte frame name. */
  const MAX_QPATH: nat := 64

  predicate IsS32(x: int) { -0x8000_0000 <= x < 0x8000_0000 }

  predicate IsS16(x: int) { -0x8000 <= x < 0x8000 }

  /** `struct.pack('<i', x)` for a value it accepts. */
  function EncodeS32(x: int): (r: seq<byte>)
    requires IsS32(x)
    ensures |r| == 4
  {
    LittleEndian(if x < 0 then x + 0x1_0000_0000 else x, 4)
  }

  /** `struct.unpack('<i', b)`. */
  function DecodeS32(b: seq<byte>): (x: int)
    requires |b| == 4
    ensures IsS32(x)
  {
    var u := FromLittleEndian(b);
    assert u < Pow256(4) == 0x1_0000_0000;
    if u < 0x8000_0000 then u else u - 0x1_0000_0000
  }

  /** `struct.pack('<h', x)` for a value it accepts. */
  function EncodeS16(x: int): (r: seq<byte>)
    requires IsS16(x)
    ensures |r| == 2
  {
    LittleEndian(if x < 0 then x + 0x1_0000 else x, 2)
  }

  /** `struct.unpack('<h', b)`. */
  function DecodeS16(b: seq<byte>): (x: int)
    requires |b| == 2
    ensures IsS16(x)
  {
    var u := FromLittleEndian(b);
    assert u < Pow256(2) == 0x1_0000;
    if u < 0x8000 then u else u - 0x1_0000
  }

  lemma {:induction false} S32RoundTrip(x: int)
    requires IsS32(x)
    ensures DecodeS32(EncodeS32(x)) == x
  {
    assert Pow256(4) == 0x1_0000_0000;
    LittleEndianRoundTrip(if x < 0 then x + 0x1_0000_0000 else x, 4);
  }

  /** Every 4-byte string is the encoding of the value it decodes to. */
  lemma {:induction false} S32Canonical(b: seq<byte>)
    requires |b| == 4
    ensures EncodeS32(DecodeS32(b)) == b
  {
    FromLittleEndianRoundTrip(b);
  }

  lemma {:induction false} S16RoundTrip(x: int)
    requires IsS16(x)
    ensures DecodeS16(EncodeS16(x)) == x
  {
    assert Pow256(2) == 0x1_0000;
    LittleEndianRoundTrip(if x < 0 then x + 0x1_0000 else x, 2);
  }

  lemma {:induction false} S16Canonical(b: seq<byte>)
    requires |b| == 2
    ensures EncodeS16(DecodeS16(b)) == b
  {
    FromLittleEndianRoundTrip(b);
  }

  /** A 32-bit float as the four bytes `struct.pack('f', x)` produces. */
  datatype F32 = F32(b0: byte, b1: byte, b2: byte, b3: byte) {
    function Bytes(): (r: seq<byte>)
      ensures |r| == 4
    {
      [b0, b1, b2, b3]
    }
  }

  function DecodeF32(b: seq<byte>): (x: F32)
    requires |b| == 4
    ensures x.Bytes() == b
  {
    F32(b[0], b[1], b[2], b[3])
  }

  /** The `n` bytes `writemax(f, s, n)` produces: the first `min(|s|, n)`
      bytes of `s`, then zero bytes. */
  function PadName(s: seq<byte>, n: nat): (r: seq<byte>)
    ensures |r| == n
    ensures forall i :: 0 <= i < n ==> r[i] == if i < |s| then s[i] else 0
  {
    if |s| >= n then s[..n] else s + Zeros(n - |s|)
  }

  /** A name at least as long as its field is cut to the field, with no terminator. */
  lemma {:induction false} PadNameTruncates(s: seq<byte>, n: nat)
    requires |s| >= n
    ensures PadName(s, n) == s[..n]
  {
  }

  /** One field of a record as the writer emits it. `Missing` stands for a
      list entry that is `None`: calling `write` on it raises. */
  datatype Field =
    | I16(i: int)
    | I32(i: int)
    | Name(s: seq<byte>, width: nat)
    | Float(x: F32)
    | Missing

  /** The field is written without raising `struct.error` or `AttributeError`. */
  predicate Writable(x: Field)
  {
    match x
    case I16(v) => IsS16(v)
    case I32(v) => IsS32(v)
    case Name(_, _) => true
    case Float(_) => true
    case Missing => false
  }

  function Width(x: Field): nat
  {
    match x
    case I16(_) => 2
    case I32(_) => 4
    case Name(_, n) => n
    case Float(_) => 4
    case Missing => 0
  }

  function FieldBytes(x: Field): (r: seq<byte>)
    requires Writable(x)
    ensures |r| == Width(x)
  {
    match x
    case I16(v) => EncodeS16(v)
    case I32(v) => EncodeS32(v)
    case Name(s, n) => PadName(s, n)
    case Float(v) => v.Bytes()
  }

  predicate AllWritable(fs: seq<Field>)
  {
    fs == [] || (Writable(fs[0]) && AllWritable(fs[1..]))
  }

  function TotalWidth(fs: seq<Field>): nat
  {
    if fs == [] then 0 else Width(fs[0]) + TotalWidth(fs[1..])
  }

  /** The bytes writing `fs` leaves behind: those of every field up to the
      first one that raises. */
  function Emit(fs: seq<Field>): (r: seq<byte>)
    ensures |r| <= TotalWidth(fs)
    ensures AllWritable(fs) ==> |r| == TotalWidth(fs)
  {
    if fs == [] || !Writable(fs[0]) then [] else FieldBytes(fs[0]) + Emit(fs[1..])
  }

  lemma {:induction false} AllWritableAppend(a: seq<Field>, b: seq<Field>)
    ensures AllWritable(a + b) <==> AllWritable(a) && AllWritable(b)
  {
    if a == [] {
      assert a + b == b;
    } else {
      assert (a + b)[0] == a[0];
      assert (a + b)[1..] == a[1..] + b;
      AllWritableAppend(a[1..], b);
    }
  }

  /** Writing a list that is written in full, and then another. */
  lemma {:induction false} EmitAppend(a: seq<Field>, b: seq<Field>)
    requires AllWritable(a)
    ensures Emit(a + b) == Emit(a) + Emit(b)
  {
    if a == [] {
      assert a + b == b;
    } else {
      assert (a + b)[0] == a[0];
      assert (a + b)[1..] == a[1..] + b;
      EmitAppend(a[1..], b);
    }
  }

  lemma {:induction false} TotalWidthAppend(a: seq<Field>, b: seq<Field>)
    ensures TotalWidth(a + b) == TotalWidth(a) + TotalWidth(b)
  {
    if a == [] {
      assert a + b == b;
    } else {
      assert (a + b)[1..] == a[1..] + b;
      TotalWidthAppend(a[1..], b);
    }
  }

  /** A single field writes its bytes, or nothing when it raises. */
  lemma {:induction false} EmitSingle(x: Field)
    ensures TotalWidth([x]) == Width(x)
    ensures AllWritable([x]) == Writable(x)
    ensures Emit([x]) == if Writable(x) then FieldBytes(x) else []
  {
    assert [x][1..] == [];
    assert [x][0] == x;
    if Writable(x) {
      assert FieldBytes(x) + [] == FieldBytes(x);
    }
  }

  /** A field in front of a list. */
  lemma {:induction false} FieldsCons(x: Field, fs: seq<Field>)
    ensures TotalWidth([x] + fs) == Width(x) + TotalWidth(fs)
    ensures AllWritable([x] + fs) == (Writable(x) && AllWritable(fs))
    ensures AllWritable([x] + fs) ==> Emit([x] + fs) == FieldBytes(x) + Emit(fs)
  {
    assert ([x] + fs)[0] == x;
    assert ([x] + fs)[1..] == fs;
  }

  /** Field lists of two, three and four fields, spelled out. */
  lemma {:induction false} Fields2(a: Field, b: Field)
    ensures TotalWidth([a, b]) == Width(a) + Width(b)
    ensures AllWritable([a, b]) == (Writable(a) && Writable(b))
    ensures AllWritable([a, b]) ==> Emit([a, b]) == FieldBytes(a) + FieldBytes(b)
  {
    assert [a, b][1..] == [b];
    EmitSingle(b);
  }

  lemma {:induction false} Fields3(a: Field, b: Field, c: Field)
    ensures TotalWidth([a, b, c]) == Width(a) + Width(b) + Width(c)
    ensures AllWritable([a, b, c]) == (Writable(a) && Writable(b) && Writable(c))
    ensures AllWritable([a, b, c]) ==> Emit([a, b, c]) == FieldBytes(a) + FieldBytes(b) + FieldBytes(c)
  {
    assert [a, b, c] == [a] + [b, c];
    FieldsCons(a, [b, c]);
    Fields2(b, c);
  }

  lemma {:induction false} Fields4(a: Field, b: Field, c: Field, e: Field)
    ensures TotalWidth([a, b, c, e]) == Width(a) + Width(b) + Width(c) + Width(e)
    ensures AllWritable([a, b, c, e]) == (Writable(a) && Writable(b) && Writable(c) && Writable(e))
    ensures AllWritable([a, b, c, e]) ==>
      Emit([a, b, c, e]) == FieldBytes(a) + FieldBytes(b) + FieldBytes(c) + FieldBytes(e)
  {
    assert [a, b, c, e] == [a, b] + [c, e];
    Fields2(a, b);
    Fields2(c, e);
    TotalWidthAppend([a, b], [c, e]);
    AllWritableAppend([a, b], [c, e]);
    if AllWritable([a, b, c, e]) {
      EmitAppend([a, b], [c, e]);
      var x, y, z, u := FieldBytes(a), FieldBytes(b), FieldBytes(c), FieldBytes(e);
      assert (x + y) + (z + u) == x + y + z + u;
    }
  }

  method ReadS16(f: Stream) returns (r: Option<int>)
    modifies f`pos
    ensures r.Some? <==> old(f.pos) + 2 <= |f.data|
    ensures r.Some? ==> r.value == DecodeS16(f.data[old(f.pos)..old(f.pos) + 2])
    ensures f.pos == old(f.pos) + |Window(f.data, old(f.pos), 2)|
    ensures r.Some? ==> f.pos == old(f.pos) + 2
  {
    var b := f.Read(2);
    r := if |b| == 2 then Some(DecodeS16(b)) else None;
  }

  method ReadS32(f: Stream) returns (r: Option<int>)
    modifies f`pos
    ensures r.Some? <==> old(f.pos) + 4 <= |f.data|
    ensures r.Some? ==> r.value == DecodeS32(f.data[old(f.pos)..old(f.pos) + 4])
    ensures f.pos == old(f.pos) + |Window(f.data, old(f.pos), 4)|
    ensures r.Some? ==> f.pos == old(f.pos) + 4
  {
    var b := f.Read(4);
    r := if |b| == 4 then Some(DecodeS32(b)) else None;
  }

  method ReadF32(f: Stream) returns (r: Option<F32>)
    modifies f`pos
    ensures r.Some? <==> old(f.pos) + 4 <= |f.data|
    ensures r.Some? ==> r.value.Bytes() == f.data[old(f.pos)..old(f.pos) + 4]
    ensures f.pos == old(f.pos) + |Window(f.data, old(f.pos), 4)|
    ensures r.Some? ==> f.pos == old(f.pos) + 4
  {
    var b := f.Read(4);
    r := if |b| == 4 then Some(DecodeF32(b)) else None;
  }

  /** `readmax(f, n)`: `n` one-byte reads. The filter in the source compares a
      byte string with a text string, is therefore always true, and keeps
      zero bytes; a read at the end of the file adds nothing. The closing
      `decode("utf-8")` is not modelled: the result stays a byte string. */
  method ReadMax(f: Stream, n: nat) returns (s: seq<byte>)
    modifies f`pos
    ensures s == Window(f.data, old(f.pos), n)
    ensures f.pos == old(f.pos) + |s|
  {
    s := [];
    var i := 0;
    while i < n
      invariant 0 <= i <= n
      invariant s == Window(f.data, old(f.pos), i)
      invariant f.pos == old(f.pos) + |s|
    {
      WindowStep(f.data, old(f.pos), i);
      var tmp := f.Read(1);
      s := s + tmp;
      i := i + 1;
    }
  }

  /** `struct.pack('<i', x)` written to the file; raises unless `x` fits. */
  method WriteS32(f: Stream, x: int) returns (ok: bool)
    modifies f
    ensures ok == IsS32(x)
    ensures ok ==> f.data == Overwrite(old(f.data), old(f.pos), EncodeS32(x)) && f.pos == old(f.pos) + 4
    ensures !ok ==> f.data == old(f.data) && f.pos == old(f.pos)
  {
    ok := IsS32(x);
    if ok {
      f.Write(EncodeS32(x));
    }
  }

  method WriteS16(f: Stream, x: int) returns (ok: bool)
    modifies f
    ensures ok == IsS16(x)
    ensures ok ==> f.data == Overwrite(old(f.data), old(f.pos), EncodeS16(x)) && f.pos == old(f.pos) + 2
    ensures !ok ==> f.data == old(f.data) && f.pos == old(f.pos)
  {
    ok := IsS16(x);
    if ok {
      f.Write(EncodeS16(x));
    }
  }

  method WriteF32(f: Stream, x: F32)
    modifies f
    ensures f.data == Overwrite(old(f.data), old(f.pos), x.Bytes())
    ensures f.pos == old(f.pos) + 4
  {
    f.Write(x.Bytes());
  }

  /** What `writemax` has written after `i` of its `n` one-byte writes. */
  lemma {:induction false} PadNameStep(s: seq<byte>, n: nat, i: nat)
    requires i < n
    ensures PadName(s, n)[..i + 1] == PadName(s, n)[..i] + [if i < |s| then s[i] else 0]
  {
    var pad := PadName(s, n);
    assert pad[..i + 1] == pad[..i] + [pad[i]];
  }

  /** One pass of the `writemax` loop: the next byte of the name, or a zero byte. */
  method WriteNameByte(f: Stream, s: seq<byte>, n: nat, i: nat, ghost d: seq<byte>, ghost p: nat)
    requires i < n
    requires f.data == Overwrite(d, p, PadName(s, n)[..i]) && f.pos == p + i
    modifies f
    ensures f.data == Overwrite(d, p, PadName(s, n)[..i + 1]) && f.pos == p + i + 1
  {
    var b: byte := if i < |s| then s[i] else 0;
    PadNameStep(s, n, i);
    OverwriteSequential(d, p, PadName(s, n)[..i], [b]);
    f.Write([b]);
  }

  /** `writemax(f, s, n)`: `n` one-byte writes, taking the next byte of `s`
      while one is left and a zero byte after that. */
  method WriteMax(f: Stream, s: seq<byte>, n: nat)
    modifies f
    ensures f.data == Overwrite(old(f.data), old(f.pos), PadName(s, n))
    ensures f.pos == old(f.pos) + n
  {
    var i := 0;
    while i < n
      invariant 0 <= i <= n
      invariant f.data == Overwrite(old(f.data), old(f.pos), PadName(s, n)[..i])
      invariant f.pos == old(f.pos) + i
    {
      WriteNameByte(f, s, n, i, old(f.data), old(f.pos));
      i := i + 1;
    }
    assert PadName(s, n)[..n] == PadName(s, n);
  }

  /** Writes one field; when it raises (returns false) nothing is written. */
  method WriteField(f: Stream, x: Field) returns (ok: bool)
    modifies f
    ensures ok == Writable(x)
    ensures f.data == Overwrite(old(f.data), old(f.pos), Emit([x]))
    ensures f.pos == old(f.pos) + |Emit([x])|
  {
    EmitSingle(x);
    match x
    case I16(v) => ok := WriteS16(f, v);
    case I32(v) => ok := WriteS32(f, v);
    case Name(s, n) => WriteMax(f, s, n); ok := true;
    case Float(v) => WriteF32(f, v); ok := true;
    case Missing => ok := false;
  }

  /** Writes the fields of a record one after the other and stops at the
      first one that raises; the file then holds what was written before it. */
  method WriteFields(f: Stream, fs: seq<Field>) returns (ok: bool)
    modifies f
    decreases |fs|
    ensures ok == AllWritable(fs)
    ensures f.data == Overwrite(old(f.data), old(f.pos), Emit(fs))
    ensures f.pos == old(f.pos) + |Emit(fs)|
  {
    if fs == [] {
      return true;
    }
    ok := WriteField(f, fs[0]);
    EmitSingle(fs[0]);
    if !ok {
      return;
    }
    ok := WriteFields(f, fs[1..]);
    OverwriteSequential(old(f.data), old(f.pos), FieldBytes(fs[0]), Emit(fs[1..]));
  }

  /** A run of 32-bit integer fields. */
  function Int32Fields(xs: seq<int>): (fs: seq<Field>)
    ensures |fs| == |xs|
    ensures forall i :: 0 <= i < |xs| ==> fs[i] == I32(xs[i])
  {
    seq(|xs|, i requires 0 <= i < |xs| => I32(xs[i]))
  }

  predicate AllS32(xs: seq<int>)
  {
    forall i :: 0 <= i < |xs| ==> IsS32(xs[i])
  }

  /** Their encoding: four little-endian bytes each, back to back. */
  function Int32Bytes(xs: seq<int>): (r: seq<byte>)
    requires AllS32(xs)
    ensures |r| == 4 * |xs|
  {
    if xs == [] then [] else EncodeS32(xs[0]) + Int32Bytes(xs[1..])
  }

  lemma {:induction false} Int32Emit(xs: seq<int>)
    ensures TotalWidth(Int32Fields(xs)) == 4 * |xs|
    ensures AllWritable(Int32Fields(xs)) <==> AllS32(xs)
    ensures AllS32(xs) ==> Emit(Int32Fields(xs)) == Int32Bytes(xs)
  {
    var fs := Int32Fields(xs);
    if xs != [] {
      assert fs[1..] == Int32Fields(xs[1..]);
      assert AllS32(xs) <==> IsS32(xs[0]) && AllS32(xs[1..]) by {
        if IsS32(xs[0]) && AllS32(xs[1..]) {
          assert forall i :: 1 <= i < |xs| ==> xs[i] == xs[1..][i - 1];
        }
      }
      Int32Emit(xs[1..]);
    }
  }

  /** The `k`-th integer sits at bytes `4k .. 4k + 4`. */
  lemma {:induction false} Int32BytesAt(xs: seq<int>, k: nat)
    requires k < |xs| && AllS32(xs)
    ensures Int32Bytes(xs)[4 * k..4 * k + 4] == EncodeS32(xs[k])
  {
    if k > 0 {
      Int32BytesAt(xs[1..], k - 1);
      var r := Int32Bytes(xs[1..]);
      assert Int32Bytes(xs)[4 * k..4 * k + 4] == r[4 * (k - 1)..4 * (k - 1) + 4];
    }
  }

  /** Replacing the `k`-th integer changes only its four bytes. */
  lemma {:induction false} Int32BytesPatch(xs: seq<int>, k: nat, x: int)
    requires k < |xs| && AllS32(xs) && IsS32(x)
    ensures AllS32(xs[k := x])
    ensures Int32Bytes(xs[k := x]) == Int32Bytes(xs)[..4 * k] + EncodeS32(x) + Int32Bytes(xs)[4 * k + 4..]
  {
    var b := Int32Bytes(xs);
    if k == 0 {
      assert xs[k := x][1..] == xs[1..];
      assert b[4..] == Int32Bytes(xs[1..]);
    } else {
      assert xs[k := x][1..] == xs[1..][k - 1 := x];
      Int32BytesPatch(xs[1..], k - 1, x);
      var r := Int32Bytes(xs[1..]);
      assert b[..4 * k] == EncodeS32(xs[0]) + r[..4 * (k - 1)];
      assert b[4 * k + 4..] == r[4 * (k - 1) + 4..];
    }
  }

  /** Seeking back into a run of integers written after `pre` (and before
      `post`) and overwriting the `k`-th one is writing the patched run. */
  lemma {:induction false} PatchInt32(d: seq<byte>, p: nat, pre: seq<byte>, xs: seq<int>, post: seq<byte>, k: nat, x: int)
    requires k < |xs| && AllS32(xs) && IsS32(x)
    ensures AllS32(xs[k := x])
    ensures Overwrite(Overwrite(d, p, pre + Int32Bytes(xs) + post), p + |pre| + 4 * k, EncodeS32(x))
         == Overwrite(d, p, pre + Int32Bytes(xs[k := x]) + post)
  {
    var b := Int32Bytes(xs);
    var c := EncodeS32(x);
    Int32BytesPatch(xs, k, x);
    Splice(pre, b, post, 4 * k, c);
    OverwritePatch(d, p, pre + b + post, |pre| + 4 * k, c);
  }

  /** Replacing bytes inside the middle part of `pre + b + post`. */
  lemma {:induction false} Splice(pre: seq<byte>, b: seq<byte>, post: seq<byte>, k: nat, c: seq<byte>)
    requires k + |c| <= |b|
    ensures (pre + b + post)[..|pre| + k] + c + (pre + b + post)[|pre| + k + |c|..]
         == pre + (b[..k] + c + b[k + |c|..]) + post
  {
    var a := pre + b + post;
    assert a[..|pre| + k] == pre + b[..k];
    assert a[|pre| + k + |c|..] == b[k + |c|..] + post;
  }

  lemma {:induction false} SliceOfAppend<T>(x: seq<T>, y: seq<T>, a: nat, b: nat)
    requires a <= b <= |x|
    ensures (x + y)[a..b] == x[a..b]
  {
  }

  lemma {:induction false} SliceOfAppendRight<T>(x: seq<T>, y: seq<T>, a: nat, b: nat)
    requires a == |x| && b == |x| + |y|
    ensures (x + y)[a..b] == y
  {
  }

  /** The first `n` records of the list are written without raising. */
  predicate RecordsWritable(rs: seq<seq<Field>>, n: nat)
    requires n <= |rs|
  {
    n == 0 || (RecordsWritable(rs, n - 1) && AllWritable(rs[n - 1]))
  }

  lemma {:induction false} RecordsWritableAt(rs: seq<seq<Field>>, n: nat, i: nat)
    requires i < n <= |rs|
    ensures RecordsWritable(rs, n) ==> AllWritable(rs[i])
  {
    if i < n - 1 {
      RecordsWritableAt(rs, n - 1, i);
    }
  }

  /** Every record of the list that can be written takes `w` bytes. */
  predicate Uniform(rs: seq<seq<Field>>, w: nat)
  {
    forall i :: 0 <= i < |rs| && AllWritable(rs[i]) ==> TotalWidth(rs[i]) == w
  }

  lemma {:induction false} RecordsWritableAll(rs: seq<seq<Field>>, n: nat)
    requires n <= |rs|
    ensures RecordsWritable(rs, n) <==> forall i :: 0 <= i < n ==> AllWritable(rs[i])
  {
    if n > 0 {
      RecordsWritableAll(rs, n - 1);
    }
  }

  /** The bytes of the first `n` records, one after the other. */
  function EmitRecords(rs: seq<seq<Field>>, n: nat): seq<byte>
    requires n <= |rs|
  {
    if n == 0 then [] else EmitRecords(rs, n - 1) + Emit(rs[n - 1])
  }

  /** `w * n`, spelled out as repeated addition so that the proofs about
      record offsets stay linear. */
  function Times(w: nat, n: nat): nat
  {
    if n == 0 then 0 else Times(w, n - 1) + w
  }

  lemma {:induction false} TimesProduct(w: nat, n: nat)
    ensures Times(w, n) == w * n
  {
    if n > 0 {
      TimesProduct(w, n - 1);
    }
  }

  lemma {:induction false} TimesMono(w: nat, a: nat, b: nat)
    requires a <= b
    ensures Times(w, a) <= Times(w, b)
    decreases b
  {
    if a < b {
      TimesMono(w, a, b - 1);
    }
  }

  /** Records that all take `w` bytes take `w` bytes each in the list. */
  lemma {:induction false} EmitRecordsLength(rs: seq<seq<Field>>, n: nat, w: nat)
    requires n <= |rs| && RecordsWritable(rs, n)
    requires Uniform(rs, w)
    ensures |EmitRecords(rs, n)| == Times(w, n)
  {
    if n > 0 {
      EmitRecordsLength(rs, n - 1, w);
    }
  }

  /** Record `k` sits at the end of the first `k + 1` records. */
  lemma {:induction false} EmitRecordsLast(rs: seq<seq<Field>>, w: nat, k: nat)
    requires k < |rs| && RecordsWritable(rs, k + 1)
    requires Uniform(rs, w)
    ensures Times(w, k) + w <= |EmitRecords(rs, k + 1)|
    ensures EmitRecords(rs, k + 1)[Times(w, k)..Times(w, k) + w] == Emit(rs[k])
  {
    var front, last := EmitRecords(rs, k), Emit(rs[k]);
    assert EmitRecords(rs, k + 1) == front + last;
    assert RecordsWritable(rs, k) && |last| == w;
    EmitRecordsLength(rs, k, w);
    SliceOfAppendRight(front, last, Times(w, k), Times(w, k) + w);
  }

  /** Appending a record leaves the bytes of the earlier ones in place. */
  lemma {:induction false} EmitRecordsFront(rs: seq<seq<Field>>, n: nat, a: nat, b: nat, e: seq<byte>)
    requires 0 < n <= |rs|
    requires a <= b <= |EmitRecords(rs, n - 1)| && EmitRecords(rs, n - 1)[a..b] == e
    ensures b <= |EmitRecords(rs, n)|
    ensures EmitRecords(rs, n)[a..b] == e
  {
    SliceOfAppend(EmitRecords(rs, n - 1), Emit(rs[n - 1]), a, b);
  }

  /** The `k`-th record sits at bytes `w*k .. w*k + w`. */
  lemma {:induction false} EmitRecordsAt(rs: seq<seq<Field>>, n: nat, w: nat, k: nat)
    requires k < n <= |rs| && RecordsWritable(rs, n)
    requires Uniform(rs, w)
    ensures Times(w, k) + w <= |EmitRecords(rs, n)|
    ensures EmitRecords(rs, n)[Times(w, k)..Times(w, k) + w] == Emit(rs[k])
  {
    if n == k + 1 {
      EmitRecordsLast(rs, w, k);
    } else {
      assert RecordsWritable(rs, n - 1);
      EmitRecordsAt(rs, n - 1, w, k);
      EmitRecordsFront(rs, n, Times(w, k), Times(w, k) + w, Emit(rs[k]));
    }
  }

  /** Writes record `i` after the ones before it, which are already in the file. */
  method WriteRecord(f: Stream, rs: seq<seq<Field>>, i: nat, ghost d: seq<byte>, ghost p: nat) returns (ok: bool)
    requires i < |rs|
    requires f.data == Overwrite(d, p, EmitRecords(rs, i)) && f.pos == p + |EmitRecords(rs, i)|
    modifies f
    ensures ok == AllWritable(rs[i])
    ensures ok ==> f.data == Overwrite(d, p, EmitRecords(rs, i + 1)) && f.pos == p + |EmitRecords(rs, i + 1)|
  {
    ok := WriteFields(f, rs[i]);
    assert EmitRecords(rs, i + 1) == EmitRecords(rs, i) + Emit(rs[i]);
    OverwriteSequential(d, p, EmitRecords(rs, i), Emit(rs[i]));
  }

  /** `for x in xs: x.write(f)`, where `rs[i]` are the fields of the `i`-th record. */
  method WriteAll(f: Stream, rs: seq<seq<Field>>) returns (ok: bool)
    modifies f
    ensures ok == RecordsWritable(rs, |rs|)
    ensures ok ==> (f.data == Overwrite(old(f.data), old(f.pos), EmitRecords(rs, |rs|))
                    && f.pos == old(f.pos) + |EmitRecords(rs, |rs|)|)
  {
    var i := 0;
    while i < |rs|
      invariant 0 <= i <= |rs|
      invariant RecordsWritable(rs, i)
      invariant f.data == Overwrite(old(f.data), old(f.pos), EmitRecords(rs, i))
      invariant f.pos == old(f.pos) + |EmitRecords(rs, i)|
    {
      ok := WriteRecord(f, rs, i, old(f.data), old(f.pos));
      if !ok {
        RecordsWritableAt(rs, |rs|, i);
        return;
      }
      i := i + 1;
    }
    ok := true;
  }

  /** `WriteAll` after the bytes `pre` already written from `p`. */
  method WriteAllAfter(f: Stream, rs: seq<seq<Field>>, ghost d: seq<byte>, ghost p: nat, ghost pre: seq<byte>) returns (ok: bool)
    requires f.data == Overwrite(d, p, pre) && f.pos == p + |pre|
    modifies f
    ensures ok == RecordsWritable(rs, |rs|)
    ensures ok ==> (f.data == Overwrite(d, p, pre + EmitRecords(rs, |rs|))
                    && f.pos == p + |pre| + |EmitRecords(rs, |rs|)|)
  {
    ok := WriteAll(f, rs);
    if ok {
      OverwriteSequential(d, p, pre, EmitRecords(rs, |rs|));
    }
  }

  /** The first `n` rows are written without raising. */
  predicate RowsWritable(rows: seq<seq<seq<Field>>>, n: nat)
    requires n <= |rows|
  {
    n == 0 || (RowsWritable(rows, n - 1) && RecordsWritable(rows[n - 1], |rows[n - 1]|))
  }

  lemma {:induction false} RowsWritableAt(rows: seq<seq<seq<Field>>>, n: nat, i: nat)
    requires i < n <= |rows|
    ensures RowsWritable(rows, n) ==> RecordsWritable(rows[i], |rows[i]|)
  {
    if i < n - 1 {
      RowsWritableAt(rows, n - 1, i);
    }
  }

  /** The bytes of the first `n` rows of records, row after row. */
  function EmitRows(rows: seq<seq<seq<Field>>>, n: nat): seq<byte>
    requires n <= |rows|
  {
    if n == 0 then [] else EmitRows(rows, n - 1) + EmitRecords(rows[n - 1], |rows[n - 1]|)
  }

  predicate UniformRows(rows: seq<seq<seq<Field>>>, w: nat)
  {
    forall i :: 0 <= i < |rows| ==> Uniform(rows[i], w)
  }

  /** The number of cells in the first `n` rows. */
  function Cells<T>(rows: seq<seq<T>>, n: nat): nat
    requires n <= |rows|
  {
    if n == 0 then 0 else Cells(rows, n - 1) + |rows[n - 1]|
  }

  lemma {:induction false} CellsMono<T>(rows: seq<seq<T>>, a: nat, b: nat)
    requires a <= b <= |rows|
    ensures Cells(rows, a) <= Cells(rows, b)
    decreases b
  {
    if a < b {
      CellsMono(rows, a, b - 1);
    }
  }

  lemma {:induction false} TimesAdd(w: nat, a: nat, b: nat)
    ensures Times(w, a + b) == Times(w, a) + Times(w, b)
    decreases b
  {
    if b > 0 {
      TimesAdd(w, a, b - 1);
    }
  }

  /** Rows of records of `w` bytes take `w` bytes per cell. */
  lemma {:induction false} EmitRowsLength(rows: seq<seq<seq<Field>>>, n: nat, w: nat)
    requires n <= |rows| && RowsWritable(rows, n)
    requires UniformRows(rows, w)
    ensures |EmitRows(rows, n)| == Times(w, Cells(rows, n))
  {
    if n > 0 {
      var row := rows[n - 1];
      assert EmitRows(rows, n) == EmitRows(rows, n - 1) + EmitRecords(row, |row|);
      assert Cells(rows, n) == Cells(rows, n - 1) + |row|;
      assert RowsWritable(rows, n - 1) && RecordsWritable(row, |row|);
      assert Uniform(row, w);
      EmitRowsLength(rows, n - 1, w);
      EmitRecordsLength(row, |row|, w);
      TimesAdd(w, Cells(rows, n - 1), |row|);
    }
  }

  /** Row `r` sits at the end of the first `r + 1` rows. */
  lemma {:induction false} EmitRowsLast(rows: seq<seq<seq<Field>>>, w: nat, r: nat)
    requires r < |rows| && RowsWritable(rows, r + 1)
    requires UniformRows(rows, w)
    ensures Times(w, Cells(rows, r)) + |EmitRecords(rows[r], |rows[r]|)| == |EmitRows(rows, r + 1)|
    ensures EmitRows(rows, r + 1)[Times(w, Cells(rows, r))..Times(w, Cells(rows, r)) + |EmitRecords(rows[r], |rows[r]|)|]
         == EmitRecords(rows[r], |rows[r]|)
  {
    var front, last := EmitRows(rows, r), EmitRecords(rows[r], |rows[r]|);
    assert EmitRows(rows, r + 1) == front + last;
    assert RowsWritable(rows, r);
    EmitRowsLength(rows, r, w);
    SliceOfAppendRight(front, last, Times(w, Cells(rows, r)), |front + last|);
  }

  /** Appending a row leaves the bytes of the earlier ones in place. */
  lemma {:induction false} EmitRowsFront(rows: seq<seq<seq<Field>>>, n: nat, a: nat, b: nat, e: seq<byte>)
    requires 0 < n <= |rows|
    requires a <= b <= |EmitRows(rows, n - 1)| && EmitRows(rows, n - 1)[a..b] == e
    ensures b <= |EmitRows(rows, n)|
    ensures EmitRows(rows, n)[a..b] == e
  {
    SliceOfAppend(EmitRows(rows, n - 1), EmitRecords(rows[n - 1], |rows[n - 1]|), a, b);
  }

  /** Row `r` sits after the cells of the rows before it. */
  lemma {:induction false} EmitRowsAt(rows: seq<seq<seq<Field>>>, n: nat, w: nat, r: nat)
    requires r < n <= |rows| && RowsWritable(rows, n)
    requires UniformRows(rows, w)
    ensures Times(w, Cells(rows, r)) + |EmitRecords(rows[r], |rows[r]|)| <= |EmitRows(rows, n)|
    ensures EmitRows(rows, n)[Times(w, Cells(rows, r))..Times(w, Cells(rows, r)) + |EmitRecords(rows[r], |rows[r]|)|]
         == EmitRecords(rows[r], |rows[r]|)
  {
    if n == r + 1 {
      EmitRowsLast(rows, w, r);
    } else {
      assert RowsWritable(rows, n - 1);
      EmitRowsAt(rows, n - 1, w, r);
      EmitRowsFront(rows, n, Times(w, Cells(rows, r)), Times(w, Cells(rows, r)) + |EmitRecords(rows[r], |rows[r]|)|,
                    EmitRecords(rows[r], |rows[r]|));
    }
  }

  /** Writes row `i` after the rows before it. */
  method WriteRow(f: Stream, rows: seq<seq<seq<Field>>>, i: nat, ghost d: seq<byte>, ghost p: nat) returns (ok: bool)
    requires i < |rows|
    requires f.data == Overwrite(d, p, EmitRows(rows, i)) && f.pos == p + |EmitRows(rows, i)|
    modifies f
    ensures ok == RecordsWritable(rows[i], |rows[i]|)
    ensures ok ==> f.data == Overwrite(d, p, EmitRows(rows, i + 1)) && f.pos == p + |EmitRows(rows, i + 1)|
  {
    ok := WriteAll(f, rows[i]);
    if ok {
      OverwriteSequential(d, p, EmitRows(rows, i), EmitRecords(rows[i], |rows[i]|));
    }
  }

  /** `for row in rows: for x in row: x.write(f)`. */
  method WriteRows(f: Stream, rows: seq<seq<seq<Field>>>) returns (ok: bool)
    modifies f
    ensures ok == RowsWritable(rows, |rows|)
    ensures ok ==> (f.data == Overwrite(old(f.data), old(f.pos), EmitRows(rows, |rows|))
                    && f.pos == old(f.pos) + |EmitRows(rows, |rows|)|)
  {
    var i := 0;
    while i < |rows|
      invariant 0 <= i <= |rows|
      invariant RowsWritable(rows, i)
      invariant f.data == Overwrite(old(f.data), old(f.pos), EmitRows(rows, i))
      invariant f.pos == old(f.pos) + |EmitRows(rows, i)|
    {
      ok := WriteRow(f, rows, i, old(f.data), old(f.pos));
      if !ok {
        assert !RowsWritable(rows, |rows|) by {
          RowsWritableAt(rows, |rows|, i);
        }
        return;
      }
      i := i + 1;
    }
    ok := true;
  }

  /** `WriteRows` after the bytes `pre` already written from `p`. */
  method WriteRowsAfter(f: Stream, rows: seq<seq<seq<Field>>>, ghost d: seq<byte>, ghost p: nat, ghost pre: seq<byte>) returns (ok: bool)
    requires f.data == Overwrite(d, p, pre) && f.pos == p + |pre|
    modifies f
    ensures ok == RowsWritable(rows, |rows|)
    ensures ok ==> (f.data == Overwrite(d, p, pre + EmitRows(rows, |rows|))
                    && f.pos == p + |pre| + |EmitRows(rows, |rows|)|)
  {
    ok := WriteRows(f, rows);
    if ok {
      OverwriteSequential(d, p, pre, EmitRows(rows, |rows|));
    }
  }
}
