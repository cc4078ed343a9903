/**
  Byte strings and the random-access write that a seekable file performs.
  A write at position `p` replaces the bytes it covers, extends the file when
  it runs past the end, and fills a gap between the old end and `p` with
  zero bytes (what a file does when one seeks past its end and writes).
*/
module Bytes {

  newtype byte = x: int | 0 <= x < 256

  function Max(a: int, b: int): int { if a < b then b else a }

  function Min(a: int, b: int): int { if a < b then a else b }

  function Zeros(n: nat): (r: seq<byte>)
    ensures |r| == n
    ensures forall i :: 0 <= i < n ==> r[i] == 0
  {
    seq(n, _ => 0)
  }

  /** The contents of `d` after writing the single byte `x` at position `p`:
      a position past the end is first reached by appending zero bytes. */
  function Put(d: seq<byte>, p: nat, x: byte): (r: seq<byte>)
    ensures |r| == Max(|d|, p + 1)
    decreases p + 1 - |d|
  {
    if p < |d| then d[p := x] else Put(d + [0], p, x)
  }

  lemma {:induction false} PutContents(d: seq<byte>, p: nat, x: byte)
    ensures forall i :: 0 <= i < |Put(d, p, x)| ==>
              Put(d, p, x)[i] == (if i == p then x else if i < |d| then d[i] else 0)
    decreases p + 1 - |d|
  {
    if p >= |d| {
      PutContents(d + [0], p, x);
    }
  }

  /** The contents of `d` after writing `a` at position `p`, one byte after
      the other (writing no bytes leaves the file as it was, wherever the
      cursor is). */
  function Overwrite(d: seq<byte>, p: nat, a: seq<byte>): (r: seq<byte>)
    ensures |r| == if a == [] then |d| else Max(|d|, p + |a|)
    decreases |a|
  {
    if a == [] then d else Overwrite(Put(d, p, a[0]), p + 1, a[1..])
  }

  /** Byte by byte: the written bytes where they were written, the old bytes
      elsewhere, and zero bytes in a gap past the old end. */
  lemma {:induction false} OverwriteContents(d: seq<byte>, p: nat, a: seq<byte>)
    ensures forall i :: 0 <= i < |Overwrite(d, p, a)| ==>
              Overwrite(d, p, a)[i] == (if p <= i < p + |a| then a[i - p] else if i < |d| then d[i] else 0)
    decreases |a|
  {
    if a != [] {
      PutContents(d, p, a[0]);
      OverwriteContents(Put(d, p, a[0]), p + 1, a[1..]);
    }
  }

  /** Writing `a` and then `b` right after it is writing `a + b`. */
  lemma {:induction false} OverwriteSequential(d: seq<byte>, p: nat, a: seq<byte>, b: seq<byte>)
    ensures Overwrite(Overwrite(d, p, a), p + |a|, b) == Overwrite(d, p, a + b)
    decreases |a|
  {
    if a == [] {
      assert a + b == b;
    } else {
      assert (a + b)[0] == a[0];
      assert (a + b)[1..] == a[1..] + b;
      OverwriteSequential(Put(d, p, a[0]), p + 1, a[1..], b);
    }
  }

  /** Seeking back into a region just written and overwriting part of it
      is the same as having written the patched region in the first place. */
  lemma {:induction false} OverwritePatch(d: seq<byte>, p: nat, a: seq<byte>, k: nat, c: seq<byte>)
    requires k + |c| <= |a|
    ensures Overwrite(Overwrite(d, p, a), p + k, c) == Overwrite(d, p, a[..k] + c + a[k + |c|..])
  {
    var a' := a[..k] + c + a[k + |c|..];
    assert |a'| == |a|;
    var l := Overwrite(Overwrite(d, p, a), p + k, c);
    var r := Overwrite(d, p, a');
    OverwriteContents(d, p, a);
    OverwriteContents(Overwrite(d, p, a), p + k, c);
    OverwriteContents(d, p, a');
    assert |l| == |r|;
    forall i | 0 <= i < |l|
      ensures l[i] == r[i]
    {
      if p + k <= i < p + k + |c| {
        assert a'[i - p] == c[i - p - k];
      } else if p <= i < p + |a| {
        assert a'[i - p] == a[i - p];
      }
    }
  }

  /** Writing at the end of a file appends. */
  lemma {:induction false} OverwriteAtEnd(d: seq<byte>, a: seq<byte>)
    ensures Overwrite(d, |d|, a) == d + a
  {
    var l := Overwrite(d, |d|, a);
    OverwriteContents(d, |d|, a);
    assert |l| == |d + a|;
    forall i | 0 <= i < |l|
      ensures l[i] == (d + a)[i]
    {
    }
  }

  /** The bytes just written are found where they were written. */
  lemma {:induction false} OverwriteWindow(d: seq<byte>, p: nat, a: seq<byte>)
    requires a != [] || p <= |d|
    ensures p + |a| <= |Overwrite(d, p, a)|
    ensures Overwrite(d, p, a)[p..p + |a|] == a
  {
    var r := Overwrite(d, p, a);
    OverwriteContents(d, p, a);
    forall i | 0 <= i < |a|
      ensures r[p..p + |a|][i] == a[i]
    {
      assert r[p + i] == a[i];
    }
  }

  function Pow256(n: nat): (r: nat)
    ensures r >= 1
  {
    if n == 0 then 1 else 256 * Pow256(n - 1)
  }

  /** The `n` low-order bytes of `u`, least significant first. */
  function LittleEndian(u: nat, n: nat): (r: seq<byte>)
    ensures |r| == n
  {
    if n == 0 then [] else [(u % 256) as byte] + LittleEndian(u / 256, n - 1)
  }

  /** The unsigned value of `b`, least significant byte first. */
  function FromLittleEndian(b: seq<byte>): (u: nat)
    ensures u < Pow256(|b|)
  {
    if b == [] then 0 else b[0] as nat + 256 * FromLittleEndian(b[1..])
  }

  lemma {:induction false} LittleEndianRoundTrip(u: nat, n: nat)
    requires u < Pow256(n)
    ensures FromLittleEndian(LittleEndian(u, n)) == u
  {
    if n > 0 {
      assert u / 256 < Pow256(n - 1);
      LittleEndianRoundTrip(u / 256, n - 1);
      var b := LittleEndian(u, n);
      assert b[1..] == LittleEndian(u / 256, n - 1);
    }
  }

  lemma {:induction false} FromLittleEndianRoundTrip(b: seq<byte>)
    ensures LittleEndian(FromLittleEndian(b), |b|) == b
  {
    if b != [] {
      FromLittleEndianRoundTrip(b[1..]);
      var u := FromLittleEndian(b);
      assert u % 256 == b[0] as int;
      assert u / 256 == FromLittleEndian(b[1..]);
    }
  }

  /** Regrouping a concatenation of three sequences. */
  lemma {:induction false} AppendAssoc<T>(a: seq<T>, b: seq<T>, c: seq<T>)
    ensures a + b + c == a + (b + c)
  {
  }

  /** Regrouping the last two of four concatenated sequences. */
  lemma {:induction false} AppendRegroup<T>(a: seq<T>, b: seq<T>, c: seq<T>, d: seq<T>)
    ensures a + b + c + d == a + b + (c + d)
  {
  }
}
