/**
  The file object every reader and writer works on: its bytes and a cursor.
  Reads consume from the cursor and come back short at the end of the file;
  writes overwrite or extend at the cursor; seeking may go past the end.
*/
module Streams {
  import opened Bytes

  /** What `read(n)` returns from position `p`: up to `n` bytes, fewer at the end. */
  function Window(d: seq<byte>, p: nat, n: nat): (r: seq<byte>)
    ensures |r| <= n
    ensures |r| == n <==> n == 0 || p + n <= |d|
    ensures p < |d| ==> p + |r| <= |d| && r == d[p..p + |r|]
    ensures p >= |d| ==> r == []
    ensures |r| < n && p <= |d| ==> p + |r| == |d|
  {
    if p >= |d| then [] else d[p..Min(p + n, |d|)]
  }

  /** Reading `n` bytes and then one more is reading `n + 1`. */
  lemma {:induction false} WindowStep(d: seq<byte>, p: nat, n: nat)
    ensures Window(d, p, n + 1) == Window(d, p, n) + Window(d, p + |Window(d, p, n)|, 1)
  {
  }

  class Stream {
    var data: seq<byte>
    var pos: nat

    /** A file opened for writing and truncated. */
    constructor Empty()
      ensures data == [] && pos == 0
    {
      data, pos := [], 0;
    }

    /** A file opened for reading, holding `contents`. */
    constructor Open(contents: seq<byte>)
      ensures data == contents && pos == 0
    {
      data, pos := contents, 0;
    }

    method Tell() returns (p: nat)
      ensures p == pos
    {
      p := pos;
    }

    /** A negative target raises; any other target, past the end included, is accepted. */
    method Seek(p: int) returns (ok: bool)
      modifies this`pos
      ensures ok == (p >= 0)
      ensures pos == if ok then p else old(pos)
    {
      ok := p >= 0;
      if ok {
        pos := p;
      }
    }

    method Write(b: seq<byte>)
      modifies this
      ensures data == Overwrite(old(data), old(pos), b)
      ensures pos == old(pos) + |b|
    {
      data := Overwrite(data, pos, b);
      pos := pos + |b|;
    }

    method Read(n: nat) returns (b: seq<byte>)
      modifies this`pos
      ensures b == Window(data, old(pos), n)
      ensures pos == old(pos) + |b|
    {
      b := Window(data, pos, n);
      pos := pos + |b|;
    }
  }
}
