/** The C++ streams the driver and `device_ops` use (the save file, and the
    string stream of 0xFF bytes used for erasing), reduced to their bytes and
    one position. */
module Streams {
  import opened Bytes

  /** `data` after writing `bytes` at position `at`: the bytes there are
      overwritten and the sequence grows when the write runs past its end. */
  function Put(data: seq<byte>, at: nat, bytes: seq<byte>): (r: seq<byte>)
    requires at <= |data|
    ensures |r| == if at + |bytes| <= |data| then |data| else at + |bytes|
    ensures r[..at] == data[..at] && r[at..at + |bytes|] == bytes
    ensures at + |bytes| <= |data| ==> r[at + |bytes|..] == data[at + |bytes|..]
  {
    if at + |bytes| <= |data| then data[..at] + bytes + data[at + |bytes|..] else data[..at] + bytes
  }

  /** Writing at the end of a stream appends. */
  lemma PutAtEnd(data: seq<byte>, bytes: seq<byte>)
    ensures Put(data, |data|, bytes) == data + bytes
  {
  }

  class ByteStream {
    var data: seq<byte>
    var pos: nat

    ghost predicate Valid()
      reads this
    {
      pos <= |data|
    }

    /** A stream over `contents`, positioned at its start. */
    constructor (contents: seq<byte>)
      ensures Valid() && data == contents && pos == 0
    {
      data := contents;
      pos := 0;
    }

    /** `read(&buf[at], n)`: the next (at most) `n` bytes land in `buf` from
        `at` on, and the position moves past them. */
    method ReadInto(buf: array<byte>, at: nat, n: nat)
      requires Valid() && at + n <= buf.Length
      modifies this`pos, buf
      ensures Valid()
      ensures data == old(data)
      ensures pos == Min(old(pos) + n, |data|)
      ensures buf[..] == Overlay(old(buf[..]), at, Slice(data, old(pos), n))
    {
      var chunk := Slice(data, pos, n);
      var i := 0;
      while i < |chunk|
        invariant 0 <= i <= |chunk| && pos == old(pos)
        invariant buf[..] == Overlay(old(buf[..]), at, chunk[..i])
      {
        buf[at + i] := chunk[i];
        i := i + 1;
      }
      assert chunk[..i] == chunk;
      pos := Min(pos + n, |data|);
    }

    /** `write(bytes, |bytes|)` at the current position. */
    method Write(bytes: seq<byte>)
      requires Valid()
      modifies this
      ensures Valid() && data == Put(old(data), old(pos), bytes) && pos == old(pos) + |bytes|
    {
      data := Put(data, pos, bytes);
      pos := pos + |bytes|;
    }

    /** `seekg(0, ios::beg)`. */
    method SeekBegin()
      modifies this`pos
      ensures Valid() && pos == 0
    {
      pos := 0;
    }

    /** `seekg(0, ios::end)`. */
    method SeekEnd()
      modifies this`pos
      ensures Valid() && pos == |data|
    {
      pos := |data|;
    }
  }
}
