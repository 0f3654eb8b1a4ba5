/** The chunk statistics of the tools file: a count per distinct 512-byte
    block of a file, skipping erased (all-0xFF) blocks, and the block seen
    most often. The global `chunks` map is the one field of `ChunkTable`. */
module Tools {
  import opened Bytes

  /** `CHUNK_SIZE`. */
  const CHUNK_SIZE: nat := 0x200

  /** The count `chunks[k]` reads: an absent key counts 0. */
  function Count(m: map<seq<byte>, int>, k: seq<byte>): int
  {
    if k in m then m[k] else 0
  }

  /** The value a byte of a `std::string` has when compared with the `int`
      0xFF: on a signed-char target bytes from 0x80 on are negative. */
  function CharValue(b: byte, charIsSigned: bool): (v: int)
    ensures !charIsSigned ==> v == b
    ensures charIsSigned ==> -128 <= v < 128
  {
    if charIsSigned && b >= 0x80 then b - 0x100 else b
  }

  /** The key `chunk_data` builds: a zero-filled 512-byte string over which
      at most 512 input bytes are read. */
  function ReadChunk(input: seq<byte>): (chunk: seq<byte>)
    ensures |chunk| == CHUNK_SIZE
    ensures forall i :: 0 <= i < CHUNK_SIZE ==> chunk[i] == if i < |input| then input[i] else 0
  {
    Overlay(Zeros(CHUNK_SIZE), 0, input[..Min(CHUNK_SIZE, |input|)])
  }

  /** A chunk `chunk_data` discards: every byte compares equal to 0xFF. */
  predicate Erased(chunk: seq<byte>, charIsSigned: bool)
  {
    forall i :: 0 <= i < |chunk| ==> CharValue(chunk[i], charIsSigned) == 0xFF
  }

  /** On an unsigned-char target a chunk is discarded exactly when the input
      holds 512 bytes and they are all 0xFF; a short read is padded with
      zeros and so is always kept. */
  lemma ErasedExactlyFullFF(input: seq<byte>)
    ensures Erased(ReadChunk(input), false) <==>
              |input| >= CHUNK_SIZE && forall i :: 0 <= i < CHUNK_SIZE ==> input[i] == 0xFF
  {
    var chunk := ReadChunk(input);
    if |input| < CHUNK_SIZE {
      assert chunk[CHUNK_SIZE - 1] == 0;
    }
  }

  /** On a signed-char target no byte equals the `int` 0xFF, so no chunk is
      ever discarded. */
  lemma SignedKeepsEveryChunk(input: seq<byte>)
    ensures !Erased(ReadChunk(input), true)
  {
    var chunk := ReadChunk(input);
    assert CharValue(chunk[0], true) < 0xFF;
  }

  /** Strict `std::string` order: byte-wise, with a proper prefix first. */
  predicate LexLess(a: seq<byte>, b: seq<byte>)
  {
    |b| > 0 && (|a| == 0 || a[0] < b[0] || (a[0] == b[0] && LexLess(a[1..], b[1..])))
  }

  lemma {:induction false} LexLessIrreflexive(a: seq<byte>)
    ensures !LexLess(a, a)
    decreases |a|
  {
    if |a| > 0 {
      LexLessIrreflexive(a[1..]);
    }
  }

  lemma {:induction false} LexLessAsymmetric(a: seq<byte>, b: seq<byte>)
    requires LexLess(a, b)
    ensures !LexLess(b, a)
    decreases |a|
  {
    if |a| > 0 && a[0] == b[0] {
      LexLessAsymmetric(a[1..], b[1..]);
    }
  }

  lemma {:induction false} LexLessTransitive(a: seq<byte>, b: seq<byte>, c: seq<byte>)
    requires LexLess(a, b) && LexLess(b, c)
    ensures LexLess(a, c)
    decreases |a|
  {
    if |a| > 0 && a[0] == b[0] && b[0] == c[0] {
      LexLessTransitive(a[1..], b[1..], c[1..]);
    }
  }

  lemma {:induction false} LexLessTotal(a: seq<byte>, b: seq<byte>)
    requires a != b
    ensures LexLess(a, b) || LexLess(b, a)
    decreases |a|
  {
    if |a| > 0 && |b| > 0 && a[0] == b[0] {
      assert a == [a[0]] + a[1..] && b == [b[0]] + b[1..];
      LexLessTotal(a[1..], b[1..]);
    }
  }

  /** `x` comes first in `s` in `std::map` order. */
  predicate IsLeast(x: seq<byte>, s: set<seq<byte>>)
  {
    x in s && forall y :: y in s ==> y == x || LexLess(x, y)
  }

  /** Every non-empty set of keys has a first key. */
  lemma {:induction false} LeastExists(s: set<seq<byte>>)
    requires s != {}
    ensures exists x :: IsLeast(x, s)
    decreases |s|
  {
    var z :| z in s;
    var rest := s - {z};
    if rest == {} {
      assert s == {z};
      assert IsLeast(z, s);
    } else {
      LeastExists(rest);
      var w :| IsLeast(w, rest);
      if LexLess(z, w) {
        forall y | y in s
          ensures y == z || LexLess(z, y)
        {
          if y != z && y != w {
            LexLessTransitive(z, w, y);
          }
        }
        assert IsLeast(z, s);
      } else {
        LexLessTotal(z, w);
        assert IsLeast(w, s);
      }
    }
  }

  /** What `get_key` promises of `key` in `m`: it has a positive count that
      no other count exceeds, and every key before it in map order has a
      smaller count. */
  predicate IsFirstMax(m: map<seq<byte>, int>, key: seq<byte>)
  {
    && key in m && m[key] > 0
    && (forall k :: k in m ==> m[k] <= m[key])
    && (forall k :: k in m && LexLess(k, key) ==> m[k] < m[key])
  }

  /** At most one key is the first of the largest counts. */
  lemma FirstMaxUnique(m: map<seq<byte>, int>, k1: seq<byte>, k2: seq<byte>)
    requires IsFirstMax(m, k1) && IsFirstMax(m, k2)
    ensures k1 == k2
  {
    if k1 != k2 {
      LexLessTotal(k1, k2);
    }
  }

  class ChunkTable {
    /** `chunks`: how often each kept 512-byte block was seen. */
    var chunks: map<seq<byte>, int>

    constructor ()
      ensures chunks == map[]
    {
      chunks := map[];
    }

    /** `chunk_data`: read the next block of `input`; unless every byte of
        it compares equal to 0xFF, count it once more. No other count
        changes. */
    method ChunkData(input: seq<byte>, charIsSigned: bool)
      modifies this
      ensures var chunk := ReadChunk(input);
              && chunks.Keys == old(chunks.Keys) + (if Erased(chunk, charIsSigned) then {} else {chunk})
              && Count(chunks, chunk) == Count(old(chunks), chunk) + (if Erased(chunk, charIsSigned) then 0 else 1)
              && forall k :: k != chunk ==> Count(chunks, k) == Count(old(chunks), k)
    {
      var chunk := ReadChunk(input);
      var i := 0;
      while i < CHUNK_SIZE
        invariant 0 <= i <= CHUNK_SIZE
        invariant forall j :: 0 <= j < i ==> CharValue(chunk[j], charIsSigned) == 0xFF
      {
        if CharValue(chunk[i], charIsSigned) != 0xFF {
          chunks := chunks[chunk := Count(chunks, chunk) + 1];
          return;
        }
        i := i + 1;
      }
    }

    /** `get_key`: the key with the largest count, the first in map order
        among equals; the empty string when no count is positive. The map
        is walked in order, least remaining key first. */
    method GetKey() returns (key: seq<byte>)
      ensures (forall k :: k in chunks ==> chunks[k] <= 0) ==> key == []
      ensures (exists k :: k in chunks && chunks[k] > 0) ==> IsFirstMax(chunks, key)
    {
      key := [];
      var max := 0;
      var todo := chunks.Keys;
      while todo != {}
        invariant todo <= chunks.Keys
        invariant forall a, b :: a in chunks && a !in todo && b in todo ==> LexLess(a, b)
        invariant max >= 0
        invariant max == 0 ==> key == [] && forall a :: a in chunks && a !in todo ==> chunks[a] <= 0
        invariant max > 0 ==> key in chunks && key !in todo && chunks[key] == max
        invariant forall a :: a in chunks && a !in todo ==> chunks[a] <= max
        invariant max > 0 ==> forall a :: a in chunks && a !in todo && LexLess(a, key) ==> chunks[a] < max
        decreases |todo|
      {
        LeastExists(todo);
        var x :| IsLeast(x, todo);
        if chunks[x] > max {
          forall a | a in chunks && a !in todo && LexLess(a, x)
            ensures chunks[a] < chunks[x]
          {
          }
          LexLessIrreflexive(x);
          max := chunks[x];
          key := x;
        } else if max > 0 {
          LexLessAsymmetric(key, x);
        }
        todo := todo - {x};
      }
    }
  }
}
