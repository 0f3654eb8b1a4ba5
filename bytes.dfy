/** Byte-level vocabulary shared by the dongle model: unsigned chars, the C
    integer operations the driver applies to `int` values, fixed-size
    buffers patched with `memcpy`, and NUL-terminated strings. */
module Bytes {

  /** An `unsigned char`. */
  type byte = x: int | 0 <= x < 256

  /** The least `int` of a 32-bit two's-complement target. */
  const INT_MIN: int := -0x8000_0000

  datatype Option<T> = None | Some(value: T)

  function Min(a: int, b: int): (m: int)
    ensures m <= a && m <= b && (m == a || m == b)
  {
    if a <= b then a else b
  }

  function Pow2(n: nat): (r: nat)
    ensures r >= 1
  {
    if n == 0 then 1 else 2 * Pow2(n - 1)
  }

  /** `int(pow(2.0, n))`: exact below 2^31. Above, the conversion of the
      double is undefined in C++; x86 produces INT_MIN, which is what this
      model uses. */
  function PowToInt(n: nat): (r: int)
    ensures n < 31 ==> r == Pow2(n) && 1 <= r <= 0x4000_0000
    ensures n >= 31 ==> r == INT_MIN
  {
    if n < 31 then Pow2Below31(n); Pow2(n) else INT_MIN
  }

  lemma {:induction false} Pow2Add(a: nat, b: nat)
    ensures Pow2(a + b) == Pow2(a) * Pow2(b)
    decreases a
  {
    if a > 0 {
      Pow2Add(a - 1, b);
    }
  }

  lemma {:induction false} Pow2Monotone(a: nat, b: nat)
    requires a <= b
    ensures Pow2(a) <= Pow2(b)
    decreases b
  {
    if a < b {
      Pow2Monotone(a, b - 1);
    }
  }

  /** Every power of two that `pow` produces below 2^31 fits in a
      32-bit `int`. */
  lemma Pow2Below31(n: nat)
    requires n < 31
    ensures Pow2(n) <= 0x4000_0000
  {
    assert Pow2(10) == 0x400;
    Pow2Add(10, 10);
    Pow2Add(10, 20);
    Pow2Monotone(n, 30);
  }

  /** C's `a / b` on `int`: truncation toward zero. */
  function CDiv(a: int, b: int): int
    requires b > 0
  {
    if a >= 0 then a / b else -((-a) / b)
  }

  /** `a >> k` on a two's-complement `int` (an arithmetic shift). */
  function Shr(a: int, k: nat): int
  {
    a / Pow2(k)
  }

  /** `a & 0xFF` on a two's-complement `int`, or the conversion of `a` to
      `unsigned char`: both keep the residue modulo 256. */
  function Low8(a: int): byte
  {
    a % 256
  }

  function Zeros(n: nat): (z: seq<byte>)
    ensures |z| == n
    ensures forall i :: 0 <= i < n ==> z[i] == 0
  {
    seq(n, _ => 0)
  }

  /** `memcpy(&t[at], chunk, |chunk|)`: the bytes of `chunk` replace those of
      `t` from `at` on, and every other byte of `t` is kept. */
  function Overlay(t: seq<byte>, at: nat, chunk: seq<byte>): (r: seq<byte>)
    requires at + |chunk| <= |t|
    ensures |r| == |t|
    ensures forall i :: 0 <= i < |t| ==> r[i] == if at <= i < at + |chunk| then chunk[i - at] else t[i]
  {
    t[..at] + chunk + t[at + |chunk|..]
  }

  /** The bytes of `s` from `at` on, at most `n` of them: what a stream read
      of `n` bytes at position `at` obtains. */
  function Slice(s: seq<byte>, at: nat, n: nat): (r: seq<byte>)
    ensures |r| <= n
    ensures at + n <= |s| ==> r == s[at..at + n]
    ensures at <= |s| ==> r == s[at..Min(at + n, |s|)]
    ensures at >= |s| ==> r == []
  {
    if at >= |s| then [] else s[at..Min(at + n, |s|)]
  }

  /** Reading from past the end is reading from the end. */
  lemma SliceClamped(s: seq<byte>, at: nat, n: nat)
    ensures Slice(s, Min(at, |s|), n) == Slice(s, at, n)
  {
  }

  /** The C string that starts at `from` in `s`: every byte up to the first
      NUL, or up to the end of `s` when no NUL follows. */
  function CStringAt(s: seq<byte>, from: nat): (r: seq<byte>)
    decreases |s| - from
    ensures from + |r| <= |s| || r == []
    ensures forall i :: 0 <= i < |r| ==> r[i] != 0 && r[i] == s[from + i]
    ensures from + |r| < |s| ==> s[from + |r|] == 0
  {
    if from >= |s| || s[from] == 0 then [] else [s[from]] + CStringAt(s, from + 1)
  }

  /** `substr(0, n)`. */
  function Take(s: seq<byte>, n: nat): (r: seq<byte>)
    ensures |r| == Min(n, |s|) && r == s[..|r|]
  {
    if |s| <= n then s else s[..n]
  }

  /** A NUL-free run `t` stored at `from` is the start of the C string read
      there. */
  lemma {:induction false} CStringStartsWith(s: seq<byte>, from: nat, t: seq<byte>)
    requires from + |t| <= |s|
    requires s[from..from + |t|] == t
    requires forall i :: 0 <= i < |t| ==> t[i] != 0
    ensures |CStringAt(s, from)| >= |t|
    ensures CStringAt(s, from)[..|t|] == t
    decreases |t|
  {
    if |t| > 0 {
      assert s[from] == t[0];
      assert s[from + 1..from + 1 + |t[1..]|] == t[1..];
      CStringStartsWith(s, from + 1, t[1..]);
    }
  }

  /** A NUL-free run followed by a NUL is exactly the C string read there. */
  lemma {:induction false} CStringIs(s: seq<byte>, from: nat, t: seq<byte>)
    requires from + |t| < |s|
    requires s[from..from + |t|] == t && s[from + |t|] == 0
    requires forall i :: 0 <= i < |t| ==> t[i] != 0
    ensures CStringAt(s, from) == t
    decreases |t|
  {
    if |t| > 0 {
      assert s[from] == t[0];
      assert s[from + 1..from + 1 + |t[1..]|] == t[1..];
      CStringIs(s, from + 1, t[1..]);
    }
  }
}
