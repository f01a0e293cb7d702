/** Bytes, machine-word ranges and the big-endian encoding every wire format of the system uses. */
module Bytes {

  type byte = x: int | 0 <= x < 256
  type bytes = seq<byte>

  const TWO_32: nat := 0x1_0000_0000
  const TWO_64: nat := 0x1_0000_0000_0000_0000
  const U64_MAX: nat := TWO_64 - 1

  type u32 = x: nat | x < 0x1_0000_0000
  type u64 = x: nat | x < 0x1_0000_0000_0000_0000

  datatype Option<+T> = None | Some(value: T)
  datatype Result<+T, +E> = Ok(value: T) | Err(error: E)

  /** The number of values a `width`-byte word can hold. */
  function Pow256(width: nat): (p: nat)
    ensures p > 0
  {
    if width == 0 then 1 else 256 * Pow256(width - 1)
  }

  lemma WordSizes()
    ensures Pow256(4) == TWO_32
    ensures Pow256(8) == TWO_64
  {
    assert Pow256(4) == TWO_32;
    assert Pow256(8) == 256 * (256 * (256 * (256 * Pow256(4))));
  }

  /** The value of a big-endian byte string, whatever its length. */
  function FromBE(s: bytes): (n: nat)
    ensures n < Pow256(|s|)
  {
    if s == [] then 0 else 256 * FromBE(s[..|s| - 1]) + s[|s| - 1]
  }

  /** The `width`-byte big-endian encoding of `n`. */
  function BE(n: nat, width: nat): (s: bytes)
    requires n < Pow256(width)
    ensures |s| == width
    ensures FromBE(s) == n
  {
    if width == 0 then []
    else
      var front := BE(n / 256, width - 1);
      var s := front + [n % 256];
      assert s[..|s| - 1] == front;
      s
  }

  /** Every byte string is the encoding of its own value: the encoding is onto. */
  lemma {:induction false} BEOfFromBE(s: bytes)
    ensures BE(FromBE(s), |s|) == s
  {
    if s != [] {
      var front := s[..|s| - 1];
      BEOfFromBE(front);
      assert FromBE(s) / 256 == FromBE(front);
      assert s == front + [s[|s| - 1]];
    }
  }

  function BE32(n: u32): (s: bytes)
    ensures |s| == 4
    ensures FromBE(s) == n
  {
    WordSizes();
    BE(n, 4)
  }

  function BE64(n: u64): (s: bytes)
    ensures |s| == 8
    ensures FromBE(s) == n
  {
    WordSizes();
    BE(n, 8)
  }

  lemma Regroup<T>(a: seq<T>, b: seq<T>, c: seq<T>)
    ensures a + b + c == a + (b + c)
  {
  }

  /** A block of two appended pieces can be moved past a prefix or a suffix as one. */
  lemma Regroup4<T>(a: seq<T>, b: seq<T>, c: seq<T>, d: seq<T>)
    ensures a + b + c + d == a + (b + c + d)
    ensures a + b + c + d == a + b + (c + d)
  {
    Regroup(a, b, c);
    Regroup(a, b + c, d);
    Regroup(a + b, c, d);
  }

  /** Strings of equal length that start two equal byte strings are equal, and so are the rests. */
  lemma SplitEqual<T>(a: seq<T>, x: seq<T>, b: seq<T>, y: seq<T>)
    requires |a| == |b|
    requires a + x == b + y
    ensures a == b && x == y
  {
    assert a == (a + x)[..|a|] == (b + y)[..|b|] == b;
    assert x == (a + x)[|a|..] == (b + y)[|b|..] == y;
  }
}
