/** Bytes, machine integers and big-endian integers, as the wire formats use them. */
module Bytes {

  type byte = n: int | 0 <= n < 0x100
  type uint16 = n: int | 0 <= n < 0x1_0000
  type uint32 = n: int | 0 <= n < 0x1_0000_0000
  type uint64 = n: int | 0 <= n < 0x1_0000_0000_0000_0000
  type int8 = n: int | -0x80 <= n < 0x80
  type int16 = n: int | -0x8000 <= n < 0x8000
  type int32 = n: int | -0x8000_0000 <= n < 0x8000_0000
  type int64 = n: int | -0x8000_0000_0000_0000 <= n < 0x8000_0000_0000_0000

  type bytes = seq<byte>

  function Pow256(w: nat): (p: nat)
    ensures p >= 1
  {
    if w == 0 then 1 else 0x100 * Pow256(w - 1)
  }

  /** The w low-order bytes of n, most significant first. */
  function Be(w: nat, n: nat): (s: bytes)
    ensures |s| == w
    decreases w, n
  {
    if w == 0 then [] else Be(w - 1, n / 0x100) + [n % 0x100]
  }

  function FromBe(s: bytes): (n: nat)
    ensures n < Pow256(|s|)
  {
    if s == [] then 0 else FromBe(s[..|s| - 1]) * 0x100 + s[|s| - 1]
  }

  lemma {:induction false} BeInverse(w: nat, n: nat)
    requires n < Pow256(w)
    ensures FromBe(Be(w, n)) == n
    decreases w
  {
    if w > 0 {
      BeInverse(w - 1, n / 0x100);
      assert Be(w, n)[..w - 1] == Be(w - 1, n / 0x100);
    }
  }

  lemma AppendAssoc<T>(a: seq<T>, b: seq<T>, c: seq<T>)
    ensures a + b + c == a + (b + c)
    ensures (a + b + c)[..|a|] == a
    ensures (a + b + c)[|a|..] == b + c
  {
  }

  /** Go's conversion of an unsigned integer to the signed type of the same width. */
  function Signed8(n: byte): int8 { if n < 0x80 then n else n - 0x100 }
  function Signed16(n: uint16): int16 { if n < 0x8000 then n else n - 0x1_0000 }
  function Signed32(n: uint32): int32 { if n < 0x8000_0000 then n else n - 0x1_0000_0000 }
  function Signed64(n: uint64): int64 { if n < 0x8000_0000_0000_0000 then n else n - 0x1_0000_0000_0000_0000 }

  /** Go's truncating conversions to unsigned types; `%` is Euclidean, so negative operands wrap around. */
  function ToByte(n: int): byte { n % 0x100 }
  function ToUint32(n: int): uint32 { n % 0x1_0000_0000 }
  function ToUint64(n: int): uint64 { n % 0x1_0000_0000_0000_0000 }

  lemma Signed32Inverse(n: int32)
    ensures Signed32(ToUint32(n)) == n
  {
  }

  lemma Signed64Inverse(n: int64)
    ensures Signed64(ToUint64(n)) == n
  {
  }
}
