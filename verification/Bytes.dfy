/** Shared vocabulary: bytes, machine words, results, and the hash assumption. */
module Bytes {
  type byte = x: int | 0 <= x < 256
  type u32 = x: int | 0 <= x < 0x1_0000_0000
  type u64 = x: int | 0 <= x < 0x1_0000_0000_0000_0000

  type Digest = seq<byte>

  /** BLAKE3, uninterpreted: every result holds for any such function. */
  type Hash = seq<byte> -> Digest

  datatype Option<+T> = None | Some(value: T)

  datatype Result<+T, +E> = Ok(value: T) | Err(error: E)

  function Min(a: int, b: int): int {
    if a <= b then a else b
  }

  function Zeros(n: nat): seq<byte> {
    seq(n, _ => 0)
  }

  /** Truncation to 32 bits: wrapping `u32` arithmetic is `Wrap32` of the exact result. */
  function Wrap32(x: int): u32 { x % 0x1_0000_0000 }

  function Slice(s: seq<byte>, from: nat, n: nat): seq<byte>
    requires from + n <= |s|
  {
    s[from..from + n]
  }

  /** No stretch of `s` and stretch of `t` share a digest unless they are equal:
      the only thing the delta engines need of the strong hash. */
  ghost predicate CollisionFree(h: Hash, s: seq<byte>, t: seq<byte>) {
    forall i: nat, n: nat, j: nat, m: nat | i + n <= |s| && j + m <= |t| ::
      h(Slice(s, i, n)) == h(Slice(t, j, m)) ==> Slice(s, i, n) == Slice(t, j, m)
  }

  /** These two do not collide. */
  predicate NoCollision(h: Hash, s: seq<byte>, t: seq<byte>) {
    h(s) == h(t) ==> s == t
  }
}
