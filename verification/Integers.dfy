/** Fixed-width integers on the wire. */
module Integers {
  import opened Bytes

  function Pow256(w: nat): nat {
    if w == 0 then 1 else 256 * Pow256(w - 1)
  }

  /** `to_le_bytes` of a `w`-byte integer. */
  function LE(w: nat, x: nat): (s: seq<byte>)
    ensures |s| == w
  {
    if w == 0 then [] else [x % 256] + LE(w - 1, x / 256)
  }

  function FromLE(s: seq<byte>): nat {
    if s == [] then 0 else s[0] + 256 * FromLE(s[1..])
  }

  /** `to_be_bytes`. */
  function BE(w: nat, x: nat): (s: seq<byte>)
    ensures |s| == w
  {
    if w == 0 then [] else BE(w - 1, x / 256) + [x % 256]
  }

  function FromBE(s: seq<byte>): nat {
    if s == [] then 0 else 256 * FromBE(s[..|s| - 1]) + s[|s| - 1]
  }

  lemma {:induction false} LERoundTrip(w: nat, x: nat)
    requires x < Pow256(w)
    ensures FromLE(LE(w, x)) == x
  {
    if w > 0 {
      LERoundTrip(w - 1, x / 256);
      assert LE(w, x)[1..] == LE(w - 1, x / 256);
    }
  }

  lemma {:induction false} BERoundTrip(w: nat, x: nat)
    requires x < Pow256(w)
    ensures FromBE(BE(w, x)) == x
  {
    if w > 0 {
      BERoundTrip(w - 1, x / 256);
      assert BE(w, x)[..w - 1] == BE(w - 1, x / 256);
    }
  }

  lemma {:induction false} FromLERoundTrip(s: seq<byte>)
    ensures LE(|s|, FromLE(s)) == s && FromLE(s) < Pow256(|s|)
  {
    if s != [] {
      FromLERoundTrip(s[1..]);
      assert FromLE(s) % 256 == s[0] && FromLE(s) / 256 == FromLE(s[1..]);
    }
  }

  lemma {:induction false} FromBEBound(s: seq<byte>)
    ensures FromBE(s) < Pow256(|s|)
  {
    if s != [] {
      FromBEBound(s[..|s| - 1]);
    }
  }

  lemma Widths()
    ensures Pow256(4) == 0x1_0000_0000 && Pow256(8) == 0x1_0000_0000_0000_0000
  {
    assert Pow256(2) == 0x1_0000;
    assert Pow256(3) == 0x100_0000;
    assert Pow256(5) == 0x100_0000_0000;
    assert Pow256(6) == 0x1_0000_0000_0000;
    assert Pow256(7) == 0x100_0000_0000_0000;
  }
}
