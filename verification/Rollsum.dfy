/** The rsync-style rolling checksum and the automatic block size. */
module Rollsum {
  import opened Bytes

  // ---- the closed forms the module documentation gives ----

  /** Sum of the window's bytes. */
  function Sum(w: seq<byte>): nat {
    if w == [] then 0 else w[0] + Sum(w[1..])
  }

  /** Weighted sum: the first byte weighs |w|, the last one 1. */
  function WeightedSum(w: seq<byte>): nat {
    if w == [] then 0 else |w| * w[0] + WeightedSum(w[1..])
  }

  function WeakS1(w: seq<byte>): u32 { Wrap32(Sum(w)) }

  function WeakS2(w: seq<byte>): u32 { Wrap32(WeightedSum(w)) }

  function WeakOf(w: seq<byte>): u32 { WeakValue(WeakS1(w), WeakS2(w)) }

  // ---- the code's expressions ----

  /** `(s1 & 0xffff) | (s2 << 16)` on 32-bit words. */
  function WeakValue(s1: u32, s2: u32): u32 {
    s1 % 0x1_0000 + s2 % 0x1_0000 * 0x1_0000
  }

  function BucketTraditional(s1: u32, s2: u32): nat {
    Wrap32(s1 + s2) % 0x1_0000
  }

  /** The bucket computed while the table is built, from the stored weak value. */
  function BucketOfWeak(weak: u32): nat {
    (weak % 0x1_0000 + weak / 0x1_0000) % 0x1_0000
  }

  function StatePack(s1: u32, s2: u32): u64 { s1 + s2 * 0x1_0000_0000 }

  /** `((st & 0xffff) | ((st >> 32) << 16)) as u32`. */
  function StateValue(st: u64): u32 {
    Wrap32(st % 0x1_0000 + st / 0x1_0000_0000 * 0x1_0000)
  }

  /** `(st + (st >> 32)) & 0xffff`, wrapping at 64 bits. */
  function StateBucket(st: u64): nat {
    (st + st / 0x1_0000_0000) % 0x1_0000_0000_0000_0000 % 0x1_0000
  }

  function StateRoll(st: u64, k: u32, out: byte, inn: byte): u64 {
    var lo, hi := st % 0x1_0000_0000, st / 0x1_0000_0000;
    var lo' := Wrap32(Wrap32(lo + inn) - out);
    var hi' := Wrap32(Wrap32(Wrap32(hi + lo) + inn) - Wrap32(Wrap32(k + 1) * out));
    StatePack(lo', hi')
  }

  // ---- sums grow by one byte at either end ----

  lemma {:induction false} SumAppend(w: seq<byte>, x: byte)
    ensures Sum(w + [x]) == Sum(w) + x
  {
    if w == [] {
      assert w + [x] == [x];
    } else {
      assert (w + [x])[1..] == w[1..] + [x];
      SumAppend(w[1..], x);
    }
  }

  lemma {:induction false} WeightedAppend(w: seq<byte>, x: byte)
    ensures WeightedSum(w + [x]) == WeightedSum(w) + Sum(w) + x
  {
    if w == [] {
      assert w + [x] == [x];
    } else {
      assert (w + [x])[1..] == w[1..] + [x];
      WeightedAppend(w[1..], x);
      assert |w + [x]| * w[0] == |w| * w[0] + w[0];
    }
  }

  /** Sliding the window by one byte, on the closed forms. */
  lemma {:induction false} SlideSums(w: seq<byte>, x: byte)
    requires w != []
    ensures Sum(w[1..] + [x]) == Sum(w) + x - w[0]
    ensures WeightedSum(w[1..] + [x]) == WeightedSum(w) + Sum(w) + x - (|w| + 1) * w[0]
  {
    SumAppend(w[1..], x);
    WeightedAppend(w[1..], x);
  }

  // ---- wrapping sums ----

  lemma WrapAdd(a: int, b: int)
    ensures Wrap32(Wrap32(a) + b) == Wrap32(a + b)
    ensures Wrap32(a + Wrap32(b)) == Wrap32(a + b)
  {
  }

  lemma WrapSub(a: int, b: int)
    ensures Wrap32(Wrap32(a) - Wrap32(b)) == Wrap32(a - b)
  {
  }

  lemma WrapMultiple(x: int, t: int)
    ensures Wrap32(x + 0x1_0000_0000 * t) == Wrap32(x)
  {
  }

  lemma {:induction false} WrapMul(a: int, b: int)
    ensures Wrap32(Wrap32(a) * b) == Wrap32(a * b)
  {
    var q := a / 0x1_0000_0000;
    assert a * b == Wrap32(a) * b + 0x1_0000_0000 * (q * b) by {
      assert a == q * 0x1_0000_0000 + Wrap32(a);
      Distribute(q * 0x1_0000_0000, Wrap32(a), b);
      assert q * 0x1_0000_0000 * b == 0x1_0000_0000 * (q * b);
    }
    WrapMultiple(Wrap32(a) * b, q * b);
  }

  lemma Distribute(x: int, y: int, z: int)
    ensures (x + y) * z == x * z + y * z
  {
  }

  // ---- weak_init ----

  /** The 4-byte-unrolled loop computes both closed forms mod 2^32. */
  method WeakInit(window: seq<byte>) returns (s1: u32, s2: u32)
    ensures s1 == WeakS1(window) && s2 == WeakS2(window)
  {
    s1, s2 := 0, 0;
    var i := 0;
    assert WeakS1(window[..0]) == 0 && WeakS2(window[..0]) == 0;
    hide *;
    while i + 4 <= |window|
      invariant 0 <= i <= |window|
      invariant s1 == WeakS1(window[..i]) && s2 == WeakS2(window[..i])
    {
      var b0, b1, b2, b3 := window[i], window[i + 1], window[i + 2], window[i + 3];
      StepFour(window, i);
      s1, s2 := Unrolled1(s1, b0, b1, b2, b3), Unrolled2(s1, s2, b0, b1, b2, b3);
      i := i + 4;
    }
    while i < |window|
      invariant 0 <= i <= |window|
      invariant s1 == WeakS1(window[..i]) && s2 == WeakS2(window[..i])
    {
      StepOne(window, i);
      s1 := Wrap32(s1 + window[i]);
      s2 := Wrap32(s2 + s1);
      i := i + 1;
    }
    assert window[..i] == window;
  }

  lemma StepOne(w: seq<byte>, i: nat)
    requires i < |w|
    ensures WeakS1(w[..i + 1]) == Wrap32(WeakS1(w[..i]) + w[i])
    ensures WeakS2(w[..i + 1]) == Wrap32(WeakS2(w[..i]) + WeakS1(w[..i + 1]))
  {
    hide Wrap32, Sum, WeightedSum;
    OneByte(w, i);
    WrapAdd(Sum(w[..i]), w[i]);
    WrapAdd(WeightedSum(w[..i]), WeakS1(w[..i + 1]));
    WrapAdd(WeightedSum(w[..i]), Sum(w[..i + 1]));
  }

  lemma StepFour(w: seq<byte>, i: nat)
    requires i + 4 <= |w|
    ensures WeakS1(w[..i + 4]) == Unrolled1(WeakS1(w[..i]), w[i], w[i + 1], w[i + 2], w[i + 3])
    ensures WeakS2(w[..i + 4])
         == Unrolled2(WeakS1(w[..i]), WeakS2(w[..i]), w[i], w[i + 1], w[i + 2], w[i + 3])
  {
    hide Wrap32, Sum, WeightedSum, Unrolled1, Unrolled2;
    FourBytes(w, i);
    FourWrapped(Sum(w[..i]), WeightedSum(w[..i]), w[i], w[i + 1], w[i + 2], w[i + 3]);
  }

  /** `s1 += b0 + b1 + b2 + b3`. */
  function Unrolled1(s1: u32, b0: int, b1: int, b2: int, b3: int): u32 {
    Wrap32(s1 + (b0 + b1 + b2 + b3))
  }

  /** `s2 += ((s1 + b0) << 2) + (3*b1 + 2*b2 + b3)`, each step wrapping. */
  function Unrolled2(s1: u32, s2: u32, b0: int, b1: int, b2: int, b3: int): u32 {
    Wrap32(s2 + Wrap32(Wrap32(Wrap32(s1 + b0) * 4) + (3 * b1 + 2 * b2 + b3)))
  }

  lemma FourWrapped(a: int, c: int, b0: int, b1: int, b2: int, b3: int)
    ensures Unrolled1(Wrap32(a), b0, b1, b2, b3) == Wrap32(a + b0 + b1 + b2 + b3)
    ensures Unrolled2(Wrap32(a), Wrap32(c), b0, b1, b2, b3)
         == Wrap32(c + 4 * (a + b0) + 3 * b1 + 2 * b2 + b3)
  {
    hide Wrap32;
    WrapAdd(a, b0 + b1 + b2 + b3);
    WrapAdd(a, b0);
    WrapMul(a + b0, 4);
    var r := 3 * b1 + 2 * b2 + b3;
    WrapAdd((a + b0) * 4, r);
    WrapAdd(c, (a + b0) * 4 + r);
    WrapAdd(c, Wrap32((a + b0) * 4 + r));
  }

  lemma FourBytes(w: seq<byte>, i: nat)
    requires i + 4 <= |w|
    ensures Sum(w[..i + 4]) == Sum(w[..i]) + w[i] + w[i + 1] + w[i + 2] + w[i + 3]
    ensures var b1: int, b2: int := w[i + 1], w[i + 2];
         WeightedSum(w[..i + 4])
         == WeightedSum(w[..i]) + 4 * (Sum(w[..i]) + w[i]) + 3 * b1 + 2 * b2 + w[i + 3]
  {
    OneByte(w, i);
    OneByte(w, i + 1);
    OneByte(w, i + 2);
    OneByte(w, i + 3);
  }

  lemma OneByte(w: seq<byte>, i: nat)
    requires i < |w|
    ensures Sum(w[..i + 1]) == Sum(w[..i]) + w[i]
    ensures WeightedSum(w[..i + 1]) == WeightedSum(w[..i]) + Sum(w[..i]) + w[i]
  {
    assert w[..i + 1] == w[..i] + [w[i]];
    SumAppend(w[..i], w[i]);
    WeightedAppend(w[..i], w[i]);
  }

  // ---- the packed scan state ----

  /** The packed state is a fresh checksum of window `w`. */
  predicate StateMatches(st: u64, w: seq<byte>) {
    st == StatePack(WeakS1(w), WeakS2(w))
  }

  /** `state_roll` maps the state of a window to the state of the next one, for
      every window length (the length enters truncated to 32 bits). */
  lemma RollKeepsState(st: u64, w: seq<byte>, inn: byte)
    requires w != [] && StateMatches(st, w)
    ensures StateMatches(StateRoll(st, Wrap32(|w|), w[0], inn), w[1..] + [inn])
  {
    hide Wrap32, StateRoll, StatePack;
    SlideSums(w, inn);
    RollWrapped(Sum(w), WeightedSum(w), |w|, w[0], inn);
  }

  lemma {:induction false} RollWrapped(a: int, c: int, k: int, out: byte, inn: byte)
    ensures StateRoll(StatePack(Wrap32(a), Wrap32(c)), Wrap32(k), out, inn)
         == StatePack(Wrap32(a + inn - out), Wrap32(c + a + inn - (k + 1) * out))
  {
    hide Wrap32, StatePack;
    StateHalves(Wrap32(a), Wrap32(c));
    RollLow(a, out, inn);
    RollHigh(a, c, k, out, inn);
  }

  lemma RollLow(a: int, out: int, inn: int)
    ensures Wrap32(Wrap32(Wrap32(a) + inn) - out) == Wrap32(a + inn - out)
  {
    WrapAdd(a, inn);
    WrapAdd(a + inn, -out);
  }

  lemma {:induction false} RollHigh(a: int, c: int, k: int, out: int, inn: int)
    ensures Wrap32(Wrap32(Wrap32(Wrap32(c) + Wrap32(a)) + inn) - Wrap32(Wrap32(Wrap32(k) + 1) * out))
         == Wrap32(c + a + inn - (k + 1) * out)
  {
    hide Wrap32;
    WrapAdd(c, Wrap32(a));
    WrapAdd(c, a);
    WrapAdd(c + a, inn);
    WrapAdd(k, 1);
    WrapMul(k + 1, out);
    WrapSub(c + a + inn, (k + 1) * out);
  }

  lemma StateHalves(s1: u32, s2: u32)
    ensures StatePack(s1, s2) % 0x1_0000_0000 == s1 && StatePack(s1, s2) / 0x1_0000_0000 == s2
    ensures StatePack(s1, s2) % 0x1_0000 == s1 % 0x1_0000
  {
  }

  /** The packed value equals the unpacked one. */
  lemma {:induction false} PackedValue(s1: u32, s2: u32)
    ensures StateValue(StatePack(s1, s2)) == WeakValue(s1, s2)
  {
    StateHalves(s1, s2);
    var q, r := s2 / 0x1_0000, s2 % 0x1_0000;
    assert s1 % 0x1_0000 + s2 * 0x1_0000 == s1 % 0x1_0000 + r * 0x1_0000 + q * 0x1_0000_0000;
  }

  /** The packed bucket equals the unpacked one. */
  lemma {:induction false} PackedBucket(s1: u32, s2: u32)
    ensures StateBucket(StatePack(s1, s2)) == BucketTraditional(s1, s2)
  {
    StateHalves(s1, s2);
    var st := StatePack(s1, s2);
    LowBits64(st + s2);
    Multiple16(s1 + s2, s2 * 0x1_0000);
    assert st + s2 == s1 + s2 + s2 * 0x1_0000 * 0x1_0000;
    LowBits32(s1 + s2);
  }

  lemma LowBits64(x: nat)
    ensures x % 0x1_0000_0000_0000_0000 % 0x1_0000 == x % 0x1_0000
  {
    var y := x / 0x1_0000_0000_0000_0000;
    Multiple16(x - y * 0x1_0000_0000_0000_0000, y * 0x1_0000_0000_0000);
  }

  lemma LowBits32(x: nat)
    ensures Wrap32(x) % 0x1_0000 == x % 0x1_0000
  {
    var y := x / 0x1_0000_0000;
    Multiple16(x - y * 0x1_0000_0000, y * 0x1_0000);
  }

  lemma Multiple16(x: int, m: int)
    ensures (x + m * 0x1_0000) % 0x1_0000 == x % 0x1_0000
  {
  }

  /** A window falls into the bucket its weak value got when the table was built. */
  lemma BuildBucket(s1: u32, s2: u32)
    ensures BucketOfWeak(WeakValue(s1, s2)) == BucketTraditional(s1, s2)
  {
    hide Wrap32;
    var r1, r2, q := s1 % 0x1_0000, s2 % 0x1_0000, s1 / 0x1_0000 + s2 / 0x1_0000;
    WeakHalves(s1, s2);
    LowBits32(s1 + s2);
    assert s1 + s2 == r1 + r2 + q * 0x1_0000;
    Multiple16(r1 + r2, q);
  }

  lemma WeakHalves(s1: u32, s2: u32)
    ensures WeakValue(s1, s2) % 0x1_0000 == s1 % 0x1_0000
    ensures WeakValue(s1, s2) / 0x1_0000 == s2 % 0x1_0000
  {
  }

  // ---- block size ----

  function SqrtFloor(n: nat): (r: nat)
    ensures r * r <= n < (r + 1) * (r + 1)
  {
    if n == 0 then 0 else
      var r := SqrtFloor(n - 1);
      if (r + 1) * (r + 1) <= n then
        assert (r + 2) * (r + 2) == (r + 1) * (r + 1) + 2 * r + 3;
        r + 1
      else r
  }

  lemma SqrtMonotone(a: nat, b: nat, n: nat)
    requires a * a <= n < (b + 1) * (b + 1)
    ensures a <= b
  {
    if a >= b + 1 {
      Squares(b + 1, a);
    }
  }

  lemma Squares(a: nat, b: nat)
    requires a <= b
    ensures a * a <= b * b
  {
  }

  /** `midpoint(x, n / x)`; both arguments are at most n, so it cannot overflow. */
  function NewtonNext(n: nat, x: nat): nat
    requires x >= 1
  {
    (x + n / x) / 2
  }

  /** One Newton step from any positive x never undershoots the root. */
  lemma {:induction false} NewtonStep(n: nat, x: nat)
    requires x >= 1
    ensures var y := NewtonNext(n, x); n < (y + 1) * (y + 1) && (n >= 1 ==> y >= 1)
  {
    var q := n / x;
    assert n == q * x + n % x;
    AboveRoot(n, x, q, (x + q) / 2);
  }

  lemma {:induction false} AboveRoot(n: nat, x: nat, q: nat, y: nat)
    requires n < q * x + x && 2 * y + 1 >= x + q
    ensures n < (y + 1) * (y + 1) && (n >= 1 ==> y >= 1)
  {
    var s, d := x + q + 1, x - (q + 1);
    SquareIdentity(x, q + 1);
    assert d * d >= 0;
    Squares(s, 2 * (y + 1));
    FourSquares(y + 1);
    assert q * x + x == x * (q + 1);
  }

  lemma SquareIdentity(a: int, b: int)
    ensures (a + b) * (a + b) == (a - b) * (a - b) + 4 * (a * b)
  {
  }

  lemma FourSquares(a: int)
    ensures (2 * a) * (2 * a) == 4 * (a * a)
  {
  }

  /** The loop stops at a floor of the root. */
  lemma NewtonDone(n: nat, x: nat)
    requires x >= 1 && NewtonNext(n, x) >= x
    ensures x * x <= n
  {
    var q := n / x;
    assert q >= x;
    assert n == q * x + n % x;
    assert q * x >= x * x;
  }

  lemma SqrtUnique(n: nat, r: nat)
    requires r * r <= n < (r + 1) * (r + 1)
    ensures r == SqrtFloor(n)
  {
    SqrtMonotone(SqrtFloor(n), r, n);
    SqrtMonotone(r, SqrtFloor(n), n);
  }

  lemma Start(n: nat)
    requires n >= 2
    ensures n < (n + 1) * (n + 1) && NewtonNext(n, n) == (n + 1) / 2
  {
    assert (n + 1) * (n + 1) == n * n + 2 * n + 1;
    assert n / n == 1;
  }

  /** Newton's loop: the exact floor of the root. Every intermediate value is a
      u64, so `midpoint` and `div_ceil` never overflow. */
  method Isqrt(n: u64) returns (r: u64)
    ensures r == SqrtFloor(n)
  {
    if n < 2 {
      SqrtUnique(n, n);
      return n;
    }
    var x: nat, y: nat := n, (n + 1) / 2;
    Start(n);
    while y < x
      invariant 1 <= x <= n && n < (x + 1) * (x + 1)
      invariant y == NewtonNext(n, x)
      decreases x
    {
      NewtonStep(n, x);
      x := y;
      y := NewtonNext(n, x);
    }
    NewtonDone(n, x);
    SqrtUnique(n, x);
    r := x;
  }

  const BLOCK_MIN: nat := 700
  const BLOCK_MAX: nat := 32 * 1024

  function Clamp(x: nat, lo: nat, hi: nat): nat
    requires lo <= hi
  {
    if x < lo then lo else if x > hi then hi else x
  }

  function BlockSizeOf(fileSize: nat): nat {
    Clamp(SqrtFloor(fileSize) / 8 * 8, BLOCK_MIN, BLOCK_MAX)
  }

  method BlockSize(fileSize: u64) returns (block: nat)
    ensures block == BlockSizeOf(fileSize)
  {
    var root := Isqrt(fileSize);
    block := Clamp(root / 8 * 8, BLOCK_MIN, BLOCK_MAX);
  }

  /** The block size grows with the file, stays within [700, 32768], and between
      the clamps is the largest multiple of 8 whose square fits the file size. */
  lemma {:induction false} BlockSizeShape(a: nat, b: nat)
    requires a <= b
    ensures BLOCK_MIN <= BlockSizeOf(a) <= BlockSizeOf(b) <= BLOCK_MAX
    ensures BLOCK_MIN < BlockSizeOf(a) < BLOCK_MAX ==>
      && BlockSizeOf(a) % 8 == 0
      && BlockSizeOf(a) * BlockSizeOf(a) <= a < (BlockSizeOf(a) + 8) * (BlockSizeOf(a) + 8)
    ensures BlockSizeOf(a) == BLOCK_MIN <==> a < 704 * 704
    ensures BlockSizeOf(a) == BLOCK_MAX <==> a >= 32768 * 32768
  {
    AtTheClamps(a);
    hide SqrtFloor, Clamp;
    BlockSizeGrows(a, b);
    RoundedRoot(a, SqrtFloor(a));
    BetweenClamps(SqrtFloor(a));
  }

  lemma {:induction false} BlockSizeGrows(a: nat, b: nat)
    requires a <= b
    ensures BLOCK_MIN <= BlockSizeOf(a) <= BlockSizeOf(b) <= BLOCK_MAX
  {
    hide SqrtFloor;
    SqrtMonotone(SqrtFloor(a), SqrtFloor(b), b);
    Eights(SqrtFloor(a), SqrtFloor(b));
  }

  /** The clamps apply exactly below 704^2 and from 32768^2 on. */
  lemma {:induction false} AtTheClamps(a: nat)
    ensures BlockSizeOf(a) == BLOCK_MIN <==> a < 704 * 704
    ensures BlockSizeOf(a) == BLOCK_MAX <==> a >= 32768 * 32768
  {
    hide SqrtFloor;
    var r := SqrtFloor(a);
    RootReaches(a, r, 704);
    RootReaches(a, r, 32768);
    assert r < 704 ==> r / 8 * 8 <= 696;
    assert r >= 704 ==> r / 8 * 8 >= 704;
    assert r < 32768 ==> r / 8 * 8 <= 32760;
    assert r >= 32768 ==> r / 8 * 8 >= 32768;
  }

  lemma RootReaches(a: nat, r: nat, k: nat)
    requires r * r <= a < (r + 1) * (r + 1)
    ensures r >= k <==> a >= k * k
  {
    if r >= k {
      Squares(k, r);
    } else {
      Squares(r + 1, k);
    }
  }

  lemma Eights(r: nat, s: nat)
    requires r <= s
    ensures r / 8 * 8 <= s / 8 * 8
  {
  }

  lemma BetweenClamps(r: nat)
    ensures var m := r / 8 * 8; BLOCK_MIN < Clamp(m, BLOCK_MIN, BLOCK_MAX) < BLOCK_MAX ==>
      Clamp(m, BLOCK_MIN, BLOCK_MAX) == m && m % 8 == 0
  {
  }

  lemma {:induction false} RoundedRoot(a: nat, r: nat)
    requires r * r <= a < (r + 1) * (r + 1)
    ensures var m := r / 8 * 8; m * m <= a < (m + 8) * (m + 8)
  {
    var m := r / 8 * 8;
    assert m <= r < m + 8;
    Squares(m, r);
    Squares(r + 1, m + 8);
  }
}
