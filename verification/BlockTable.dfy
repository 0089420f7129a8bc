/** The packed head/chain hash table over basis blocks, and its bounded probe. */
module BlockTable {
  import opened Bytes
  import opened Signatures
  import Rollsum

  const MAX_CHAIN_LEN: nat := 1024
  const EMPTY: nat := 0xffff_ffff_ffff_ffff
  const NO_LINK: nat := 0xffff_ffff

  // ---- geometry ----

  datatype Geometry = Geometry(big: bool, size: nat)

  function PowerOfTwoFrom(n: nat, p: nat): (r: nat)
    requires p > 0
    ensures r >= n && r > 0
    decreases n - p
  {
    if p >= n then p else PowerOfTwoFrom(n, 2 * p)
  }

  function Load(count: nat): nat { count / 8 * 10 + 11 }

  /** Traditional 16-bit buckets, or a power-of-two table when they would overload. */
  function GeometryOf(count: nat): (g: Geometry)
    ensures g.size > 0
  {
    Geometry(Load(count) > 0x1_0000, PowerOfTwoFrom(Load(count), 1))
  }

  function Slots(g: Geometry): nat {
    if g.big then g.size else 0x1_0000
  }

  function SlotOf(weak: u32, g: Geometry): (t: nat)
    requires g.size > 0
    ensures t < Slots(g)
  {
    if g.big then weak % g.size else Rollsum.BucketOfWeak(weak)
  }

  // ---- specification: buckets as descending index lists ----

  predicate InSlot(c: ChunkSig, t: nat, g: Geometry)
    requires g.size > 0
  {
    c.weak.Some? && SlotOf(c.weak.value, g) == t
  }

  /** The last block before `n` that falls into slot `t`, or -1. */
  function LastIn(chunks: seq<ChunkSig>, n: nat, t: nat, g: Geometry): (i: int)
    requires n <= |chunks| && g.size > 0
    ensures -1 <= i < n
    ensures i >= 0 ==> InSlot(chunks[i], t, g)
  {
    if n == 0 then -1
    else if InSlot(chunks[n - 1], t, g) then n - 1
    else LastIn(chunks, n - 1, t, g)
  }

  /** The block before `i` in i's bucket, or -1: chain links strictly decrease. */
  function Previous(chunks: seq<ChunkSig>, i: nat, g: Geometry): (p: int)
    requires i < |chunks| && g.size > 0
    ensures -1 <= p < i
  {
    if chunks[i].weak.None? then -1
    else LastIn(chunks, i, SlotOf(chunks[i].weak.value, g), g)
  }

  function Link(p: int): nat
    requires -1 <= p
  {
    if p < 0 then NO_LINK else p
  }

  /** `weak | idx1 << 32 | idx2 << 48` in traditional mode, `weak | idx << 32` in
      big mode; `idx2` is 0xffff exactly when idx1's chain ends. */
  function Entry(chunks: seq<ChunkSig>, n: nat, t: nat, g: Geometry): nat
    requires n <= |chunks| && g.size > 0
  {
    var i := LastIn(chunks, n, t, g);
    if i < 0 then EMPTY
    else PackedEntry(chunks[i].weak.value, i, if g.big then 0 else ShortLink(Previous(chunks, i, g)))
  }

  function PackedEntry(weak: u32, idx: nat, next: nat): nat {
    weak + idx * 0x1_0000_0000 + next * 0x1_0000_0000_0000
  }

  function ShortLink(p: int): nat
    requires -1 <= p
  {
    if p < 0 then 0xffff else p
  }

  /** The table after the first `n` blocks were inserted. */
  ghost predicate Built(chunks: seq<ChunkSig>, n: nat, g: Geometry, head: seq<nat>, chain: seq<nat>)
    requires n <= |chunks| && g.size > 0
  {
    && |head| == Slots(g) && |chain| == |chunks|
    && (forall t | 0 <= t < |head| :: head[t] == Entry(chunks, n, t, g))
    && (forall i | 0 <= i < n :: chain[i] == Link(Previous(chunks, i, g)))
    && (forall i | n <= i < |chain| :: chain[i] == NO_LINK)
  }

  // ---- building ----

  /** Decoding a packed entry gives back its parts. */
  lemma Unpack(weak: u32, idx: nat, next: nat)
    requires idx < 0x1_0000
    ensures var e := PackedEntry(weak, idx, next);
      && e % 0x1_0000_0000 == weak
      && e / 0x1_0000_0000 % 0x1_0000 == idx
      && e / 0x1_0000_0000_0000 == next
  {
    var e := PackedEntry(weak, idx, next);
    var up := idx + next * 0x1_0000;
    assert e == weak + up * 0x1_0000_0000;
    assert e / 0x1_0000_0000 == up && e % 0x1_0000_0000 == weak;
    assert e / 0x1_0000_0000_0000 == up / 0x1_0000;
  }

  lemma UnpackBig(weak: u32, idx: nat)
    ensures var e := PackedEntry(weak, idx, 0);
      && e % 0x1_0000_0000 == weak && e / 0x1_0000_0000 == idx
      && e / 0x1_0000_0000_0000 == idx / 0x1_0000
  {
    var e := PackedEntry(weak, idx, 0);
    assert e / 0x1_0000_0000 == idx;
    assert e / 0x1_0000_0000_0000 == idx / 0x1_0000;
  }

  /** Traditional mode holds at most 52423 blocks, so block indices fit 16 bits
      and never collide with the end marker 0xffff. */
  lemma TraditionalCount(count: nat)
    ensures !GeometryOf(count).big <==> count <= 52423
  {
  }

  /** Inserting block n changes its own slot only. */
  lemma EntryStep(chunks: seq<ChunkSig>, n: nat, t: nat, g: Geometry)
    requires n < |chunks| && g.size > 0
    ensures !InSlot(chunks[n], t, g) ==> Entry(chunks, n + 1, t, g) == Entry(chunks, n, t, g)
    ensures InSlot(chunks[n], t, g) ==> LastIn(chunks, n + 1, t, g) == n
    ensures InSlot(chunks[n], t, g) ==> Previous(chunks, n, g) == LastIn(chunks, n, t, g)
  {
  }

  /** What the code reads out of the old head entry: the bucket's first index. */
  lemma OldFirst(chunks: seq<ChunkSig>, n: nat, t: nat, g: Geometry)
    requires n < |chunks| <= 0xffff_ffff && g == GeometryOf(|chunks|)
    ensures var e := Entry(chunks, n, t, g); var p := LastIn(chunks, n, t, g);
      var first := e / 0x1_0000_0000 % 0x1_0000;
      && (g.big ==> (if e == EMPTY then NO_LINK else e / 0x1_0000_0000) == Link(p))
      && (!g.big ==> first == ShortLink(p) && (if first == 0xffff then NO_LINK else first) == Link(p))
  {
    var p := LastIn(chunks, n, t, g);
    TraditionalCount(|chunks|);
    if p >= 0 {
      if g.big {
        UnpackBig(chunks[p].weak.value, p);
      } else {
        Unpack(chunks[p].weak.value, p, ShortLink(Previous(chunks, p, g)));
      }
    }
  }

  /** Build the table: head entries packed, chains LIFO. */
  method BuildTable(chunks: seq<ChunkSig>) returns (g: Geometry, head: array<nat>, chain: array<nat>)
    requires |chunks| <= 0xffff_ffff
    ensures fresh(head) && fresh(chain)
    ensures g == GeometryOf(|chunks|) && Built(chunks, |chunks|, g, head[..], chain[..])
  {
    hide SlotOf, GeometryOf;
    var count := |chunks|;
    g := GeometryOf(count);
    head := new nat[Slots(g)](_ => EMPTY);
    chain := new nat[count](_ => NO_LINK);
    for i := 0 to count
      invariant head.Length == Slots(g) && chain.Length == count
      invariant Built(chunks, i, g, head[..], chain[..])
    {
      ghost var heads, links := head[..], chain[..];
      if chunks[i].weak.Some? {
        var weak := chunks[i].weak.value;
        var t := SlotOf(weak, g);
        var old' := head[t];
        assert old' == heads[t];
        OldFirst(chunks, i, t, g);
        if g.big {
          chain[i] := if old' == EMPTY then NO_LINK else old' / 0x1_0000_0000;
          head[t] := PackedEntry(weak, i, 0);
        } else {
          var oldFirst := old' / 0x1_0000_0000 % 0x1_0000;
          chain[i] := if oldFirst == 0xffff then NO_LINK else oldFirst;
          head[t] := PackedEntry(weak, i, oldFirst);
        }
        assert head[..] == heads[t := head[t]] && chain[..] == links[i := chain[i]];
        Inserted(chunks, i, t, g, heads, links, head[t], chain[i]);
      } else {
        NotInserted(chunks, i, g, heads, links);
      }
    }
  }

  /** Inserting block i: the new head entry packs it in front of its bucket. */
  lemma Inserted(
    chunks: seq<ChunkSig>, i: nat, t: nat, g: Geometry, head: seq<nat>, chain: seq<nat>, e: nat, link: nat)
    requires i < |chunks| <= 0xffff_ffff && g == GeometryOf(|chunks|)
    requires Built(chunks, i, g, head, chain)
    requires chunks[i].weak.Some? && t == SlotOf(chunks[i].weak.value, g)
    requires var p := LastIn(chunks, i, t, g);
      && link == Link(p)
      && e == PackedEntry(chunks[i].weak.value, i, if g.big then 0 else ShortLink(p))
    ensures Built(chunks, i + 1, g, head[t := e], chain[i := link])
  {
    hide SlotOf, GeometryOf;
    EntryStep(chunks, i, t, g);
    assert Entry(chunks, i + 1, t, g) == e;
    OtherSlots(chunks, i, t, g, head);
  }

  lemma NotInserted(chunks: seq<ChunkSig>, i: nat, g: Geometry, head: seq<nat>, chain: seq<nat>)
    requires i < |chunks| && g.size > 0 && chunks[i].weak.None?
    requires Built(chunks, i, g, head, chain)
    ensures Built(chunks, i + 1, g, head, chain)
  {
    NoSlots(chunks, i, g);
  }

  lemma OtherSlots(chunks: seq<ChunkSig>, n: nat, t: nat, g: Geometry, head: seq<nat>)
    requires n < |chunks| && g.size > 0 && InSlot(chunks[n], t, g)
    requires forall s | 0 <= s < |head| :: head[s] == Entry(chunks, n, s, g)
    ensures forall s | 0 <= s < |head| && s != t :: head[s] == Entry(chunks, n + 1, s, g)
  {
    forall s | 0 <= s < |head| && s != t
      ensures head[s] == Entry(chunks, n + 1, s, g)
    {
      EntryStep(chunks, n, s, g);
    }
  }

  lemma NoSlots(chunks: seq<ChunkSig>, n: nat, g: Geometry)
    requires n < |chunks| && g.size > 0 && chunks[n].weak.None?
    ensures forall s: nat :: Entry(chunks, n, s, g) == Entry(chunks, n + 1, s, g)
  {
  }

  // ---- probing ----

  predicate Candidate(c: ChunkSig, sum: u32, k: nat) {
    c.len == k && c.weak == Some(sum)
  }

  /** Walk a bucket from block `i` down its chain: the first candidate with the
      digest, giving up after `left` candidates. */
  function Walk(chunks: seq<ChunkSig>, g: Geometry, i: int, sum: u32, k: nat, digest: Digest, left: nat)
    : Option<nat>
    requires -1 <= i < |chunks| && g.size > 0
    decreases i + 1
  {
    if i < 0 then None
    else if Candidate(chunks[i], sum, k) then
      if left == 0 then None
      else if chunks[i].strong == digest then Some(i)
      else Walk(chunks, g, Previous(chunks, i, g), sum, k, digest, left - 1)
    else Walk(chunks, g, Previous(chunks, i, g), sum, k, digest, left)
  }

  /** The probe terminates (links strictly decrease) and computes the walk; the
      strong hash is computed at most once. */
  method ProbeBucket(
    chunks: seq<ChunkSig>, first: nat, chain: array<nat>, sum: u32, k: nat, window: seq<byte>, h: Hash,
    ghost g: Geometry, ghost head: seq<nat>) returns (m: Option<nat>)
    requires g.size > 0 && |chunks| <= 0xffff_ffff && Built(chunks, |chunks|, g, head, chain[..])
    requires first < |chunks|
    ensures m == Walk(chunks, g, first, sum, k, h(window), MAX_CHAIN_LEN)
  {
    hide SlotOf;
    var i: nat := first;
    var chainLen := 0;
    var strong: Option<Digest> := None;
    while i != NO_LINK
      invariant i == NO_LINK || i < |chunks|
      invariant chainLen <= MAX_CHAIN_LEN && (strong.Some? ==> strong.value == h(window))
      invariant Walk(chunks, g, first, sum, k, h(window), MAX_CHAIN_LEN)
             == Walk(chunks, g, if i == NO_LINK then -1 else i, sum, k, h(window), MAX_CHAIN_LEN - chainLen)
      decreases if i == NO_LINK then 0 else i + 1
    {
      if chunks[i].len == k && chunks[i].weak == Some(sum) {
        chainLen := chainLen + 1;
        if chainLen > MAX_CHAIN_LEN {
          return None;
        }
        if strong.None? {
          strong := Some(h(window));
        }
        if strong.value == chunks[i].strong {
          return Some(i);
        }
      }
      assert chain[..][i] == Link(Previous(chunks, i, g));
      i := chain[i];
    }
    return None;
  }

  // ---- the independent definition: a linear search ----

  /** Among all blocks below `n`, newest first, the first candidate with the
      digest, giving up after `left` candidates. */
  function LinearFind(chunks: seq<ChunkSig>, n: nat, sum: u32, k: nat, digest: Digest, left: nat): Option<nat>
    requires n <= |chunks|
  {
    if n == 0 then None
    else if Candidate(chunks[n - 1], sum, k) then
      if left == 0 then None
      else if chunks[n - 1].strong == digest then Some(n - 1)
      else LinearFind(chunks, n - 1, sum, k, digest, left - 1)
    else LinearFind(chunks, n - 1, sum, k, digest, left)
  }

  /** Hashing into buckets loses nothing: walking the bucket of `sum` is the
      linear search over the whole block list. */
  lemma {:induction false} BucketWalkIsLinearSearch(
    chunks: seq<ChunkSig>, g: Geometry, n: nat, sum: u32, k: nat, digest: Digest, left: nat)
    requires n <= |chunks| && g.size > 0
    ensures Walk(chunks, g, LastIn(chunks, n, SlotOf(sum, g), g), sum, k, digest, left)
         == LinearFind(chunks, n, sum, k, digest, left)
  {
    hide SlotOf;
    if n > 0 {
      BucketWalkIsLinearSearch(chunks, g, n - 1, sum, k, digest, left);
      if left > 0 {
        BucketWalkIsLinearSearch(chunks, g, n - 1, sum, k, digest, left - 1);
      }
    }
  }

  /** Whatever a walk returns is a candidate with the digest. */
  lemma {:induction false} WalkSound(
    chunks: seq<ChunkSig>, g: Geometry, i: int, sum: u32, k: nat, digest: Digest, left: nat)
    requires -1 <= i < |chunks| && g.size > 0
    ensures var m := Walk(chunks, g, i, sum, k, digest, left);
      m.Some? ==> m.value <= i && Candidate(chunks[m.value], sum, k) && chunks[m.value].strong == digest
    decreases i + 1
  {
    hide SlotOf;
    if i >= 0 {
      WalkSound(chunks, g, Previous(chunks, i, g), sum, k, digest, left);
      if left > 0 {
        WalkSound(chunks, g, Previous(chunks, i, g), sum, k, digest, left - 1);
      }
    }
  }

  /** How many candidates lie in `chunks[from..n]`. */
  function Candidates(chunks: seq<ChunkSig>, from: nat, n: nat, sum: u32, k: nat): nat
    requires from <= n <= |chunks|
    decreases n
  {
    if from == n then 0
    else Candidates(chunks, from, n - 1, sum, k) + if Candidate(chunks[n - 1], sum, k) then 1 else 0
  }

  /** Exactly when the linear search finds the digest: some candidate carries it
      and fewer than `left` candidates precede that one in probe order. */
  lemma {:induction false} LinearFindExact(
    chunks: seq<ChunkSig>, n: nat, sum: u32, k: nat, digest: Digest, left: nat)
    requires n <= |chunks|
    ensures LinearFind(chunks, n, sum, k, digest, left).Some? <==>
      exists j :: 0 <= j < n && Candidate(chunks[j], sum, k) && chunks[j].strong == digest
        && Candidates(chunks, j + 1, n, sum, k) < left
  {
    if n > 0 {
      LinearFindExact(chunks, n - 1, sum, k, digest, left);
      if left > 0 {
        LinearFindExact(chunks, n - 1, sum, k, digest, left - 1);
      }
      if Candidate(chunks[n - 1], sum, k) && left > 0 && chunks[n - 1].strong == digest {
        assert Candidates(chunks, n, n, sum, k) == 0;
      }
    }
  }

  // ---- the two lookups of the engine ----

  /** The scan's lookup: the bucket's head entry decides from its own fields
      whether to walk, and the walk starts at the index masked to 16 bits. */
  function ScanFind(chunks: seq<ChunkSig>, window: seq<byte>, h: Hash): Option<nat> {
    var g := GeometryOf(|chunks|);
    var sum := Rollsum.WeakOf(window);
    var i := LastIn(chunks, |chunks|, SlotOf(sum, g), g);
    if i < 0 then None else FindFrom(chunks, g, i, sum, |window|, h(window))
  }

  /** ... from the newest block `i` of the bucket. */
  function FindFrom(chunks: seq<ChunkSig>, g: Geometry, i: nat, sum: u32, k: nat, digest: Digest): Option<nat>
    requires i < |chunks| && chunks[i].weak.Some? && g.size > 0
  {
    if g.big && chunks[i].weak.value != sum && i / 0x1_0000 == 0xffff then None
    else Walk(chunks, g, if g.big then i % 0x1_0000 else i, sum, k, digest, MAX_CHAIN_LEN)
  }

  /** The end-of-file lookup starts at the unmasked index. */
  function TailFind(chunks: seq<ChunkSig>, window: seq<byte>, h: Hash): Option<nat> {
    LinearFind(chunks, |chunks|, Rollsum.WeakOf(window), |window|, h(window), MAX_CHAIN_LEN)
  }

  /** Skipping the walk on `hweak != sum && idx2 == 0xffff` loses nothing in
      traditional mode: the bucket holds one block, and it is no candidate. */
  lemma SkipIsMiss(chunks: seq<ChunkSig>, g: Geometry, i: nat, sum: u32, k: nat, digest: Digest)
    requires g.size > 0 && i < |chunks| && chunks[i].weak.Some?
    requires chunks[i].weak.value != sum && Previous(chunks, i, g) < 0
    ensures Walk(chunks, g, i, sum, k, digest, MAX_CHAIN_LEN) == None
  {
    assert Walk(chunks, g, -1, sum, k, digest, MAX_CHAIN_LEN) == None;
  }

  lemma NoWalk(chunks: seq<ChunkSig>, g: Geometry, sum: u32, k: nat, digest: Digest)
    requires g.size > 0
    ensures Walk(chunks, g, -1, sum, k, digest, MAX_CHAIN_LEN) == None
  {
  }

  /** Up to 65536 blocks (all of traditional mode and the start of big mode) the
      scan's lookup is the linear search over all blocks. */
  lemma ScanFindComplete(chunks: seq<ChunkSig>, window: seq<byte>, h: Hash)
    requires |chunks| <= 0x1_0000
    ensures ScanFind(chunks, window, h) == TailFind(chunks, window, h)
  {
    hide SlotOf, GeometryOf, Walk, LinearFind, LastIn;
    var g, sum := GeometryOf(|chunks|), Rollsum.WeakOf(window);
    var i := LastIn(chunks, |chunks|, SlotOf(sum, g), g);
    BucketWalkIsLinearSearch(chunks, g, |chunks|, sum, |window|, h(window), MAX_CHAIN_LEN);
    NoWalk(chunks, g, sum, |window|, h(window));
    if i >= 0 {
      assert i / 0x1_0000 == 0 && i % 0x1_0000 == i;
    }
  }

  /** The miss itself: behind at least 65536 blocks of weak value zero, a block with
      another weak value is not found, because the 16-bit mask sends the walk into
      their bucket. */
  lemma {:induction false} MaskedMiss(chunks: seq<ChunkSig>, n: nat, window: seq<byte>, h: Hash)
    requires n >= 0x1_0000 && |chunks| == n + 1 && Rollsum.WeakOf(window) != 0
    requires forall i | 0 <= i < n :: chunks[i].weak == Some(0)
    requires Candidate(chunks[n], Rollsum.WeakOf(window), |window|) && chunks[n].strong == h(window)
    ensures ScanFind(chunks, window, h) == None && TailFind(chunks, window, h) == Some(n)
  {
    hide GeometryOf;
    var sum := Rollsum.WeakOf(window);
    TraditionalCount(n + 1);
    var g := GeometryOf(n + 1);
    assert InSlot(chunks[n], SlotOf(sum, g), g);
    assert LastIn(chunks, n + 1, SlotOf(sum, g), g) == n;
    WalkSound(chunks, g, n % 0x1_0000, sum, |window|, h(window), MAX_CHAIN_LEN);
  }

  /** `n` blocks of zeros and one more block. */
  function ZerosThen(n: nat, window: seq<byte>): seq<byte> {
    Zeros(n * |window|) + window
  }

  lemma {:induction false} ZerosSums(k: nat)
    ensures Rollsum.Sum(Zeros(k)) == 0 && Rollsum.WeightedSum(Zeros(k)) == 0
  {
    if k > 0 {
      var w := Zeros(k);
      assert w[1..] == Zeros(k - 1) && w[0] == 0;
      ZerosSums(k - 1);
      assert |w| * w[0] == 0;
    }
  }

  lemma ZerosWeak(k: nat)
    ensures Rollsum.WeakOf(Zeros(k)) == 0
  {
    hide Rollsum.Sum, Rollsum.WeightedSum, Zeros;
    ZerosSums(k);
  }

  lemma {:induction false} OneThenZerosWeak(k: nat)
    requires k > 0
    ensures Rollsum.WeakOf([1] + Zeros(k - 1)) % 0x1_0000 == 1
  {
    var w: seq<byte> := [1] + Zeros(k - 1);
    assert w[1..] == Zeros(k - 1);
    ZerosSums(k - 1);
    assert Rollsum.Sum(w) == 1;
    hide Rollsum.WeightedSum, Rollsum.Sum;
  }

  lemma NextMultiple(n: nat, k: nat)
    ensures (n + 1) * k == n * k + k
  {
  }

  lemma {:induction false} MultiplesOrdered(i: nat, n: nat, k: nat)
    requires i <= n
    ensures i * k <= n * k
    decreases n - i
  {
    if i < n {
      NextMultiple(n - 1, k);
      MultiplesOrdered(i, n - 1, k);
    }
  }

  lemma {:induction false} Multiples(i: nat, n: nat, k: nat)
    ensures i <= n ==> i * k <= n * k
    ensures i < n ==> i * k + k <= n * k
    ensures k > 0 && n * k < i * k + k && i * k < n * k + k ==> i == n
  {
    NextMultiple(i, k);
    NextMultiple(n, k);
    if i <= n {
      MultiplesOrdered(i, n, k);
      if i < n {
        MultiplesOrdered(i + 1, n, k);
      }
    } else {
      MultiplesOrdered(n + 1, i, k);
    }
  }

  /** The signature of that file: every block but the last has weak value zero. */
  lemma {:induction false} ZerosThenTile(n: nat, window: seq<byte>, h: Hash)
    requires window != []
    ensures var k := |window|; var t := Tile(ZerosThen(n, window), 0, k, h);
      && |t| == n + 1
      && (forall i | 0 <= i < n :: t[i].len == k && t[i].weak == Some(0) && t[i].strong == h(Zeros(k)))
      && Candidate(t[n], Rollsum.WeakOf(window), k) && t[n].strong == h(window)
  {
    hide Tile, Rollsum.WeakOf;
    var k, f := |window|, ZerosThen(n, window);
    var t := Tile(f, 0, k, h);
    TileNotEmpty(f, k, h);
    var last := |t| - 1;
    TileShape(f, 0, k, h, last);
    TileOffset(f, k, h, last);
    assert |f| == n * k + k;
    Multiples(last, n, k);
    assert f[n * k..n * k + k] == window;
    ZerosWeak(k);
    forall i | 0 <= i < n
      ensures t[i].len == k && t[i].weak == Some(0) && t[i].strong == h(Zeros(k))
    {
      TileShape(f, 0, k, h, i);
      TileOffset(f, k, h, i);
      Multiples(i, n, k);
      assert f[i * k..i * k + k] == Zeros(k);
    }
  }

  lemma NotEmpty(window: seq<byte>)
    requires Rollsum.WeakOf(window) != 0
    ensures window != []
  {
    ZerosWeak(0);
    assert Zeros(0) == [];
  }

  lemma TileNotEmpty(data: seq<byte>, block: nat, h: Hash)
    requires block > 0 && data != []
    ensures Tile(data, 0, block, h) != []
  {
  }

  /** Beyond 65536 blocks the scan's lookup is not complete: for every such count some
      file has a signature of that many blocks in which the scan misses the file's own
      last block. */
  lemma ScanFindIncomplete(n: nat, window: seq<byte>, h: Hash)
    requires n >= 0x1_0000 && Rollsum.WeakOf(window) != 0
    ensures window != [] && |Tile(ZerosThen(n, window), 0, |window|, h)| == n + 1
    ensures var chunks := Tile(ZerosThen(n, window), 0, |window|, h);
      ScanFind(chunks, window, h) == None && TailFind(chunks, window, h) == Some(n)
  {
    NotEmpty(window);
    ZerosThenTile(n, window, h);
    MaskedMiss(Tile(ZerosThen(n, window), 0, |window|, h), n, window, h);
  }

  /** Both lookups are sound. */
  lemma {:induction false} FindsSound(chunks: seq<ChunkSig>, window: seq<byte>, h: Hash)
    ensures var m := ScanFind(chunks, window, h);
      m.Some? ==> m.value < |chunks| && Candidate(chunks[m.value], Rollsum.WeakOf(window), |window|)
                  && chunks[m.value].strong == h(window)
    ensures var m := TailFind(chunks, window, h);
      m.Some? ==> m.value < |chunks| && Candidate(chunks[m.value], Rollsum.WeakOf(window), |window|)
                  && chunks[m.value].strong == h(window)
  {
    hide SlotOf, GeometryOf, Walk, LinearFind, LastIn;
    var g, sum := GeometryOf(|chunks|), Rollsum.WeakOf(window);
    var i := LastIn(chunks, |chunks|, SlotOf(sum, g), g);
    BucketWalkIsLinearSearch(chunks, g, |chunks|, sum, |window|, h(window), MAX_CHAIN_LEN);
    WalkSound(chunks, g, i, sum, |window|, h(window), MAX_CHAIN_LEN);
    if i >= 0 {
      assert 0 <= i % 0x1_0000 <= i;
      WalkSound(chunks, g, i % 0x1_0000, sum, |window|, h(window), MAX_CHAIN_LEN);
    }
  }
}
