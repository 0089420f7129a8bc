/** Cross-file basis pairing: an index of earlier plan entries by file stem, and
    its agreement with the linear scan it replaces. */
module BasisIndex {
  import opened Bytes

  const CROSS_BASIS_MIN: nat := 1024 * 1024

  /** Parent directory, extension and stem of a wire path. */
  datatype StemKey = StemKey(parent: string, ext: Option<string>, stem: string)

  datatype StemEntry = StemEntry(size: nat, rel: string)

  /** How a path splits into its key; only the pairing rule looks inside. */
  type KeyOf = string -> StemKey

  // ---- specification: the linear scan ----

  /** The pairing rule: same parent and extension, one stem a proper nonempty
      prefix of the other, sizes within a factor of two. */
  predicate Pairs(a: StemKey, sizeA: nat, b: StemKey, sizeB: nat) {
    && a.parent == b.parent && a.ext == b.ext
    && (ProperPrefix(a.stem, b.stem) || ProperPrefix(b.stem, a.stem))
    && Within2x(sizeA, sizeB)
  }

  predicate ProperPrefix(a: string, b: string) {
    0 < |a| < |b| && b[..|a|] == a
  }

  predicate Within2x(a: nat, b: nat) {
    if a <= b then b <= 2 * a else a <= 2 * b
  }

  function Diff(a: nat, b: nat): nat {
    if a <= b then b - a else a - b
  }

  // ---- specification: what the two maps hold ----

  type Index = map<StemKey, seq<StemEntry>>

  function Bucket(m: Index, k: StemKey): seq<StemEntry> {
    if k in m then m[k] else []
  }

  predicate Registered(e: StemEntry) {
    e.size >= CROSS_BASIS_MIN / 2
  }

  /** The entries a test picks, in plan order. */
  function Where(prior: seq<StemEntry>, pick: StemEntry -> bool): seq<StemEntry> {
    if prior == [] then []
    else Where(prior[..|prior| - 1], pick) + (if pick(prior[|prior| - 1]) then [prior[|prior| - 1]] else [])
  }

  function HasKey(keyOf: KeyOf, k: StemKey): StemEntry -> bool {
    e => Registered(e) && keyOf(e.rel) == k
  }

  function HasLonger(keyOf: KeyOf, k: StemKey): StemEntry -> bool {
    e => Registered(e) && Extends(keyOf(e.rel), k)
  }

  /** Each bucket holds exactly the earlier registered entries with that key, in plan
      order. */
  ghost predicate StemsOf(m: Index, prior: seq<StemEntry>, keyOf: KeyOf) {
    forall k :: Bucket(m, k) == Where(prior, HasKey(keyOf, k))
  }

  /** ... or with a stem that properly extends the key's. */
  ghost predicate ExtendsOf(m: Index, prior: seq<StemEntry>, keyOf: KeyOf) {
    forall k :: Bucket(m, k) == Where(prior, HasLonger(keyOf, k))
  }

  predicate Extends(long: StemKey, short: StemKey) {
    long.parent == short.parent && long.ext == short.ext && ProperPrefix(short.stem, long.stem)
  }

  // ---- registering ----

  lemma WhereSnoc(prior: seq<StemEntry>, e: StemEntry, pick: StemEntry -> bool)
    ensures Where(prior + [e], pick) == Where(prior, pick) + (if pick(e) then [e] else [])
  {
    assert (prior + [e])[..|prior|] == prior;
  }

  lemma SmallDropped(stems: Index, extending: Index, prior: seq<StemEntry>, e: StemEntry, keyOf: KeyOf)
    requires StemsOf(stems, prior, keyOf) && ExtendsOf(extending, prior, keyOf) && !Registered(e)
    ensures StemsOf(stems, prior + [e], keyOf) && ExtendsOf(extending, prior + [e], keyOf)
  {
    hide Bucket, Where;
    forall k
      ensures Bucket(stems, k) == Where(prior + [e], HasKey(keyOf, k))
      ensures Bucket(extending, k) == Where(prior + [e], HasLonger(keyOf, k))
    {
      WhereSnoc(prior, e, HasKey(keyOf, k));
      WhereSnoc(prior, e, HasLonger(keyOf, k));
    }
  }

  lemma StemFiled(stems: Index, prior: seq<StemEntry>, e: StemEntry, keyOf: KeyOf)
    requires StemsOf(stems, prior, keyOf) && Registered(e)
    ensures var k := keyOf(e.rel); StemsOf(stems[k := Bucket(stems, k) + [e]], prior + [e], keyOf)
  {
    hide Where;
    var at := keyOf(e.rel);
    var stems' := stems[at := Bucket(stems, at) + [e]];
    forall k
      ensures Bucket(stems', k) == Where(prior + [e], HasKey(keyOf, k))
    {
      WhereSnoc(prior, e, HasKey(keyOf, k));
      assert Bucket(stems, k) == Where(prior, HasKey(keyOf, k));
    }
  }

  /** `m` is `base` with `e` added under the proper prefixes of its stem shorter than `i`. */
  ghost predicate ExtendedBelow(m: Index, base: Index, e: StemEntry, key: StemKey, i: nat) {
    forall k :: Bucket(m, k) == Bucket(base, k) + (if Extends(key, k) && |k.stem| < i then [e] else [])
  }

  lemma NothingExtended(base: Index, e: StemEntry, key: StemKey)
    ensures ExtendedBelow(base, base, e, key, 1)
  {
  }

  lemma ExtendedStep(m: Index, base: Index, e: StemEntry, key: StemKey, i: nat)
    requires ExtendedBelow(m, base, e, key, i) && 1 <= i < |key.stem|
    ensures var k := StemKey(key.parent, key.ext, key.stem[..i]);
      ExtendedBelow(m[k := Bucket(m, k) + [e]], base, e, key, i + 1)
  {
    var at := StemKey(key.parent, key.ext, key.stem[..i]);
    var m' := m[at := Bucket(m, at) + [e]];
    forall k
      ensures Bucket(m', k) == Bucket(base, k) + (if Extends(key, k) && |k.stem| < i + 1 then [e] else [])
    {
      assert Bucket(m, k) == Bucket(base, k) + (if Extends(key, k) && |k.stem| < i then [e] else []);
      assert Extends(key, k) && |k.stem| == i ==> k == at;
      assert Extends(key, at);
    }
  }

  lemma AllExtended(m: Index, base: Index, prior: seq<StemEntry>, e: StemEntry, keyOf: KeyOf, i: nat)
    requires ExtendsOf(base, prior, keyOf) && Registered(e)
    requires ExtendedBelow(m, base, e, keyOf(e.rel), i) && |keyOf(e.rel).stem| <= i
    ensures ExtendsOf(m, prior + [e], keyOf)
  {
    hide Where, Bucket;
    forall k
      ensures Bucket(m, k) == Where(prior + [e], HasLonger(keyOf, k))
    {
      WhereSnoc(prior, e, HasLonger(keyOf, k));
      assert Bucket(base, k) == Where(prior, HasLonger(keyOf, k));
    }
  }

  // ---- the code ----

  /** The two maps of the pairing pass. */
  class BasisMaps {
    const keyOf: KeyOf
    var byStem: Index
    var extending: Index
    ghost var prior: seq<StemEntry>

    ghost predicate Valid()
      reads this
    {
      StemsOf(byStem, prior, keyOf) && ExtendsOf(extending, prior, keyOf)
    }

    constructor (keyOf: KeyOf)
      ensures this.keyOf == keyOf && prior == [] && Valid()
    {
      this.keyOf := keyOf;
      byStem, extending, prior := map[], map[], [];
    }

    /** Entries too small to be anyone's basis are dropped; the rest are filed under
        their own stem and under every proper prefix of it. */
    method Register(rel: string, size: nat)
      requires Valid()
      modifies this
      ensures Valid() && prior == old(prior) + [StemEntry(size, rel)]
    {
      hide StemsOf, ExtendsOf, ExtendedBelow;
      var e := StemEntry(size, rel);
      ghost var before := prior;
      prior := prior + [e];
      if size < CROSS_BASIS_MIN / 2 {
        SmallDropped(byStem, extending, before, e, keyOf);
        return;
      }
      var key := keyOf(rel);
      ghost var base := extending;
      StemFiled(byStem, before, e, keyOf);
      byStem := byStem[key := Bucket(byStem, key) + [e]];
      var i := 1;
      NothingExtended(base, e, key);
      while i < |key.stem|
        invariant 1 <= i && (|key.stem| > 0 ==> i <= |key.stem|)
        invariant prior == before + [e] && StemsOf(byStem, prior, keyOf)
        invariant ExtendedBelow(extending, base, e, key, i)
        decreases |key.stem| - i
      {
        var k := StemKey(key.parent, key.ext, key.stem[..i]);
        ExtendedStep(extending, base, e, key, i);
        extending := extending[k := Bucket(extending, k) + [e]];
        i := i + 1;
      }
      AllExtended(extending, base, before, e, keyOf, i);
    }

    /** The best basis for a candidate: prefix stems first, then extending stems. */
    method Candidate(rel: string, size: nat) returns (best: Option<(string, nat)>)
      requires Valid()
      ensures best == AsPair(BestOf(Considered(byStem, extending, keyOf(rel)), size))
      ensures size >= CROSS_BASIS_MIN ==> LinearChoice(best, prior, keyOf, rel, size)
      ensures size >= CROSS_BASIS_MIN && best.None? ==> forall e | e in prior :: !Siblings(keyOf(rel), size, keyOf(e.rel), e.size)
      ensures size >= CROSS_BASIS_MIN && best.Some? ==>
        && StemEntry(best.value.1, best.value.0) in prior
        && Siblings(keyOf(rel), size, keyOf(best.value.0), best.value.1)
        && forall e | e in prior && Siblings(keyOf(rel), size, keyOf(e.rel), e.size) ::
             Apart(best.value.1, size) <= Apart(e.size, size)
    {
      hide StemsOf, ExtendsOf, LinearChoice;
      var key := keyOf(rel);
      var found: Option<StemEntry> := None;
      var i := 1;
      ghost var seen: seq<StemEntry> := [];
      while i < |key.stem|
        invariant 1 <= i && (|key.stem| > 0 ==> i <= |key.stem|)
        invariant seen == PrefixBuckets(byStem, key, i)
        invariant found == BestOf(seen, size)
        decreases |key.stem| - i
      {
        var bucket := Bucket(byStem, StemKey(key.parent, key.ext, key.stem[..i]));
        found := Consider(found, bucket, size, seen);
        seen := seen + bucket;
        i := i + 1;
      }
      found := Consider(found, Bucket(extending, key), size, seen);
      best := AsPair(found);
      if size >= CROSS_BASIS_MIN {
        IndexIsLinearScan(byStem, extending, prior, keyOf, rel, size);
        ChoiceIsClosest(best, prior, keyOf, rel, size);
      }
    }
  }

  /** Siblings by name and size: the same directory and extension, one nonempty stem a
      proper beginning of the other, neither file more than twice as long as the other. */
  predicate Siblings(a: StemKey, sizeA: nat, b: StemKey, sizeB: nat) {
    && a.parent == b.parent && a.ext == b.ext && a.stem != [] && b.stem != []
    && (a.stem < b.stem || b.stem < a.stem) && sizeA <= 2 * sizeB && sizeB <= 2 * sizeA
  }

  /** How far two sizes are apart. */
  function Apart(a: int, b: int): int {
    if a > b then a - b else b - a
  }

  /** The choice, on names and sizes themselves. */
  lemma ChoiceIsClosest(best: Option<(string, nat)>, prior: seq<StemEntry>, keyOf: KeyOf, rel: string, size: nat)
    requires LinearChoice(best, prior, keyOf, rel, size)
    ensures best.None? ==> forall e | e in prior :: !Siblings(keyOf(rel), size, keyOf(e.rel), e.size)
    ensures best.Some? ==>
      && StemEntry(best.value.1, best.value.0) in prior
      && Siblings(keyOf(rel), size, keyOf(best.value.0), best.value.1)
      && forall e | e in prior && Siblings(keyOf(rel), size, keyOf(e.rel), e.size) ::
           Apart(best.value.1, size) <= Apart(e.size, size)
  {
    hide Siblings, Pairs, Rank;
    forall j | 0 <= j < |prior|
      ensures PairsAt(prior, keyOf, rel, size, j) <==>
        Siblings(keyOf(rel), size, keyOf(prior[j].rel), prior[j].size)
    {
      SiblingsPair(keyOf(rel), size, keyOf(prior[j].rel), prior[j].size);
    }
  }

  lemma SiblingsPair(a: StemKey, sizeA: nat, b: StemKey, sizeB: nat)
    ensures Pairs(a, sizeA, b, sizeB) <==> Siblings(a, sizeA, b, sizeB)
  {
  }

  function AsPair(e: Option<StemEntry>): Option<(string, nat)> {
    if e.Some? then Some((e.value.rel, e.value.size)) else None
  }

  /** The running best: strictly closer in size replaces, ties keep the first. */
  function Better(best: Option<StemEntry>, e: StemEntry, size: nat): Option<StemEntry> {
    if Within2x(size, e.size) && (best.None? || Diff(e.size, size) < Diff(best.value.size, size)) then Some(e) else best
  }

  function BestOf(es: seq<StemEntry>, size: nat): Option<StemEntry> {
    if es == [] then None else Better(BestOf(es[..|es| - 1], size), es[|es| - 1], size)
  }

  method Consider(best: Option<StemEntry>, bucket: seq<StemEntry>, size: nat, ghost seen: seq<StemEntry>)
    returns (best': Option<StemEntry>)
    requires best == BestOf(seen, size)
    ensures best' == BestOf(seen + bucket, size)
  {
    best' := best;
    assert seen + bucket[..0] == seen;
    for i := 0 to |bucket|
      invariant best' == BestOf(seen + bucket[..i], size)
    {
      assert (seen + bucket[..i + 1])[..|seen| + i] == seen + bucket[..i];
      best' := Better(best', bucket[i], size);
    }
    assert bucket[..|bucket|] == bucket;
  }

  /** The prefix buckets in the order they are visited, stems shorter than `n`. */
  function PrefixBuckets(byStem: Index, key: StemKey, n: nat): seq<StemEntry>
    requires |key.stem| > 0 ==> n <= |key.stem|
  {
    if n <= 1 || |key.stem| == 0 then []
    else PrefixBuckets(byStem, key, n - 1) + Bucket(byStem, StemKey(key.parent, key.ext, key.stem[..n - 1]))
  }

  function Considered(byStem: Index, extending: Index, key: StemKey): seq<StemEntry> {
    PrefixBuckets(byStem, key, |key.stem|) + Bucket(extending, key)
  }

  // ---- agreement ----

  function Rank(key: StemKey, other: StemKey): nat {
    if Extends(key, other) then |other.stem| else |key.stem|
  }

  /** The order of preference between two earlier entries: the smaller size difference,
      then the shorter stem among those that are prefixes of the candidate's (every
      other stem after them), then the plan. */
  predicate Before(prior: seq<StemEntry>, keyOf: KeyOf, key: StemKey, size: nat, i: nat, j: nat)
    requires i < |prior| && j < |prior|
  {
    var d, d' := Diff(prior[i].size, size), Diff(prior[j].size, size);
    var r, r' := Rank(key, keyOf(prior[i].rel)), Rank(key, keyOf(prior[j].rel));
    d < d' || (d == d' && (r < r' || (r == r' && i <= j)))
  }

  predicate PairsAt(prior: seq<StemEntry>, keyOf: KeyOf, rel: string, size: nat, j: nat)
    requires j < |prior|
  {
    Pairs(keyOf(rel), size, keyOf(prior[j].rel), prior[j].size)
  }

  /** Entry `i` pairs with the candidate and is preferred to every other that does. */
  ghost predicate Preferred(prior: seq<StemEntry>, keyOf: KeyOf, rel: string, size: nat, i: nat)
    requires i < |prior|
  {
    && PairsAt(prior, keyOf, rel, size, i)
    && forall j | 0 <= j < |prior| && PairsAt(prior, keyOf, rel, size, j) :: Before(prior, keyOf, keyOf(rel), size, i, j)
  }

  /** What scanning every earlier entry would answer: nothing exactly when no entry
      pairs with the candidate, otherwise the preferred one. */
  ghost predicate LinearChoice(
    best: Option<(string, nat)>, prior: seq<StemEntry>, keyOf: KeyOf, rel: string, size: nat)
  {
    match best
    case None => forall j | 0 <= j < |prior| :: !PairsAt(prior, keyOf, rel, size, j)
    case Some(b) =>
      exists i | 0 <= i < |prior| :: prior[i] == StemEntry(b.1, b.0) && Preferred(prior, keyOf, rel, size, i)
  }

  /** Joining two searches keeps the earlier result unless the later one is closer. */
  function Closer(x: Option<StemEntry>, y: Option<StemEntry>, size: nat): Option<StemEntry> {
    if y.None? then x else if x.None? || Diff(y.value.size, size) < Diff(x.value.size, size) then y else x
  }

  lemma {:induction false} BestConcat(a: seq<StemEntry>, b: seq<StemEntry>, size: nat)
    ensures BestOf(a + b, size) == Closer(BestOf(a, size), BestOf(b, size), size)
    ensures BestOf(b, size).Some? ==> Within2x(size, BestOf(b, size).value.size)
  {
    if b == [] {
      assert a + b == a;
    } else {
      var front, last := b[..|b| - 1], b[|b| - 1];
      BestConcat(a, front, size);
      assert (a + b)[..|a| + |b| - 1] == a + front;
    }
  }

  /** Some position holds the first of the closest entries a test picks. */
  ghost predicate FirstClosest(prior: seq<StemEntry>, size: nat, pick: StemEntry -> bool, best: Option<StemEntry>) {
    match best
    case None => forall j | 0 <= j < |prior| && pick(prior[j]) :: !Within2x(size, prior[j].size)
    case Some(b) => exists i | 0 <= i < |prior| :: prior[i] == b && IsFirstClosest(prior, size, pick, i)
  }

  ghost predicate IsFirstClosest(prior: seq<StemEntry>, size: nat, pick: StemEntry -> bool, i: nat)
    requires i < |prior|
  {
    && pick(prior[i]) && Within2x(size, prior[i].size)
    && forall j | 0 <= j < |prior| && pick(prior[j]) && Within2x(size, prior[j].size) ::
         Diff(prior[i].size, size) < Diff(prior[j].size, size)
         || (Diff(prior[i].size, size) == Diff(prior[j].size, size) && i <= j)
  }

  lemma FirstClosestSnoc(
    front: seq<StemEntry>, last: StemEntry, size: nat, pick: StemEntry -> bool, f: Option<StemEntry>)
    requires FirstClosest(front, size, pick, f)
    ensures FirstClosest(front + [last], size, pick, if pick(last) then Better(f, last, size) else f)
  {
    var prior := front + [last];
    assert forall j | 0 <= j < |front| :: prior[j] == front[j];
    if pick(last) && Better(f, last, size) != f {
      if f.Some? {
        var i :| 0 <= i < |front| && front[i] == f.value && IsFirstClosest(front, size, pick, i);
      }
      assert IsFirstClosest(prior, size, pick, |front|);
    } else if f.Some? {
      var i :| 0 <= i < |front| && front[i] == f.value && IsFirstClosest(front, size, pick, i);
      assert IsFirstClosest(prior, size, pick, i);
    }
  }

  lemma {:induction false} BestOfWhere(prior: seq<StemEntry>, size: nat, pick: StemEntry -> bool)
    ensures FirstClosest(prior, size, pick, BestOf(Where(prior, pick), size))
  {
    if prior != [] {
      hide FirstClosest, Better;
      var front, last := prior[..|prior| - 1], prior[|prior| - 1];
      assert prior == front + [last];
      BestOfWhere(front, size, pick);
      FirstClosestSnoc(front, last, size, pick, BestOf(Where(front, pick), size));
      if pick(last) {
        assert (Where(front, pick) + [last])[..|Where(front, pick)|] == Where(front, pick);
      } else {
        assert Where(front, pick) + [] == Where(front, pick);
      }
    }
  }

  /** Entry `j` is offered by the prefix buckets below length `n`. */
  predicate Offered(prior: seq<StemEntry>, keyOf: KeyOf, key: StemKey, size: nat, n: nat, j: nat)
    requires j < |prior|
  {
    var k := keyOf(prior[j].rel);
    Registered(prior[j]) && Within2x(size, prior[j].size) && Extends(key, k) && |k.stem| < n
  }

  ghost predicate LeadsBelow(
    prior: seq<StemEntry>, keyOf: KeyOf, key: StemKey, size: nat, n: nat, best: Option<StemEntry>)
  {
    match best
    case None => forall j | 0 <= j < |prior| :: !Offered(prior, keyOf, key, size, n, j)
    case Some(b) => exists i | 0 <= i < |prior| :: prior[i] == b && Leads(prior, keyOf, key, size, n, i)
  }

  ghost predicate Leads(prior: seq<StemEntry>, keyOf: KeyOf, key: StemKey, size: nat, n: nat, i: nat)
    requires i < |prior|
  {
    && Offered(prior, keyOf, key, size, n, i)
    && forall j | 0 <= j < |prior| && Offered(prior, keyOf, key, size, n, j) :: Before(prior, keyOf, key, size, i, j)
  }

  lemma {:induction false} PrefixLeads(byStem: Index, prior: seq<StemEntry>, keyOf: KeyOf, key: StemKey, size: nat, n: nat)
    requires StemsOf(byStem, prior, keyOf) && (|key.stem| > 0 ==> n <= |key.stem|)
    ensures LeadsBelow(prior, keyOf, key, size, n, BestOf(PrefixBuckets(byStem, key, n), size))
  {
    if n > 1 && |key.stem| > 0 {
      var k := StemKey(key.parent, key.ext, key.stem[..n - 1]);
      var before := PrefixBuckets(byStem, key, n - 1);
      var x, y := BestOf(before, size), BestOf(Bucket(byStem, k), size);
      PrefixLeads(byStem, prior, keyOf, key, size, n - 1);
      BestConcat(before, Bucket(byStem, k), size);
      BestOfWhere(prior, size, HasKey(keyOf, k));
      assert BestOf(PrefixBuckets(byStem, key, n), size) == Closer(x, y, size);
      hide BestOf, PrefixBuckets, StemsOf, Where;
      OneLonger(prior, keyOf, key, size, n, x, y);
    }
  }

  lemma OneLonger(
    prior: seq<StemEntry>, keyOf: KeyOf, key: StemKey, size: nat, n: nat, x: Option<StemEntry>, y: Option<StemEntry>)
    requires 1 < n <= |key.stem| && LeadsBelow(prior, keyOf, key, size, n - 1, x)
    requires FirstClosest(prior, size, HasKey(keyOf, StemKey(key.parent, key.ext, key.stem[..n - 1])), y)
    ensures LeadsBelow(prior, keyOf, key, size, n, Closer(x, y, size))
  {
    var k := StemKey(key.parent, key.ext, key.stem[..n - 1]);
    forall j | 0 <= j < |prior|
      ensures Offered(prior, keyOf, key, size, n, j) <==>
        Offered(prior, keyOf, key, size, n - 1, j) || (HasKey(keyOf, k)(prior[j]) && Within2x(size, prior[j].size))
      ensures HasKey(keyOf, k)(prior[j]) ==> Rank(key, keyOf(prior[j].rel)) == n - 1
      ensures Offered(prior, keyOf, key, size, n - 1, j) ==> Rank(key, keyOf(prior[j].rel)) < n - 1
    {
      SameStem(key, keyOf(prior[j].rel), n - 1);
    }
    hide Offered, HasKey, Rank;
    var z := Closer(x, y, size);
    if z.Some? {
      if y.Some? {
        var i :| 0 <= i < |prior| && prior[i] == y.value
          && IsFirstClosest(prior, size, HasKey(keyOf, k), i);
        if z == y {
          assert Offered(prior, keyOf, key, size, n, i);
          if x.None? || Diff(y.value.size, size) < Diff(x.value.size, size) {
            assert Leads(prior, keyOf, key, size, n, i);
          }
        }
      }
      if x.Some? && (y.None? || Diff(x.value.size, size) <= Diff(y.value.size, size)) {
        var i :| 0 <= i < |prior| && prior[i] == x.value && Leads(prior, keyOf, key, size, n - 1, i);
        assert Leads(prior, keyOf, key, size, n, i);
      }
    }
  }

  lemma SameStem(key: StemKey, k: StemKey, n: nat)
    requires 0 < n < |key.stem|
    ensures Extends(key, k) && |k.stem| == n <==> k == StemKey(key.parent, key.ext, key.stem[..n])
  {
  }

  /** The index agrees with the linear scan: for a candidate of at least the cross-file
      minimum it offers a basis exactly when some earlier entry pairs with it, and then
      the preferred one; dropping the small entries changes nothing. */
  lemma {:induction false} IndexIsLinearScan(
    byStem: Index, extending: Index, prior: seq<StemEntry>, keyOf: KeyOf, rel: string, size: nat)
    requires StemsOf(byStem, prior, keyOf) && ExtendsOf(extending, prior, keyOf) && size >= CROSS_BASIS_MIN
    ensures LinearChoice(AsPair(BestOf(Considered(byStem, extending, keyOf(rel)), size)), prior, keyOf, rel, size)
  {
    var key := keyOf(rel);
    var x := BestOf(PrefixBuckets(byStem, key, |key.stem|), size);
    var y := BestOf(Bucket(extending, key), size);
    PrefixLeads(byStem, prior, keyOf, key, size, |key.stem|);
    BestConcat(PrefixBuckets(byStem, key, |key.stem|), Bucket(extending, key), size);
    BestOfWhere(prior, size, HasLonger(keyOf, key));
    hide BestOf, PrefixBuckets, StemsOf, ExtendsOf, Where, Bucket;
    BothSides(prior, keyOf, rel, size, x, y);
  }

  lemma BothSides(
    prior: seq<StemEntry>, keyOf: KeyOf, rel: string, size: nat, x: Option<StemEntry>, y: Option<StemEntry>)
    requires size >= CROSS_BASIS_MIN && LeadsBelow(prior, keyOf, keyOf(rel), size, |keyOf(rel).stem|, x)
    requires FirstClosest(prior, size, HasLonger(keyOf, keyOf(rel)), y)
    ensures LinearChoice(AsPair(Closer(x, y, size)), prior, keyOf, rel, size)
  {
    var key := keyOf(rel);
    var n := |key.stem|;
    forall j | 0 <= j < |prior|
      ensures PairsAt(prior, keyOf, rel, size, j) <==>
        Offered(prior, keyOf, key, size, n, j) || (HasLonger(keyOf, key)(prior[j]) && Within2x(size, prior[j].size))
      ensures HasLonger(keyOf, key)(prior[j]) ==> Rank(key, keyOf(prior[j].rel)) == n
      ensures Offered(prior, keyOf, key, size, n, j) ==> Rank(key, keyOf(prior[j].rel)) < n
    {
    }
    hide Offered, HasLonger, Rank, PairsAt;
    var z := Closer(x, y, size);
    if z.Some? {
      if y.Some? && (x.None? || Diff(y.value.size, size) < Diff(x.value.size, size)) {
        var i :| 0 <= i < |prior| && prior[i] == y.value && IsFirstClosest(prior, size, HasLonger(keyOf, key), i);
        assert Preferred(prior, keyOf, rel, size, i);
      } else {
        var i :| 0 <= i < |prior| && prior[i] == x.value && Leads(prior, keyOf, key, size, n, i);
        assert Preferred(prior, keyOf, rel, size, i);
      }
    }
  }

  // ---- ties ----

  /** The plan-earliest of the closest pairing entries: what "ties keep the plan-earlier
      entry" would choose. */
  ghost predicate PlanEarliest(prior: seq<StemEntry>, keyOf: KeyOf, rel: string, size: nat, i: nat)
    requires i < |prior|
  {
    && PairsAt(prior, keyOf, rel, size, i)
    && forall j | 0 <= j < |prior| && PairsAt(prior, keyOf, rel, size, j) ::
         Diff(prior[i].size, size) < Diff(prior[j].size, size)
         || (Diff(prior[i].size, size) == Diff(prior[j].size, size) && i <= j)
  }

  /** No equally close entry has a stem that is preferred to that of entry `i`: a shorter
      prefix of the candidate's, or any prefix of it where entry `i` has none. */
  ghost predicate NoShorterTie(prior: seq<StemEntry>, keyOf: KeyOf, rel: string, size: nat, i: nat)
    requires i < |prior|
  {
    forall j | 0 <= j < |prior| && PairsAt(prior, keyOf, rel, size, j)
      && Diff(prior[j].size, size) == Diff(prior[i].size, size) ::
      Rank(keyOf(rel), keyOf(prior[i].rel)) <= Rank(keyOf(rel), keyOf(prior[j].rel))
  }

  /** Ties keep the plan-earlier entry exactly when no tied entry has a preferred stem. */
  lemma {:induction false} TieBreakExactly(
    byStem: Index, extending: Index, prior: seq<StemEntry>, keyOf: KeyOf, rel: string, size: nat, i: nat)
    requires StemsOf(byStem, prior, keyOf) && ExtendsOf(extending, prior, keyOf) && size >= CROSS_BASIS_MIN
    requires i < |prior| && PlanEarliest(prior, keyOf, rel, size, i)
    ensures BestOf(Considered(byStem, extending, keyOf(rel)), size) == Some(prior[i]) <==>
      NoShorterTie(prior, keyOf, rel, size, i)
  {
    IndexIsLinearScan(byStem, extending, prior, keyOf, rel, size);
    hide BestOf, Considered, StemsOf, ExtendsOf, PairsAt, Rank;
    var best := BestOf(Considered(byStem, extending, keyOf(rel)), size);
    var w :| 0 <= w < |prior| && prior[w] == best.value && Preferred(prior, keyOf, rel, size, w);
    assert Before(prior, keyOf, keyOf(rel), size, w, i);
  }

  const TIE_SIZE: nat := 2 * CROSS_BASIS_MIN

  function BareKey(s: string): StemKey { StemKey("", None, s) }

  function Early(): StemEntry { StemEntry(TIE_SIZE, "ab") }

  function Late(): StemEntry { StemEntry(TIE_SIZE, "a") }

  /** An instance where they do not: the later entry has the shorter stem, and the code
      chooses it, whatever maps the earlier entries left. */
  lemma {:induction false} TieBreakIsNotPlanOrder(byStem: Index, extending: Index)
    requires StemsOf(byStem, [Early(), Late()], BareKey) && ExtendsOf(extending, [Early(), Late()], BareKey)
    ensures PlanEarliest([Early(), Late()], BareKey, "abc", TIE_SIZE, 0)
    ensures BestOf(Considered(byStem, extending, BareKey("abc")), TIE_SIZE) == Some(Late())
  {
    var prior := [Early(), Late()];
    var key := BareKey("abc");
    assert "abc"[..1] == "a" && "abc"[..2] == "ab";
    assert PairsAt(prior, BareKey, "abc", TIE_SIZE, 0) && PairsAt(prior, BareKey, "abc", TIE_SIZE, 1);
    assert Rank(key, BareKey("ab")) == 2 && Rank(key, BareKey("a")) == 1;
    IndexIsLinearScan(byStem, extending, prior, BareKey, "abc", TIE_SIZE);
    hide BestOf, Considered, StemsOf, ExtendsOf, PairsAt, Rank;
    var best := BestOf(Considered(byStem, extending, key), TIE_SIZE);
    var w :| 0 <= w < |prior| && prior[w] == best.value && Preferred(prior, BareKey, "abc", TIE_SIZE, w);
    assert Before(prior, BareKey, key, TIE_SIZE, w, 1);
  }
}
