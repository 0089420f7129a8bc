/** Receiving frames: the raw batch and chunk layouts read back exactly, on any
    input the requested buffers stay within the declared length, and the
    serialized frames round-trip within the decoder's cap. */
module FrameReceive {
  import opened Bytes
  import opened Integers
  import opened DeltaOps
  import opened FrameCodec

  // ---- the incoming byte stream ----

  /** `s` comes next. */
  predicate Ahead(data: seq<byte>, pos: nat, s: seq<byte>) {
    pos + |s| <= |data| && data[pos..pos + |s|] == s
  }

  lemma Split(data: seq<byte>, pos: nat, a: seq<byte>, b: seq<byte>)
    requires Ahead(data, pos, a + b)
    ensures Ahead(data, pos, a) && Ahead(data, pos + |a|, b)
  {
    var whole := data[pos..pos + |a| + |b|];
    assert whole[..|a|] == a && whole[|a|..] == b;
    assert data[pos..pos + |a|] == whole[..|a|];
    assert data[pos + |a|..pos + |a| + |b|] == whole[|a|..];
  }

  /** The bytes read between two positions. */
  predicate Between(data: seq<byte>, from: nat, to: nat, s: seq<byte>) {
    from <= to <= |data| && data[from..to] == s
  }

  lemma BetweenJoins(data: seq<byte>, a: nat, b: nat, c: nat, s: seq<byte>, t: seq<byte>)
    requires Between(data, a, b, s) && Between(data, b, c, t)
    ensures Between(data, a, c, s + t)
  {
    Adjacent(data, a, b, c);
  }

  class Pipe {
    const data: seq<byte>
    var pos: nat
    /** Bytes of path and data buffers asked for so far. */
    var requested: nat

    ghost predicate Valid()
      reads this
    {
      pos <= |data|
    }

    constructor (data: seq<byte>)
      ensures Valid() && this.data == data && pos == 0 && requested == 0
    {
      this.data := data;
      pos, requested := 0, 0;
    }

    /** `read_exact`: all `n` bytes, or an error at the end of the stream. */
    method ReadExact(n: nat) returns (r: Option<seq<byte>>)
      requires Valid()
      modifies this`pos
      ensures Valid() && (r.Some? <==> old(pos) + n <= |data|)
      ensures r.Some? ==> pos == old(pos) + n && r.value == data[old(pos)..pos]
    {
      if pos + n > |data| {
        pos := |data|;
        return None;
      }
      pos := pos + n;
      r := Some(data[pos - n..pos]);
    }

    /** A buffer of `n` bytes is allocated and filled. */
    method ReadBuffer(n: nat) returns (r: Option<seq<byte>>)
      requires Valid()
      modifies this
      ensures Valid() && (r.Some? <==> old(pos) + n <= |data|) && requested == old(requested) + n
      ensures r.Some? ==> pos == old(pos) + n && r.value == data[old(pos)..pos]
    {
      requested := requested + n;
      r := ReadExact(n);
    }

    method ReadLE(w: nat) returns (r: Option<nat>)
      requires Valid()
      modifies this`pos
      ensures Valid() && (r.Some? <==> old(pos) + w <= |data|)
      ensures r.Some? ==> pos == old(pos) + w && r.value < Pow256(w) && data[old(pos)..pos] == LE(w, r.value)
      ensures r.Some? ==> forall x: nat | x < Pow256(w) && Ahead(data, old(pos), LE(w, x)) :: r.value == x
    {
      var bytes := ReadExact(w);
      if bytes.None? {
        return None;
      }
      FromLERoundTrip(bytes.value);
      r := Some(FromLE(bytes.value));
      forall x: nat | x < Pow256(w) && Ahead(data, old(pos), LE(w, x))
        ensures r.value == x
      {
        LERoundTrip(w, x);
      }
    }
  }

  // ---- one record header ----

  /** A header the receiver must accept within the budget. */
  predicate Acceptable(h: Head, remaining: nat, utf8: Text -> bool) {
    && |h.path| + h.dataLen <= remaining && remaining < Pow256(4) && GoodChecksum(h.checksum) && utf8(h.path)
  }

  /** Where each field of a header starts. */
  lemma HeadFields(data: seq<byte>, pos: nat, h: Head)
    requires Ahead(data, pos, HeadBytes(h))
    ensures Ahead(data, pos, LE(8, h.fileId)) && Ahead(data, pos + 8, LE(4, |h.path|)) && Ahead(data, pos + 12, h.path)
    ensures Ahead(data, pos + 12 + |h.path|, LE(8, h.dataLen))
    ensures Ahead(data, pos + 20 + |h.path|, ChecksumBytes(h.checksum))
  {
    hide Ahead, LE, ChecksumBytes;
    var c := LE(8, h.dataLen) + ChecksumBytes(h.checksum);
    Split(data, pos, LE(8, h.fileId), LE(4, |h.path|) + (h.path + c));
    Split(data, pos + 8, LE(4, |h.path|), h.path + c);
    Split(data, pos + 12, h.path, c);
    Split(data, pos + 12 + |h.path|, LE(8, h.dataLen), ChecksumBytes(h.checksum));
  }

  lemma HeadJoins(data: seq<byte>, pos: nat, h: Head, end: nat)
    requires Ahead(data, pos, LE(8, h.fileId)) && Ahead(data, pos + 8, LE(4, |h.path|)) && Ahead(data, pos + 12, h.path)
    requires Ahead(data, pos + 12 + |h.path|, LE(8, h.dataLen))
    requires Ahead(data, pos + 20 + |h.path|, ChecksumBytes(h.checksum))
    requires end == pos + 20 + |h.path| + |ChecksumBytes(h.checksum)|
    ensures end == pos + |HeadBytes(h)| && data[pos..end] == HeadBytes(h)
  {
    hide LE, ChecksumBytes, Ahead;
    var id, n, size, sum := LE(8, h.fileId), LE(4, |h.path|), LE(8, h.dataLen), ChecksumBytes(h.checksum);
    AheadJoins(data, pos + 12 + |h.path|, size, sum);
    AheadJoins(data, pos + 12, h.path, size + sum);
    AheadJoins(data, pos + 8, n, h.path + (size + sum));
    AheadJoins(data, pos, id, n + (h.path + (size + sum)));
    AheadSlice(data, pos, HeadBytes(h));
  }

  lemma AheadJoins(data: seq<byte>, pos: nat, a: seq<byte>, b: seq<byte>)
    requires Ahead(data, pos, a) && Ahead(data, pos + |a|, b)
    ensures Ahead(data, pos, a + b)
  {
    Adjacent(data, pos, pos + |a|, pos + |a| + |b|);
  }

  lemma AheadSlice(data: seq<byte>, pos: nat, s: seq<byte>)
    requires Ahead(data, pos, s)
    ensures pos + |s| <= |data| && data[pos..pos + |s|] == s
  {
  }

  method ReadChecksum(pipe: Pipe) returns (r: Result<Option<Digest>, FrameError>)
    requires pipe.Valid()
    modifies pipe`pos
    ensures pipe.Valid()
    ensures r.Ok? ==> GoodChecksum(r.value)
    ensures r.Ok? ==> Ahead(pipe.data, old(pipe.pos), ChecksumBytes(r.value))
    ensures r.Ok? ==> pipe.pos == old(pipe.pos) + |ChecksumBytes(r.value)|
    ensures forall c | GoodChecksum(c) && Ahead(pipe.data, old(pipe.pos), ChecksumBytes(c)) :: r == Ok(c)
  {
    ghost var at := pipe.pos;
    var flag := pipe.ReadExact(1);
    if flag.None? {
      return Err(Truncated);
    }
    FlagByte(pipe.data, at);
    if flag.value[0] == 0 {
      return Ok(None);
    }
    if flag.value[0] != 1 {
      return Err(BadFlag);
    }
    var digest := pipe.ReadExact(CHECKSUM_LEN);
    if digest.None? {
      return Err(Truncated);
    }
    Adjacent(pipe.data, at, at + 1, pipe.pos);
    return Ok(Some(digest.value));
  }

  lemma FlagByte(data: seq<byte>, at: nat)
    requires at < |data|
    ensures forall c | GoodChecksum(c) && Ahead(data, at, ChecksumBytes(c)) ::
      && data[at] == (if c.Some? then 1 else 0)
      && (c.Some? ==> at + 33 <= |data| && data[at + 1..at + 33] == c.value)
  {
    forall c | GoodChecksum(c) && Ahead(data, at, ChecksumBytes(c))
      ensures data[at] == if c.Some? then 1 else 0
      ensures c.Some? ==> at + 33 <= |data| && data[at + 1..at + 33] == c.value
    {
      assert data[at] == data[at..at + |ChecksumBytes(c)|][0];
      if c.Some? {
        Split(data, at, [1], c.value);
      }
    }
  }

  /** The first half of a header: the id and the path buffer. */
  method ReadPath(pipe: Pipe, remaining: nat, utf8: Text -> bool, ghost want: Option<Head>)
    returns (r: Result<(u64, Text), FrameError>)
    requires pipe.Valid()
    requires want.Some? ==> Acceptable(want.value, remaining, utf8) && Ahead(pipe.data, pipe.pos, HeadBytes(want.value))
    modifies pipe
    ensures pipe.Valid() && pipe.requested <= old(pipe.requested) + remaining
    ensures r.Ok? ==> |r.value.1| <= remaining && utf8(r.value.1) && pipe.requested == old(pipe.requested) + |r.value.1|
    ensures r.Ok? ==> pipe.pos == old(pipe.pos) + 12 + |r.value.1| && Ahead(pipe.data, old(pipe.pos), LE(8, r.value.0))
    ensures r.Ok? ==> Ahead(pipe.data, old(pipe.pos) + 8, LE(4, |r.value.1|))
    ensures r.Ok? ==> Ahead(pipe.data, old(pipe.pos) + 12, r.value.1)
    ensures want.Some? ==> r == Ok((want.value.fileId, want.value.path))
  {
    hide HeadBytes, LE, ChecksumBytes;
    Widths();
    if want.Some? {
      HeadFields(pipe.data, pipe.pos, want.value);
    }
    var id := pipe.ReadLE(8);
    if id.None? {
      return Err(Truncated);
    }
    var pathLen := pipe.ReadLE(4);
    if pathLen.None? {
      return Err(Truncated);
    }
    if pathLen.value > remaining {
      return Err(PathOverrun);
    }
    var path := pipe.ReadBuffer(pathLen.value);
    if path.None? {
      return Err(Truncated);
    }
    if !utf8(path.value) {
      return Err(BadText);
    }
    return Ok((id.value, path.value));
  }

  /** Reads one header within the budget. Whatever the bytes are, it asks for no
      more than the budget; an accepted header re-encodes to the bytes read; and a
      well-formed header that fits is accepted as sent. */
  method ReadHeader(pipe: Pipe, remaining: nat, utf8: Text -> bool, ghost want: Option<Head>)
    returns (r: Result<(Head, nat), FrameError>)
    requires pipe.Valid()
    requires want.Some? ==> Acceptable(want.value, remaining, utf8) && Ahead(pipe.data, pipe.pos, HeadBytes(want.value))
    modifies pipe
    ensures pipe.Valid() && pipe.requested <= old(pipe.requested) + remaining
    ensures r.Ok? ==> Between(pipe.data, old(pipe.pos), pipe.pos, HeadBytes(r.value.0))
    ensures r.Ok? ==> pipe.pos == old(pipe.pos) + |HeadBytes(r.value.0)|
    ensures r.Ok? ==> pipe.requested == old(pipe.requested) + |r.value.0.path|
    ensures r.Ok? ==> |r.value.0.path| + r.value.0.dataLen + r.value.1 == remaining
    ensures r.Ok? ==> GoodHead(r.value.0, utf8)
    ensures want.Some? ==> r.Ok? && r.value.0 == want.value
  {
    hide HeadBytes, LE, ChecksumBytes;
    Widths();
    ghost var at := pipe.pos;
    if want.Some? {
      HeadFields(pipe.data, at, want.value);
    }
    var named := ReadPath(pipe, remaining, utf8, want);
    if named.Err? {
      return Err(named.error);
    }
    var (id, path) := named.value;
    var dataLen := pipe.ReadLE(8);
    if dataLen.None? {
      return Err(Truncated);
    }
    if dataLen.value > remaining - |path| {
      return Err(DataOverrun);
    }
    var checksum := ReadChecksum(pipe);
    if checksum.Err? {
      return Err(checksum.error);
    }
    var head := Head(id, path, dataLen.value, checksum.value);
    HeadJoins(pipe.data, at, head, pipe.pos);
    return Ok((head, remaining - |path| - dataLen.value));
  }

  // ---- a whole batch ----

  lemma {:induction false} HeadsSnoc(hs: seq<Head>, h: Head)
    ensures HeadsBytes(hs + [h]) == HeadsBytes(hs) + HeadBytes(h)
    ensures DataTotal(hs + [h]) == DataTotal(hs) + h.dataLen
  {
    hide HeadBytes;
    assert (hs + [h])[..|hs|] == hs;
    if hs == [] {
      assert [h][1..] == [];
    } else {
      HeadsSnoc(hs[1..], h);
      assert (hs + [h])[1..] == hs[1..] + [h];
      BytesAssociate(HeadBytes(hs[0]), HeadsBytes(hs[1..]), HeadBytes(h));
    }
  }

  lemma {:induction false} DatasSnoc(ds: seq<seq<byte>>, d: seq<byte>)
    ensures DatasBytes(ds + [d]) == DatasBytes(ds) + d
  {
    if ds == [] {
      assert [d][1..] == [];
    } else {
      DatasSnoc(ds[1..], d);
      assert (ds + [d])[1..] == ds[1..] + [d];
      BytesAssociate(ds[0], DatasBytes(ds[1..]), d);
    }
  }

  /** The path and data bytes a list of headers announces. */
  function Announced(hs: seq<Head>): nat {
    if hs == [] then 0 else |hs[0].path| + hs[0].dataLen + Announced(hs[1..])
  }

  function DataTotal(hs: seq<Head>): nat {
    if hs == [] then 0 else DataTotal(hs[..|hs| - 1]) + hs[|hs| - 1].dataLen
  }

  lemma {:induction false} AnnouncedFits(items: seq<Item>)
    ensures Announced(HeadsOf(items)) <= Total(items) - 5
  {
    if items != [] {
      AnnouncedFits(items[1..]);
      assert HeadsOf(items)[1..] == HeadsOf(items[1..]);
    }
  }

  /** The headers still to come. */
  ghost predicate HeadsAhead(data: seq<byte>, pos: nat, hs: seq<Head>, rest: seq<byte>, remaining: nat, utf8: Text -> bool) {
    && Ahead(data, pos, HeadsBytes(hs) + rest) && Announced(hs) <= remaining < Pow256(4)
    && forall i | 0 <= i < |hs| :: GoodChecksum(hs[i].checksum) && utf8(hs[i].path)
  }

  lemma NextHead(data: seq<byte>, pos: nat, hs: seq<Head>, rest: seq<byte>, remaining: nat, utf8: Text -> bool)
    requires hs != [] && HeadsAhead(data, pos, hs, rest, remaining, utf8)
    ensures Acceptable(hs[0], remaining, utf8) && Ahead(data, pos, HeadBytes(hs[0]))
    ensures HeadsAhead(data, pos + |HeadBytes(hs[0])|, hs[1..], rest, remaining - |hs[0].path| - hs[0].dataLen, utf8)
  {
    hide HeadBytes, Ahead;
    BytesAssociate(HeadBytes(hs[0]), HeadsBytes(hs[1..]), rest);
    Split(data, pos, HeadBytes(hs[0]), HeadsBytes(hs[1..]) + rest);
  }

  /** If `want` was sent, `heads` is its beginning and the rest comes next. */
  ghost predicate Expecting(
    want: Option<(seq<Head>, seq<byte>)>, data: seq<byte>, pos: nat, heads: seq<Head>, count: nat, remaining: nat,
    utf8: Text -> bool)
  {
    want.Some? ==>
      && |want.value.0| == count >= |heads| && heads == want.value.0[..|heads|]
      && HeadsAhead(data, pos, want.value.0[|heads|..], want.value.1, remaining, utf8)
  }

  /** The header that must come next, if `want` was sent. */
  ghost function Expected(want: Option<(seq<Head>, seq<byte>)>, i: nat): (h: Option<Head>)
    requires want.Some? ==> i < |want.value.0|
    ensures h.Some? <==> want.Some?
    ensures h.Some? ==> h.value == want.value.0[i]
  {
    if want.Some? then Some(want.value.0[i]) else None
  }

  lemma ExpectNext(
    want: Option<(seq<Head>, seq<byte>)>, data: seq<byte>, pos: nat, heads: seq<Head>, count: nat, remaining: nat,
    utf8: Text -> bool)
    requires Expecting(want, data, pos, heads, count, remaining, utf8) && |heads| < count
    ensures want.Some? ==> |heads| < |want.value.0|
    ensures var next := Expected(want, |heads|);
      next.Some? ==> Acceptable(next.value, remaining, utf8) && Ahead(data, pos, HeadBytes(next.value))
  {
    hide HeadBytes, Ahead, HeadsAhead, Acceptable;
    if want.Some? {
      NextHead(data, pos, want.value.0[|heads|..], want.value.1, remaining, utf8);
    }
  }

  lemma ExpectStep(
    want: Option<(seq<Head>, seq<byte>)>, data: seq<byte>, pos: nat, heads: seq<Head>, count: nat, remaining: nat,
    utf8: Text -> bool, head: Head)
    requires Expecting(want, data, pos, heads, count, remaining, utf8) && |heads| < count
    requires want.Some? ==> |heads| < |want.value.0| && head == want.value.0[|heads|]
    requires |head.path| + head.dataLen <= remaining
    ensures Expecting(
      want, data, pos + |HeadBytes(head)|, heads + [head], count, remaining - |head.path| - head.dataLen, utf8)
  {
    hide HeadBytes, Ahead, HeadsAhead, Acceptable;
    if want.Some? {
      var rest := want.value.0[|heads|..];
      NextHead(data, pos, rest, want.value.1, remaining, utf8);
      assert rest[1..] == want.value.0[|heads| + 1..];
      assert want.value.0[..|heads| + 1] == heads + [rest[0]];
    }
  }

  lemma ExpectDone(
    want: Option<(seq<Head>, seq<byte>)>, data: seq<byte>, pos: nat, heads: seq<Head>, count: nat, remaining: nat,
    utf8: Text -> bool)
    requires Expecting(want, data, pos, heads, count, remaining, utf8) && |heads| == count
    ensures want.Some? ==> heads == want.value.0 && Ahead(data, pos, want.value.1)
  {
    if want.Some? {
      assert want.value.0[count..] == [] && [] + want.value.1 == want.value.1;
    }
  }

  predicate GoodHead(h: Head, utf8: Text -> bool) {
    GoodChecksum(h.checksum) && utf8(h.path)
  }

  /** Everything known after some of the headers: the bytes read so far are their
      encoding, and what was asked for, announced and left adds up to the budget. */
  ghost predicate HeadersSoFar(
    want: Option<(seq<Head>, seq<byte>)>, data: seq<byte>, start: nat, pos: nat, heads: seq<Head>, count: nat,
    budget: nat, asked: int, remaining: nat, utf8: Text -> bool)
  {
    && Between(data, start, pos, HeadsBytes(heads))
    && asked + DataTotal(heads) + remaining == budget
    && (forall j | 0 <= j < |heads| :: GoodHead(heads[j], utf8))
    && Expecting(want, data, pos, heads, count, remaining, utf8)
  }

  lemma HeadersStep(
    want: Option<(seq<Head>, seq<byte>)>, data: seq<byte>, start: nat, pos: nat, heads: seq<Head>, count: nat,
    budget: nat, asked: int, remaining: nat, utf8: Text -> bool, head: Head, end: nat)
    requires HeadersSoFar(want, data, start, pos, heads, count, budget, asked, remaining, utf8) && |heads| < count
    requires Between(data, pos, end, HeadBytes(head)) && end == pos + |HeadBytes(head)| && GoodHead(head, utf8)
    requires want.Some? ==> |heads| < |want.value.0| && head == want.value.0[|heads|]
    requires |head.path| + head.dataLen <= remaining
    ensures HeadersSoFar(want, data, start, end, heads + [head], count, budget, asked + |head.path|,
      remaining - |head.path| - head.dataLen, utf8)
  {
    hide HeadBytes, Between, Expecting, HeadsBytes, DataTotal, GoodHead;
    HeadsSnoc(heads, head);
    ExpectStep(want, data, pos, heads, count, remaining, utf8, head);
    BetweenJoins(data, start, pos, end, HeadsBytes(heads), HeadBytes(head));
  }

  lemma HeadersStart(
    want: Option<(seq<Head>, seq<byte>)>, data: seq<byte>, pos: nat, count: nat, budget: nat, utf8: Text -> bool)
    requires pos <= |data| && Expecting(want, data, pos, [], count, budget, utf8)
    ensures HeadersSoFar(want, data, pos, pos, [], count, budget, 0, budget, utf8)
  {
  }

  /** The header block. */
  method ReadHeaders(pipe: Pipe, count: nat, budget: nat, utf8: Text -> bool, ghost want: Option<(seq<Head>, seq<byte>)>)
    returns (r: Result<seq<Head>, FrameError>)
    requires pipe.Valid() && Expecting(want, pipe.data, pipe.pos, [], count, budget, utf8)
    modifies pipe
    ensures pipe.Valid() && pipe.requested <= old(pipe.requested) + budget
    ensures r.Ok? ==> Between(pipe.data, old(pipe.pos), pipe.pos, HeadsBytes(r.value))
    ensures r.Ok? ==> |r.value| == count && pipe.requested + DataTotal(r.value) <= old(pipe.requested) + budget
    ensures r.Ok? ==> forall i | 0 <= i < count :: GoodHead(r.value[i], utf8)
    ensures want.Some? ==> r == Ok(want.value.0) && Ahead(pipe.data, pipe.pos, want.value.1)
  {
    hide Between, Expecting, HeadsBytes, DataTotal, GoodHead, Ahead, HeadBytes, Acceptable;
    var heads: seq<Head> := [];
    var remaining := budget;
    HeadersStart(want, pipe.data, pipe.pos, count, budget, utf8);
    for i := 0 to count
      invariant pipe.Valid() && |heads| == i
      invariant HeadersSoFar(want, pipe.data, old(pipe.pos), pipe.pos, heads, count, budget,
        pipe.requested - old(pipe.requested), remaining, utf8)
    {
      ghost var before, asked := pipe.pos, pipe.requested - old(pipe.requested);
      ExpectNext(want, pipe.data, before, heads, count, remaining, utf8);
      var head := ReadHeader(pipe, remaining, utf8, Expected(want, i));
      if head.Err? {
        return Err(head.error);
      }
      HeadersStep(want, pipe.data, old(pipe.pos), before, heads, count, budget, asked, remaining, utf8,
        head.value.0, pipe.pos);
      heads := heads + [head.value.0];
      remaining := head.value.1;
    }
    ExpectDone(want, pipe.data, pipe.pos, heads, count, remaining, utf8);
    return Ok(heads);
  }

  // ---- the data block ----

  function ItemOf(h: Head, data: seq<byte>): Item {
    Item(h.fileId, h.path, data, h.checksum)
  }

  /** If `want` was sent, `items` is its beginning and the rest of its data comes next. */
  ghost predicate DatasSoFar(
    want: Option<seq<Item>>, data: seq<byte>, start: nat, pos: nat, heads: seq<Head>, items: seq<Item>)
  {
    && |items| <= |heads| && HeadsOf(items) == heads[..|items|]
    && Between(data, start, pos, DatasBytes(DatasOf(items)))
    && (want.Some? ==>
          && HeadsOf(want.value) == heads && items == want.value[..|items|]
          && Ahead(data, pos, DatasBytes(DatasOf(want.value)[|items|..])))
  }

  lemma DatasStart(want: Option<seq<Item>>, data: seq<byte>, pos: nat, heads: seq<Head>)
    requires pos <= |data|
    requires want.Some? ==> HeadsOf(want.value) == heads && Ahead(data, pos, DatasBytes(DatasOf(want.value)))
    ensures DatasSoFar(want, data, pos, pos, heads, [])
  {
    assert HeadsOf([]) == heads[..0] && DatasBytes(DatasOf([])) == [];
    if want.Some? {
      assert DatasOf(want.value)[0..] == DatasOf(want.value);
    }
  }

  /** The wanted data is next. */
  lemma DatasNext(want: Option<seq<Item>>, data: seq<byte>, start: nat, pos: nat, heads: seq<Head>, items: seq<Item>)
    requires DatasSoFar(want, data, start, pos, heads, items) && |items| < |heads| && want.Some?
    ensures |items| < |want.value| == |heads| && |want.value[|items|].data| == heads[|items|].dataLen
    ensures Ahead(data, pos, want.value[|items|].data)
    ensures Ahead(data, pos + heads[|items|].dataLen, DatasBytes(DatasOf(want.value)[|items| + 1..]))
  {
    hide Ahead, Between;
    var i, rest := |items|, DatasOf(want.value)[|items|..];
    assert |HeadsOf(want.value)| == |want.value|;
    assert heads[i] == HeadOf(want.value[i]);
    assert rest[0] == want.value[i].data && rest[1..] == DatasOf(want.value)[i + 1..];
    Split(data, pos, rest[0], DatasBytes(rest[1..]));
  }

  lemma DatasStep(
    want: Option<seq<Item>>, data: seq<byte>, start: nat, pos: nat, heads: seq<Head>, items: seq<Item>, bytes: seq<byte>)
    requires DatasSoFar(want, data, start, pos, heads, items) && |items| < |heads|
    requires Between(data, pos, pos + |bytes|, bytes) && |bytes| == heads[|items|].dataLen
    ensures DatasSoFar(want, data, start, pos + |bytes|, heads, items + [ItemOf(heads[|items|], bytes)])
  {
    var i, item := |items|, ItemOf(heads[|items|], bytes);
    if want.Some? {
      DatasNext(want, data, start, pos, heads, items);
      assert bytes == want.value[i].data;
      assert HeadOf(want.value[i]) == heads[i];
      assert item == want.value[i];
      assert want.value[..i + 1] == items + [item];
    }
    hide Ahead, DatasBytes;
    assert DatasOf(items + [item]) == DatasOf(items) + [bytes];
    DatasSnoc(DatasOf(items), bytes);
    BetweenJoins(data, start, pos, pos + |bytes|, DatasBytes(DatasOf(items)), bytes);
    assert HeadsOf(items + [item]) == HeadsOf(items) + [heads[i]] == heads[..i + 1];
  }

  lemma DatasDone(want: Option<seq<Item>>, data: seq<byte>, start: nat, pos: nat, heads: seq<Head>, items: seq<Item>)
    requires DatasSoFar(want, data, start, pos, heads, items) && |items| == |heads|
    ensures HeadsOf(items) == heads && Between(data, start, pos, DatasBytes(DatasOf(items)))
    ensures want.Some? ==> items == want.value
  {
    assert heads[..|heads|] == heads;
    if want.Some? {
      assert |HeadsOf(want.value)| == |want.value|;
    }
  }

  /** The data block: each file's bytes become its literal op. */
  method ReadDatas(pipe: Pipe, heads: seq<Head>, ghost want: Option<seq<Item>>)
    returns (r: Result<seq<BatchFile>, FrameError>, ghost items: seq<Item>)
    requires pipe.Valid()
    requires want.Some? ==> HeadsOf(want.value) == heads && Ahead(pipe.data, pipe.pos, DatasBytes(DatasOf(want.value)))
    modifies pipe
    ensures pipe.Valid() && pipe.requested <= old(pipe.requested) + DataTotal(heads)
    ensures r.Ok? ==> r.value == Recipes(items) && HeadsOf(items) == heads
    ensures r.Ok? ==> Between(pipe.data, old(pipe.pos), pipe.pos, DatasBytes(DatasOf(items)))
    ensures want.Some? ==> r.Ok? && items == want.value
  {
    hide Ahead, Between, DatasBytes, DataTotal, DatasSoFar, HeadsOf, DatasOf;
    var recipes: seq<BatchFile> := [];
    items := [];
    DatasStart(want, pipe.data, pipe.pos, heads);
    DataTotalGrows(heads, 0);
    for i := 0 to |heads|
      invariant pipe.Valid() && |items| == i && recipes == Recipes(items)
      invariant pipe.requested == old(pipe.requested) + DataTotal(heads[..i])
      invariant DatasSoFar(want, pipe.data, old(pipe.pos), pipe.pos, heads, items)
    {
      ghost var before := pipe.pos;
      if want.Some? {
        DatasNext(want, pipe.data, old(pipe.pos), before, heads, items);
        AheadFits(pipe.data, before, want.value[i].data);
      }
      DataTotalGrows(heads, i);
      var bytes := pipe.ReadBuffer(heads[i].dataLen);
      if bytes.None? {
        return Err(Truncated), items;
      }
      JustRead(pipe.data, before, pipe.pos, bytes.value);
      DatasStep(want, pipe.data, old(pipe.pos), before, heads, items, bytes.value);
      recipes := recipes + [BatchFile(heads[i].fileId, heads[i].path, heads[i].dataLen,
        LiteralPushed([], bytes.value), heads[i].checksum)];
      assert [] + [Literal(bytes.value)] == [Literal(bytes.value)];
      items := items + [ItemOf(heads[i], bytes.value)];
    }
    assert heads[..|heads|] == heads;
    DatasDone(want, pipe.data, old(pipe.pos), pipe.pos, heads, items);
    return Ok(recipes), items;
  }

  lemma AheadFits(data: seq<byte>, pos: nat, s: seq<byte>)
    requires Ahead(data, pos, s)
    ensures pos + |s| <= |data|
  {
  }

  lemma JustRead(data: seq<byte>, from: nat, to: nat, s: seq<byte>)
    requires from <= to <= |data| && s == data[from..to]
    ensures Between(data, from, to, s)
  {
  }

  lemma {:induction false} DataTotalGrows(heads: seq<Head>, i: nat)
    requires i <= |heads|
    ensures i < |heads| ==> DataTotal(heads[..i + 1]) == DataTotal(heads[..i]) + heads[i].dataLen
    ensures DataTotal(heads[..i]) <= DataTotal(heads)
    ensures i < |heads| ==> DataTotal(heads[..i + 1]) <= DataTotal(heads)
    ensures DataTotal(heads[..0]) == 0
    decreases |heads| - i
  {
    if i < |heads| {
      assert heads[..i + 1][..i] == heads[..i];
      DataTotalGrows(heads, i + 1);
    } else {
      assert heads[..i] == heads;
    }
  }

  // ---- the batch frame ----

  function SatSub(a: nat, b: nat): nat {
    if a <= b then 0 else a - b
  }

  /** What follows the tag of a batch frame. */
  function BatchRest(items: seq<Item>): seq<byte> {
    LE(4, |items|) + (HeadsBytes(HeadsOf(items)) + DatasBytes(DatasOf(items)))
  }

  /** A batch the sender can send: within the length cap, with well-formed fields. */
  predicate Sendable(items: seq<Item>, utf8: Text -> bool) {
    GoodItems(items, utf8) && Total(items) <= MAX_LEN
  }

  lemma {:induction false} BatchExpected(data: seq<byte>, pos: nat, items: seq<Item>, utf8: Text -> bool)
    requires Sendable(items, utf8) && Ahead(data, pos, BatchRest(items))
    ensures |items| <= Total(items) < Pow256(4) && 5 <= Total(items) && Ahead(data, pos, LE(4, |items|))
    ensures Expecting(Some((HeadsOf(items), DatasBytes(DatasOf(items)))), data, pos + 4, [], |items|,
      Total(items) - 5, utf8)
  {
    hide Ahead, HeadsBytes, DatasBytes, Total, Announced, GoodChecksum;
    Widths();
    TotalIsLength(items);
    AnnouncedFits(items);
    Split(data, pos, LE(4, |items|), HeadsBytes(HeadsOf(items)) + DatasBytes(DatasOf(items)));
    assert HeadsOf(items)[0..] == HeadsOf(items);
  }

  /** On arbitrary bytes the path and data buffers asked for add up to no more than
      the declared length, and an accepted batch re-encodes to the bytes read. A
      sendable batch is received as sent, consuming exactly its bytes. */
  method ReceiveBatch(pipe: Pipe, size: nat, utf8: Text -> bool, ghost want: Option<seq<Item>>)
    returns (r: Result<seq<BatchFile>, FrameError>, ghost items: seq<Item>)
    requires pipe.Valid()
    requires want.Some? ==> Sendable(want.value, utf8) && size == Total(want.value)
    requires want.Some? ==> Ahead(pipe.data, pipe.pos, BatchRest(want.value))
    modifies pipe
    ensures pipe.Valid() && pipe.requested <= old(pipe.requested) + size
    ensures r.Ok? ==> r.value == Recipes(items)
    ensures r.Ok? ==> Between(pipe.data, old(pipe.pos), pipe.pos, BatchRest(items))
    ensures want.Some? ==> r.Ok? && items == want.value
  {
    hide Ahead, Between, HeadsBytes, DatasBytes, DataTotal, HeadsOf, DatasOf, Expecting, Total, Recipes, Sendable, LE;
    items := [];
    ghost var at := pipe.pos;
    ghost var wantHeads: Option<(seq<Head>, seq<byte>)> := None;
    if want.Some? {
      BatchExpected(pipe.data, at, want.value, utf8);
      AheadFits(pipe.data, at, LE(4, |want.value|));
      wantHeads := Some((HeadsOf(want.value), DatasBytes(DatasOf(want.value))));
    }
    var count := pipe.ReadLE(4);
    if count.None? {
      return Err(Truncated), [];
    }
    if count.value > size {
      return Err(BadCount), [];
    }
    JustRead(pipe.data, at, pipe.pos, LE(4, count.value));
    NothingExpected(pipe.data, pipe.pos, count.value, SatSub(size, 5), utf8);
    var heads := ReadHeaders(pipe, count.value, SatSub(size, 5), utf8, wantHeads);
    if heads.Err? {
      return Err(heads.error), [];
    }
    ghost var mid := pipe.pos;
    r, items := ReadDatas(pipe, heads.value, want);
    if r.Ok? {
      HeadCount(items);
      BetweenJoins(pipe.data, at + 4, mid, pipe.pos, HeadsBytes(heads.value), DatasBytes(DatasOf(items)));
      BetweenJoins(pipe.data, at, at + 4, pipe.pos, LE(4, |items|), HeadsBytes(heads.value) + DatasBytes(DatasOf(items)));
    }
  }

  lemma HeadCount(items: seq<Item>)
    ensures |HeadsOf(items)| == |items|
  {
  }

  lemma NothingExpected(data: seq<byte>, pos: nat, count: nat, budget: nat, utf8: Text -> bool)
    ensures Expecting(None, data, pos, [], count, budget, utf8)
  {
  }

  // ---- serialized frames ----

  /** postcard and lz4, uninterpreted. */
  datatype Codec = Codec(
    serialize: Frame -> seq<byte>, deserialize: seq<byte> -> Option<Frame>,
    pack: seq<byte> -> seq<byte>, unpack: (seq<byte>, nat) -> Option<seq<byte>>)

  /** What is assumed of them: deserializing undoes serializing, unpacking undoes packing
      when given the size that was packed, and refuses to stop short of it. */
  ghost predicate Faithful(c: Codec) {
    && (forall f :: c.deserialize(c.serialize(f)) == Some(f))
    && (forall x :: c.unpack(c.pack(x), |x|) == Some(x))
    && (forall x, n: nat | n < |x| :: c.unpack(c.pack(x), n) == None)
  }

  predicate Packs(c: Codec, f: Frame, compress: bool, threshold: nat) {
    compress && |c.serialize(f)| > threshold
  }

  function Encode(c: Codec, f: Frame, compress: bool, threshold: nat): Result<seq<byte>, FrameError> {
    var data := c.serialize(f);
    var packed := Packs(c, f, compress, threshold);
    var payload := if packed then LE(4, |data| % 0x1_0000_0000) + c.pack(data) else data;
    if |payload| > MAX_LEN then Err(TooLong)
    else Ok(Prefix(|payload|, if packed then COMPRESSED_FLAG else 0) + payload)
  }

  function Decode(c: Codec, len: nat, payload: seq<byte>): Result<Frame, FrameError> {
    if len / 0x4000_0000 % 2 == 1 then Err(Misrouted)
    else if len / 0x8000_0000 % 2 == 1 then
      if |payload| < 4 then Err(Truncated)
      else
        var claimed := FromLE(payload[..4]);
        if claimed > MAX_LEN then Err(ClaimTooBig)
        else
          var data := c.unpack(payload[4..], claimed);
          if data.None? then Err(BadPayload) else FromOption(c.deserialize(data.value))
    else FromOption(c.deserialize(payload))
  }

  function FromOption(f: Option<Frame>): Result<Frame, FrameError> {
    if f.Some? then Ok(f.value) else Err(BadPayload)
  }

  /** The prefix carries the length and the flags, separately recoverable. */
  lemma PrefixFields(len: nat, chunk: bool, packed: bool)
    requires len <= MAX_LEN
    ensures var v := FromBE(Prefix(len, (if chunk then CHUNK_FLAG else 0) + (if packed then COMPRESSED_FLAG else 0)));
      && v % 0x4000_0000 == len && (v / 0x4000_0000 % 2 == 1) == chunk && (v / 0x8000_0000 % 2 == 1) == packed
  {
    Widths();
    BERoundTrip(4, len + (if chunk then CHUNK_FLAG else 0) + (if packed then COMPRESSED_FLAG else 0));
  }

  predicate DecodesTo(c: Codec, wire: seq<byte>, f: Frame)
    requires |wire| >= 4
  {
    Decode(c, FromBE(wire[..4]), wire[4..]) == Ok(f)
  }

  /** What the decoder makes of the encoder's output, exactly: the frame comes back
      unless it was compressed from more than the decoder's cap. */
  lemma EncodeDecode(c: Codec, f: Frame, compress: bool, threshold: nat)
    requires Faithful(c)
    ensures var w := Encode(c, f, compress, threshold);
      w.Ok? ==>
        && |w.value| >= 4 && FromBE(w.value[..4]) % 0x4000_0000 == |w.value| - 4
        && FromBE(w.value[..4]) / 0x4000_0000 % 2 == 0
        && w.value[4..] == (if compress && |c.serialize(f)| > threshold
                            then LE(4, |c.serialize(f)| % 0x1_0000_0000) + c.pack(c.serialize(f)) else c.serialize(f))
        && (FromBE(w.value[..4]) / 0x8000_0000 % 2 == 1 <==> compress && |c.serialize(f)| > threshold)
        && (DecodesTo(c, w.value, f) <==> (Packs(c, f, compress, threshold) ==> |c.serialize(f)| <= MAX_LEN))
  {
    var w := Encode(c, f, compress, threshold);
    if w.Ok? {
      hide Prefix, LE, FromBE, FromLE, Faithful;
      var data := c.serialize(f);
      var packed := Packs(c, f, compress, threshold);
      var payload := if packed then LE(4, |data| % 0x1_0000_0000) + c.pack(data) else data;
      var prefix := Prefix(|payload|, if packed then COMPRESSED_FLAG else 0);
      PrefixLength(|payload|, if packed then COMPRESSED_FLAG else 0);
      assert w.value[..4] == prefix && w.value[4..] == payload;
      PrefixFields(|payload|, false, packed);
      if packed {
        PackedDecode(c, f, payload);
      } else {
        Unserialize(c, f);
      }
    }
  }

  lemma Unserialize(c: Codec, f: Frame)
    requires Faithful(c)
    ensures c.deserialize(c.serialize(f)) == Some(f)
  {
  }

  predicate Recovers(c: Codec, packed: seq<byte>, size: nat, f: Frame) {
    var data := c.unpack(packed, size);
    data.Some? && c.deserialize(data.value) == Some(f)
  }

  /** A packed payload: the claimed size is the packed one modulo 2^32, so a body above
      the cap is refused or unpacked short. */
  lemma PackedDecode(c: Codec, f: Frame, payload: seq<byte>)
    requires Faithful(c) && payload == LE(4, |c.serialize(f)| % 0x1_0000_0000) + c.pack(c.serialize(f))
    ensures |payload| >= 4
    ensures var data, claimed := c.serialize(f), FromLE(payload[..4]);
      (claimed <= MAX_LEN && Recovers(c, payload[4..], claimed, f)) <==> |data| <= MAX_LEN
  {
    var data := c.serialize(f);
    Widths();
    LERoundTrip(4, |data| % 0x1_0000_0000);
    hide LE, FromLE;
    assert payload[..4] == LE(4, |data| % 0x1_0000_0000) && payload[4..] == c.pack(data);
  }

  lemma PrefixLength(len: nat, flag: nat)
    ensures |Prefix(len, flag)| == 4
  {
  }

  // ---- any frame ----

  /** What a sender puts on the wire for one frame. */
  datatype Outgoing =
    | OutChunk(fileId: u64, data: seq<byte>)
    | OutBatch(items: seq<Item>)
    | OutControl(frame: Frame, compress: bool, threshold: nat)

  function WireOf(c: Codec, o: Outgoing): seq<byte> {
    match o
    case OutChunk(fileId, data) => ChunkWire(fileId, data)
    case OutBatch(items) => BatchWire(items)
    case OutControl(f, compress, threshold) =>
      var w := Encode(c, f, compress, threshold);
      if w.Ok? then w.value else []
  }

  function FrameOf(o: Outgoing): Frame {
    match o
    case OutChunk(fileId, data) => FileChunk(fileId, data)
    case OutBatch(items) => Batch(Recipes(items))
    case OutControl(f, _, _) => f
  }

  /** The sender accepts the frame and the receiver's caps allow it. */
  predicate CanSend(c: Codec, o: Outgoing, utf8: Text -> bool) {
    match o
    case OutChunk(_, data) => 9 + |data| <= MAX_LEN
    case OutBatch(items) => Sendable(items, utf8)
    case OutControl(f, compress, threshold) =>
      Encode(c, f, compress, threshold).Ok? && (Packs(c, f, compress, threshold) ==> |c.serialize(f)| <= MAX_LEN)
  }

  lemma RawStart(data: seq<byte>, pos: nat, len: nat, tag: byte, rest: seq<byte>)
    requires len <= MAX_LEN && Ahead(data, pos, Prefix(len, CHUNK_FLAG) + ([tag] + rest))
    ensures pos + 5 <= |data| && Ahead(data, pos + 5, rest) && data[pos + 4] == tag
    ensures FromBE(data[pos..pos + 4]) % 0x4000_0000 == len && FromBE(data[pos..pos + 4]) / 0x4000_0000 % 2 == 1
  {
    PrefixLength(len, CHUNK_FLAG);
    PrefixFields(len, true, false);
    hide Prefix;
    Split(data, pos, Prefix(len, CHUNK_FLAG), [tag] + rest);
    Split(data, pos + 4, [tag], rest);
    assert data[pos + 4] == data[pos + 4..pos + 5][0];
  }

  lemma ChunkStarts(data: seq<byte>, pos: nat, fileId: u64, bytes: seq<byte>)
    requires 9 + |bytes| <= MAX_LEN && Ahead(data, pos, ChunkWire(fileId, bytes))
    ensures pos + 5 <= |data| && data[pos + 4] == CHUNK_TAG
    ensures FromBE(data[pos..pos + 4]) / 0x4000_0000 % 2 == 1
    ensures FromBE(data[pos..pos + 4]) % 0x4000_0000 == 9 + |bytes|
    ensures Ahead(data, pos + 5, LE(8, fileId)) && Ahead(data, pos + 13, bytes)
  {
    hide Prefix, LE, Ahead, FromBE;
    assert ChunkWire(fileId, bytes) == Prefix(9 + |bytes|, CHUNK_FLAG) + ([CHUNK_TAG] + (LE(8, fileId) + bytes));
    RawStart(data, pos, 9 + |bytes|, CHUNK_TAG, LE(8, fileId) + bytes);
    Split(data, pos + 5, LE(8, fileId), bytes);
  }

  lemma BatchStarts(data: seq<byte>, pos: nat, items: seq<Item>, utf8: Text -> bool)
    requires Sendable(items, utf8) && Ahead(data, pos, BatchWire(items))
    ensures pos + 5 <= |data| && data[pos + 4] == BATCH_TAG
    ensures FromBE(data[pos..pos + 4]) / 0x4000_0000 % 2 == 1
    ensures FromBE(data[pos..pos + 4]) % 0x4000_0000 == Total(items) && Ahead(data, pos + 5, BatchRest(items))
  {
    hide Prefix, HeadsBytes, DatasBytes, LE, Ahead, FromBE, Total, GoodItems;
    assert BatchWire(items) == Prefix(Total(items), CHUNK_FLAG) + ([BATCH_TAG] + BatchRest(items));
    RawStart(data, pos, Total(items), BATCH_TAG, BatchRest(items));
  }

  lemma ControlStarts(c: Codec, o: Outgoing, utf8: Text -> bool, data: seq<byte>, pos: nat)
    requires Faithful(c) && o.OutControl? && CanSend(c, o, utf8) && Ahead(data, pos, WireOf(c, o))
    ensures pos + 4 <= |data|
    ensures var len := FromBE(data[pos..pos + 4]);
      && len / 0x4000_0000 % 2 == 0 && pos + |WireOf(c, o)| == pos + 4 + len % 0x4000_0000 <= |data|
      && Decode(c, len, data[pos + 4..pos + 4 + len % 0x4000_0000]) == Ok(o.frame)
  {
    hide Decode, Encode, FromBE, Faithful;
    EncodeDecode(c, o.frame, o.compress, o.threshold);
    var w := WireOf(c, o);
    assert data[pos..pos + 4] == w[..4];
    assert data[pos + 4..pos + |w|] == w[4..];
  }

  /** How every sendable frame starts, by kind. */
  lemma Starts(c: Codec, o: Outgoing, utf8: Text -> bool, data: seq<byte>, pos: nat)
    requires Faithful(c) && CanSend(c, o, utf8) && Ahead(data, pos, WireOf(c, o))
    ensures pos + 4 <= |data|
    ensures o.OutControl? ==>
      var len := FromBE(data[pos..pos + 4]);
      && len / 0x4000_0000 % 2 == 0 && pos + |WireOf(c, o)| == pos + 4 + len % 0x4000_0000 <= |data|
      && Decode(c, len, data[pos + 4..pos + 4 + len % 0x4000_0000]) == Ok(o.frame)
    ensures !o.OutControl? ==>
      && FromBE(data[pos..pos + 4]) / 0x4000_0000 % 2 == 1
      && pos + 5 <= |data| && data[pos + 4] == if o.OutChunk? then CHUNK_TAG else BATCH_TAG
    ensures o.OutChunk? ==>
      && FromBE(data[pos..pos + 4]) % 0x4000_0000 == 9 + |o.data|
      && Ahead(data, pos + 5, LE(8, o.fileId)) && Ahead(data, pos + 13, o.data)
    ensures o.OutBatch? ==>
      && FromBE(data[pos..pos + 4]) % 0x4000_0000 == Total(o.items) && Ahead(data, pos + 5, BatchRest(o.items))
  {
    hide Ahead, LE, FromBE, Total, BatchRest, ChunkWire, BatchWire, Decode, Encode, GoodItems, Faithful, Sendable;
    match o {
      case OutChunk(fileId, bytes) =>
        ChunkStarts(data, pos, fileId, bytes);
      case OutBatch(items) =>
        BatchStarts(data, pos, items, utf8);
      case OutControl(_, _, _) =>
        ControlStarts(c, o, utf8, data, pos);
    }
  }

  method ReceiveChunk(pipe: Pipe, size: nat, ghost want: Option<(u64, seq<byte>)>)
    returns (r: Result<Frame, FrameError>)
    requires pipe.Valid()
    requires want.Some? ==>
      && size == 9 + |want.value.1| && Ahead(pipe.data, pipe.pos, LE(8, want.value.0))
      && Ahead(pipe.data, pipe.pos + 8, want.value.1)
    modifies pipe
    ensures pipe.Valid() && pipe.requested <= old(pipe.requested) + size
    ensures r.Ok? ==> r.value.FileChunk? && |r.value.data| + 9 == size
    ensures r.Ok? ==> Between(pipe.data, old(pipe.pos), pipe.pos, LE(8, r.value.fileId) + r.value.data)
    ensures want.Some? ==> r == Ok(FileChunk(want.value.0, want.value.1))
  {
    hide LE;
    Widths();
    ghost var at := pipe.pos;
    if size < 9 {
      return Err(ShortChunk);
    }
    var id := pipe.ReadLE(8);
    if id.None? {
      return Err(Truncated);
    }
    var data := pipe.ReadBuffer(size - 9);
    if data.None? {
      return Err(Truncated);
    }
    BetweenJoins(pipe.data, at, at + 8, pipe.pos, LE(8, id.value), data.value);
    return Ok(FileChunk(id.value, data.value));
  }

  /** One frame off the wire. On any input the buffers asked for fit the declared
      30-bit length; a frame the sender can send is received as sent and consumes
      exactly its bytes, whatever follows. */
  method ReceiveFrame(pipe: Pipe, c: Codec, utf8: Text -> bool, ghost want: Option<Outgoing>)
    returns (r: Result<Frame, FrameError>)
    requires pipe.Valid() && Faithful(c)
    requires want.Some? ==> CanSend(c, want.value, utf8) && Ahead(pipe.data, pipe.pos, WireOf(c, want.value))
    modifies pipe
    ensures pipe.Valid() && pipe.requested <= old(pipe.requested) + MAX_LEN
    ensures old(pipe.pos) + 4 <= |pipe.data| ==>
      pipe.requested <= old(pipe.requested) + FromBE(pipe.data[old(pipe.pos)..old(pipe.pos) + 4]) % 0x4000_0000
    ensures want.Some? ==> r == Ok(FrameOf(want.value))
    ensures want.Some? ==> pipe.pos == old(pipe.pos) + |WireOf(c, want.value)|
  {
    hide Ahead, Between, LE, HeadsBytes, DatasBytes, Total, Decode, Encode, CanSend, Recipes, Faithful, WireOf;
    ghost var at := pipe.pos;
    if want.Some? {
      Starts(c, want.value, utf8, pipe.data, at);
    }
    var prefix := pipe.ReadExact(4);
    if prefix.None? {
      return Err(Truncated);
    }
    var len := FromBE(prefix.value);
    var size := len % 0x4000_0000;
    if len / 0x4000_0000 % 2 == 1 {
      r := ReceiveRaw(pipe, size, c, utf8, want);
    } else {
      var data := pipe.ReadBuffer(size);
      if data.None? {
        return Err(Truncated);
      }
      r := Decode(c, len, data.value);
    }
  }

  /** The raw layouts: the tag selects chunk or batch. */
  method ReceiveRaw(pipe: Pipe, size: nat, c: Codec, utf8: Text -> bool, ghost want: Option<Outgoing>)
    returns (r: Result<Frame, FrameError>)
    requires pipe.Valid() && pipe.pos >= 4 && size == FromBE(pipe.data[pipe.pos - 4..pipe.pos]) % 0x4000_0000
    requires want.Some? ==> Faithful(c) && CanSend(c, want.value, utf8) && !want.value.OutControl?
    requires want.Some? ==> Ahead(pipe.data, pipe.pos - 4, WireOf(c, want.value))
    modifies pipe
    ensures pipe.Valid() && pipe.requested <= old(pipe.requested) + size
    ensures want.Some? ==> r == Ok(FrameOf(want.value))
    ensures want.Some? ==> pipe.pos == old(pipe.pos) - 4 + |WireOf(c, want.value)|
  {
    hide Ahead, Between, LE, HeadsBytes, DatasBytes, Total, Decode, Encode, Recipes, Faithful, WireOf, HeadsOf, DatasOf;
    ghost var at := pipe.pos - 4;
    if want.Some? {
      Starts(c, want.value, utf8, pipe.data, at);
      WireLengths(c, want.value, utf8);
    }
    var tag := pipe.ReadExact(1);
    if tag.None? {
      return Err(Truncated);
    }
    if tag.value[0] == CHUNK_TAG {
      ghost var chunk: Option<(u64, seq<byte>)> := None;
      if want.Some? {
        chunk := Some((want.value.fileId, want.value.data));
      }
      r := ReceiveChunk(pipe, size, chunk);
      EndOfChunk(pipe.data, at + 5, pipe.pos, r);
    } else if tag.value[0] == BATCH_TAG {
      ghost var sent: Option<seq<Item>> := None;
      if want.Some? {
        sent := Some(want.value.items);
      }
      var recipes;
      ghost var items;
      recipes, items := ReceiveBatch(pipe, size, utf8, sent);
      if recipes.Err? {
        return Err(recipes.error);
      }
      EndOfBatch(pipe.data, at + 5, pipe.pos, items);
      r := Ok(Batch(recipes.value));
    } else {
      r := Err(BadTag);
    }
  }

  lemma EndOfChunk(data: seq<byte>, from: nat, to: nat, r: Result<Frame, FrameError>)
    requires r.Ok? ==> r.value.FileChunk? && Between(data, from, to, LE(8, r.value.fileId) + r.value.data)
    ensures r.Ok? ==> to == from + 8 + |r.value.data|
  {
  }

  lemma EndOfBatch(data: seq<byte>, from: nat, to: nat, items: seq<Item>)
    requires Between(data, from, to, BatchRest(items))
    ensures to == from + |BatchRest(items)|
  {
  }

  lemma WireLengths(c: Codec, o: Outgoing, utf8: Text -> bool)
    ensures o.OutChunk? ==> |WireOf(c, o)| == 13 + |o.data|
    ensures o.OutBatch? ==> |WireOf(c, o)| == 5 + |BatchRest(o.items)|
    ensures o.OutChunk? && CanSend(c, o, utf8) ==> 9 + |o.data| <= MAX_LEN
    ensures o.OutBatch? && CanSend(c, o, utf8) ==> Sendable(o.items, utf8)
  {
    hide HeadsBytes, DatasBytes, HeadsOf, DatasOf, Total, LE;
    if o.OutBatch? {
      PrefixLength(Total(o.items), CHUNK_FLAG);
    }
  }
}
