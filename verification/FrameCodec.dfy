/** The frame codec: length prefix with two flag bits, the raw chunk and batch
    layouts, and the flag handling of the serialized frames. */
module FrameCodec {
  import opened Bytes
  import opened Integers
  import opened DeltaOps

  const MAX_LEN: nat := 0x3fff_ffff
  const CHUNK_FLAG: nat := 0x4000_0000
  const COMPRESSED_FLAG: nat := 0x8000_0000
  const CHUNK_TAG: byte := 0
  const BATCH_TAG: byte := 1
  const CHECKSUM_LEN: nat := 32

  type Text = seq<byte>

  /** A small file queued for a batch frame. */
  datatype Item = Item(fileId: u64, path: Text, data: seq<byte>, checksum: Option<Digest>)

  /** A batch record as received: its data is the literal op of a delta. */
  datatype BatchFile = BatchFile(fileId: u64, path: Text, sourceSize: nat, ops: seq<Op>, checksum: Option<Digest>)

  /** The frames of the bulk paths; every other frame is only a number here. */
  datatype Frame =
    | FileStart(fileId: u64, path: Text, size: nat)
    | FileChunk(fileId: u64, data: seq<byte>)
    | FileEnd(fileId: u64)
    | Batch(recipes: seq<BatchFile>)
    | Other(id: nat)

  datatype FrameError =
    | Truncated | TooLong | BadTag | ShortChunk | BadCount | PathOverrun | DataOverrun | BadText | BadFlag
    | Misrouted | ClaimTooBig | BadPayload

  // ---- the wire layout ----

  /** The big-endian prefix; the flag bits lie above every allowed length. */
  function Prefix(len: nat, flag: nat): seq<byte> { BE(4, len + flag) }

  function ChunkBody(fileId: u64, data: seq<byte>): seq<byte> {
    [CHUNK_TAG] + LE(8, fileId) + data
  }

  function ChunkWire(fileId: u64, data: seq<byte>): seq<byte> {
    Prefix(9 + |data|, CHUNK_FLAG) + ChunkBody(fileId, data)
  }

  /** One record's header: everything but the data, which follows all headers. */
  datatype Head = Head(fileId: u64, path: Text, dataLen: nat, checksum: Option<Digest>)

  function HeadOf(i: Item): Head { Head(i.fileId, i.path, |i.data|, i.checksum) }

  function ChecksumBytes(c: Option<Digest>): seq<byte> {
    if c.Some? then [1] + c.value else [0]
  }

  function HeadBytes(h: Head): seq<byte> {
    LE(8, h.fileId) + (LE(4, |h.path|) + (h.path + (LE(8, h.dataLen) + ChecksumBytes(h.checksum))))
  }

  function HeadsBytes(hs: seq<Head>): seq<byte> {
    if hs == [] then [] else HeadBytes(hs[0]) + HeadsBytes(hs[1..])
  }

  function HeadsOf(items: seq<Item>): seq<Head> {
    seq(|items|, k requires 0 <= k < |items| => HeadOf(items[k]))
  }

  function DatasBytes(ds: seq<seq<byte>>): seq<byte> {
    if ds == [] then [] else ds[0] + DatasBytes(ds[1..])
  }

  function DatasOf(items: seq<Item>): seq<seq<byte>> {
    seq(|items|, k requires 0 <= k < |items| => items[k].data)
  }

  function BatchBody(items: seq<Item>): seq<byte> {
    [BATCH_TAG] + LE(4, |items|) + HeadsBytes(HeadsOf(items)) + DatasBytes(DatasOf(items))
  }

  function RecordSize(i: Item): nat {
    8 + 4 + |i.path| + 8 + 1 + |i.data| + if i.checksum.Some? then CHECKSUM_LEN else 0
  }

  function Total(items: seq<Item>): nat {
    if items == [] then 5 else RecordSize(items[0]) + Total(items[1..])
  }

  /** What the receiver should hand on for an item: empty data makes no op. */
  function Recipe(i: Item): BatchFile {
    BatchFile(i.fileId, i.path, |i.data|, if i.data == [] then [] else [Literal(i.data)], i.checksum)
  }

  function Recipes(items: seq<Item>): seq<BatchFile> {
    seq(|items|, k requires 0 <= k < |items| => Recipe(items[k]))
  }

  predicate GoodChecksum(c: Option<Digest>) {
    c.Some? ==> |c.value| == CHECKSUM_LEN
  }

  predicate GoodItems(items: seq<Item>, utf8: Text -> bool) {
    forall i | 0 <= i < |items| :: GoodChecksum(items[i].checksum) && utf8(items[i].path)
  }

  lemma {:induction false} TotalIsLength(items: seq<Item>)
    requires forall i | 0 <= i < |items| :: GoodChecksum(items[i].checksum)
    ensures Total(items) == 5 + |HeadsBytes(HeadsOf(items))| + |DatasBytes(DatasOf(items))|
    ensures |items| <= Total(items)
    ensures forall i | 0 <= i < |items| :: |items[i].path| + |items[i].data| <= Total(items)
  {
    if items != [] {
      TotalIsLength(items[1..]);
      assert HeadsOf(items)[1..] == HeadsOf(items[1..]) && DatasOf(items)[1..] == DatasOf(items[1..]);
      forall i | 0 <= i < |items|
        ensures |items[i].path| + |items[i].data| <= Total(items)
      {
        if i > 0 {
          assert items[1..][i - 1] == items[i];
        }
      }
    }
  }

  // ---- sending ----

  class Wire {
    var bytes: seq<byte>

    constructor ()
      ensures bytes == []
    {
      bytes := [];
    }

    method Put(s: seq<byte>)
      modifies this
      ensures bytes == old(bytes) + s
    {
      bytes := bytes + s;
    }
  }

  /** Appends one chunk frame, unless it is too long for the length field. */
  method ChunkFrameWire(fileId: u64, data: seq<byte>, out: Wire) returns (ok: bool)
    modifies out
    ensures ok <==> 9 + |data| <= MAX_LEN
    ensures out.bytes == if ok then old(out.bytes) + ChunkWire(fileId, data) else old(out.bytes)
  {
    var total := 1 + 8 + |data|;
    if total > MAX_LEN {
      return false;
    }
    out.Put(Prefix(total, CHUNK_FLAG));
    out.Put([CHUNK_TAG]);
    out.Put(LE(8, fileId));
    out.Put(data);
    ok := true;
    assert out.bytes == old(out.bytes) + ChunkWire(fileId, data);
  }

  function BatchWire(items: seq<Item>): seq<byte> {
    Prefix(Total(items), CHUNK_FLAG) + BatchBody(items)
  }

  method TotalSize(items: seq<Item>) returns (total: nat)
    ensures total == Total(items)
  {
    total := 1 + 4;
    assert items[0..] == items && items[|items|..] == [];
    for i := 0 to |items|
      invariant total + Total(items[i..]) == Total(items) + 5
    {
      assert items[i..][1..] == items[i + 1..];
      total := total + RecordSize(items[i]);
    }
  }

  lemma BytesAssociate(a: seq<byte>, b: seq<byte>, c: seq<byte>)
    ensures a + (b + c) == a + b + c
  {
  }

  /** All record headers in one buffer. */
  method HeaderBlock(items: seq<Item>) returns (headers: seq<byte>)
    ensures headers == HeadsBytes(HeadsOf(items))
  {
    hide HeadBytes;
    headers := [];
    ghost var heads := HeadsOf(items);
    assert heads[0..] == heads && heads[|heads|..] == [];
    for i := 0 to |items|
      invariant headers + HeadsBytes(heads[i..]) == HeadsBytes(heads)
    {
      assert heads[i..][1..] == heads[i + 1..];
      BytesAssociate(headers, HeadBytes(heads[i]), HeadsBytes(heads[i + 1..]));
      headers := headers + HeadBytes(HeadOf(items[i]));
    }
  }

  method PutDatas(out: Wire, items: seq<Item>)
    modifies out
    ensures out.bytes == old(out.bytes) + DatasBytes(DatasOf(items))
  {
    ghost var datas := DatasOf(items);
    assert datas[0..] == datas && datas[|datas|..] == [];
    for i := 0 to |items|
      invariant out.bytes + DatasBytes(datas[i..]) == old(out.bytes) + DatasBytes(datas)
    {
      assert datas[i..][1..] == datas[i + 1..];
      BytesAssociate(out.bytes, datas[i], DatasBytes(datas[i + 1..]));
      out.Put(items[i].data);
    }
  }

  /** Sends a batch as prefix, header block and data block, unless it is too long. */
  method SendBatchRaw(out: Wire, items: seq<Item>) returns (ok: bool)
    modifies out
    ensures ok <==> Total(items) <= MAX_LEN
    ensures out.bytes == if ok then old(out.bytes) + BatchWire(items) else old(out.bytes)
  {
    hide HeadsBytes, DatasBytes, HeadsOf, DatasOf, Prefix, Total;
    var total := TotalSize(items);
    if total > MAX_LEN {
      return false;
    }
    out.Put(Prefix(total, CHUNK_FLAG) + [BATCH_TAG] + LE(4, |items|));
    var headers := HeaderBlock(items);
    out.Put(headers);
    PutDatas(out, items);
    ok := true;
    assert out.bytes == old(out.bytes) + BatchWire(items);
  }
}
