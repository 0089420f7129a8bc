/** `SparseWriter`: zero runs become holes, the logical bytes do not change. */
module Sparse {
  import opened Bytes

  const SPARSE_RUN_MIN: nat := 4096

  // ---- an abstract file ----

  /** Reading past the end of the content reads zeros. */
  function At(content: seq<byte>, k: nat): byte {
    if k < |content| then content[k] else 0
  }

  /** Cut or zero-padded to `n` bytes. */
  function Fit(s: seq<byte>, n: nat): seq<byte> {
    if n <= |s| then s[..n] else s + Zeros(n - |s|)
  }

  function Overwrite(content: seq<byte>, pos: nat, data: seq<byte>): seq<byte> {
    Fit(content, pos) + data + (if pos + |data| < |content| then content[pos + |data|..] else [])
  }

  /** A file: seeking past the end and writing there leaves a zero gap. */
  class File {
    var content: seq<byte>
    var pos: nat
    const most: nat

    /** A fresh staging file, empty or preallocated with zeros; one write call
        takes at most `most` bytes. */
    constructor (preallocated: nat, most: nat)
      requires most > 0
      ensures content == Zeros(preallocated) && pos == 0 && this.most == most
    {
      content, pos, this.most := Zeros(preallocated), 0, most;
    }

    method Write(data: seq<byte>) returns (n: nat)
      modifies this
      ensures n == Min(|data|, most)
      ensures content == Overwrite(old(content), old(pos), data[..n]) && pos == old(pos) + n
    {
      n := Min(|data|, most);
      content := Overwrite(content, pos, data[..n]);
      pos := pos + n;
    }

    method SeekForward(n: nat)
      modifies this`pos
      ensures pos == old(pos) + n
    {
      pos := pos + n;
    }

    method SetLen(n: nat)
      modifies this
      ensures content == Fit(old(content), n) && pos == old(pos)
    {
      content := Fit(content, n);
    }
  }

  // ---- what the file stands for ----

  /** With `pending` zeros held back, the file up to `pos` reads as `stream` and is
      untouched after it. */
  ghost predicate Reads(content: seq<byte>, pos: nat, stream: seq<byte>, pending: nat) {
    && pos + pending == |stream|
    && (forall k | 0 <= k < pos :: At(content, k) == stream[k])
    && (forall k | pos <= k < |stream| :: stream[k] == 0)
    && (forall k | pos <= k < |content| :: content[k] == 0)
  }

  lemma OverwriteAt(content: seq<byte>, pos: nat, data: seq<byte>, k: nat)
    ensures At(Overwrite(content, pos, data), k)
         == if pos <= k < pos + |data| then data[k - pos] else At(content, k)
  {
  }

  lemma WriteReads(content: seq<byte>, pos: nat, stream: seq<byte>, data: seq<byte>)
    requires Reads(content, pos, stream, 0)
    ensures Reads(Overwrite(content, pos, data), pos + |data|, stream + data, 0)
  {
    hide Overwrite;
    var c := Overwrite(content, pos, data);
    forall k: nat
      ensures At(c, k) == if pos <= k < pos + |data| then data[k - pos] else At(content, k)
    {
      OverwriteAt(content, pos, data, k);
    }
    forall k | pos + |data| <= k < |c|
      ensures c[k] == 0
    {
      assert At(c, k) == At(content, k);
    }
  }

  lemma HoldZeros(content: seq<byte>, pos: nat, stream: seq<byte>, pending: nat, n: nat)
    requires Reads(content, pos, stream, pending)
    ensures Reads(content, pos, stream + Zeros(n), pending + n)
  {
  }

  /** A hole reads as the zeros it skips. */
  lemma SkipReads(content: seq<byte>, pos: nat, stream: seq<byte>, pending: nat)
    requires Reads(content, pos, stream, pending)
    ensures Reads(content, pos + pending, stream, 0)
  {
    forall k | 0 <= k < pos + pending
      ensures At(content, k) == stream[k]
    {
    }
  }

  lemma FlushReads(content: seq<byte>, pos: nat, stream: seq<byte>, pending: nat)
    requires Reads(content, pos, stream, pending)
    ensures Reads(Overwrite(content, pos, Zeros(pending)), pos + pending, stream, 0)
  {
    var head := stream[..pos];
    assert stream == head + Zeros(pending);
    WriteReads(content, pos, head, Zeros(pending));
  }

  lemma CutReads(content: seq<byte>, pos: nat, stream: seq<byte>, pending: nat, n: nat)
    requires Reads(content, pos, stream, pending)
    ensures Fit(content, n) == Fit(stream, n)
  {
    forall k | 0 <= k < n
      ensures Fit(content, n)[k] == At(content, k) && Fit(stream, n)[k] == At(stream, k) && At(content, k) == At(stream, k)
    {
    }
  }

  // ---- the writer ----

  class SparseWriter {
    const inner: File
    const enabled: bool
    const total: nat
    var zerosPending: nat
    /** Every byte accepted so far. */
    ghost var stream: seq<byte>

    /** Position plus pending zeros is what was written; the pending run is short,
        and empty when hole detection is off. */
    ghost predicate Valid()
      reads this, inner
    {
      && inner.most > 0 && Reads(inner.content, inner.pos, stream, zerosPending)
      && zerosPending < SPARSE_RUN_MIN && (!enabled ==> zerosPending == 0)
    }

    constructor (inner: File, total: nat, enabled: bool)
      requires inner.pos == 0 && inner.most > 0 && inner.content == Zeros(|inner.content|)
      ensures Valid() && this.inner == inner && this.total == total && this.enabled == enabled && stream == []
    {
      this.inner, this.total, this.enabled := inner, total, enabled;
      zerosPending, stream := 0, [];
    }

    method FlushZeros()
      requires Valid()
      modifies this, inner
      ensures Valid() && stream == old(stream) && zerosPending == 0
    {
      hide Reads;
      if zerosPending > 0 {
        FlushReads(inner.content, inner.pos, stream, zerosPending);
        WriteAllTo(inner, Zeros(zerosPending));
        zerosPending := 0;
      }
    }

    /** Zeros are never written here: a short run stays pending, a long one becomes a
        hole by moving the position. */
    method BufferZeros(n: nat)
      requires Valid() && enabled
      modifies this, inner`pos
      ensures Valid() && stream == old(stream) + Zeros(n)
      ensures var run := old(zerosPending) + n;
        if run < SPARSE_RUN_MIN then zerosPending == run && inner.pos == old(inner.pos)
        else zerosPending == 0 && inner.pos == old(inner.pos) + run
    {
      hide Reads;
      HoldZeros(inner.content, inner.pos, stream, zerosPending, n);
      stream := stream + Zeros(n);
      zerosPending := zerosPending + n;
      if zerosPending >= SPARSE_RUN_MIN {
        SkipReads(inner.content, inner.pos, stream, zerosPending);
        inner.SeekForward(zerosPending);
        zerosPending := 0;
      }
    }

    /** One `write`: splits at the non-zero bytes when enabled, otherwise passes
        through, possibly short. */
    method Write(buf: seq<byte>) returns (n: nat)
      requires Valid()
      modifies this, inner
      ensures Valid() && n <= |buf| && stream == old(stream) + buf[..n]
      ensures buf != [] ==> n > 0
      ensures enabled ==> n == |buf|
    {
      hide Reads;
      if !enabled {
        n := inner.Write(buf);
        WriteReads(old(inner.content), old(inner.pos), stream, buf[..n]);
        stream := stream + buf[..n];
        return;
      }
      var i := 0;
      while i < |buf|
        invariant Valid() && i <= |buf| && stream == old(stream) + buf[..i]
        decreases |buf| - i
      {
        var start := i;
        if buf[i] == 0 {
          while i < |buf| && buf[i] == 0
            invariant start <= i <= |buf| && (i == start ==> i < |buf| && buf[i] == 0)
            invariant forall k | start <= k < i :: buf[k] == 0
          {
            i := i + 1;
          }
          BufferZeros(i - start);
          assert buf[..start] + Zeros(i - start) == buf[..i];
          assert old(stream) + buf[..start] + Zeros(i - start) == old(stream) + (buf[..start] + Zeros(i - start));
        } else {
          while i < |buf| && buf[i] != 0
            invariant start <= i <= |buf| && (i == start ==> i < |buf| && buf[i] != 0)
          {
            i := i + 1;
          }
          FlushZeros();
          Through(buf[start..i]);
          assert buf[..start] + buf[start..i] == buf[..i];
          assert old(stream) + buf[..start] + buf[start..i] == old(stream) + (buf[..start] + buf[start..i]);
        }
      }
      n := |buf|;
      assert buf[..n] == buf;
    }

    method Through(data: seq<byte>)
      requires Valid() && zerosPending == 0 && data != []
      modifies this, inner
      ensures Valid() && stream == old(stream) + data
    {
      hide Reads;
      WriteReads(inner.content, inner.pos, stream, data);
      WriteAllTo(inner, data);
      stream := stream + data;
    }

    /** `write_all` on the writer: repeated writes until the buffer is gone. */
    method WriteAll(buf: seq<byte>)
      requires Valid()
      modifies this, inner
      ensures Valid() && stream == old(stream) + buf
    {
      hide Reads;
      var done := 0;
      while done < |buf|
        invariant Valid() && done <= |buf| && stream == old(stream) + buf[..done]
        decreases |buf| - done
      {
        var n := Write(buf[done..]);
        assert buf[..done] + buf[done..][..n] == buf[..done + n];
        assert old(stream) + buf[..done] + buf[done..][..n] == old(stream) + (buf[..done] + buf[done..][..n]);
        done := done + n;
      }
      assert buf[..done] == buf;
    }

    /** Whatever was written, and whether or not holes were made, the finished file
        is the written bytes cut or zero-padded to the announced size. */
    method Finish()
      requires Valid()
      modifies this, inner
      ensures inner.content == Fit(stream, total) && stream == old(stream) && zerosPending == 0
    {
      hide Reads;
      FlushZeros();
      CutReads(inner.content, inner.pos, stream, zerosPending, total);
      inner.SetLen(total);
    }

    /** The abort path: the partial file is cut to the bytes written so far. */
    method SetLen(size: nat)
      requires Valid()
      modifies this, inner
      ensures inner.content == Fit(stream, size) && stream == old(stream) && zerosPending == 0
    {
      hide Reads;
      CutReads(inner.content, inner.pos, stream, zerosPending, size);
      zerosPending := 0;
      inner.SetLen(size);
    }
  }

  lemma OverwriteTwice(content: seq<byte>, pos: nat, a: seq<byte>, b: seq<byte>)
    ensures Overwrite(Overwrite(content, pos, a), pos + |a|, b) == Overwrite(content, pos, a + b)
  {
  }

  /** `write_all` on the file. */
  method WriteAllTo(file: File, data: seq<byte>)
    requires file.most > 0
    modifies file
    ensures data != [] ==> file.content == Overwrite(old(file.content), old(file.pos), data)
    ensures data == [] ==> file.content == old(file.content)
    ensures file.pos == old(file.pos) + |data|
  {
    hide Overwrite;
    var done := 0;
    while done < |data|
      invariant done <= |data| && file.pos == old(file.pos) + done
      invariant file.content == if done == 0 then old(file.content)
        else Overwrite(old(file.content), old(file.pos), data[..done])
      decreases |data| - done
    {
      var n := file.Write(data[done..]);
      OverwriteTwice(old(file.content), old(file.pos), data[..done], data[done..][..n]);
      assert data[..done] + data[done..][..n] == data[..done + n];
      done := done + n;
    }
    assert data[..done] == data;
  }

  /** The holes mode and the plain mode leave the same file for any sequence of
      writes to a fresh file, preallocated or not. */
  method BothModes(writes: seq<seq<byte>>, total: nat, preallocated: nat, most: nat)
    returns (sparse: seq<byte>, plain: seq<byte>)
    requires most > 0
    ensures sparse == plain == Fit(Concat(writes), total)
  {
    sparse := WriteFile(writes, total, preallocated, most, true);
    plain := WriteFile(writes, total, preallocated, most, false);
  }

  function Concat(parts: seq<seq<byte>>): seq<byte> {
    if parts == [] then [] else Concat(parts[..|parts| - 1]) + parts[|parts| - 1]
  }

  method WriteFile(writes: seq<seq<byte>>, total: nat, preallocated: nat, most: nat, enabled: bool)
    returns (content: seq<byte>)
    requires most > 0
    ensures content == Fit(Concat(writes), total)
  {
    hide Reads, Fit;
    var file := new File(preallocated, most);
    ZerosLength(preallocated);
    var w := new SparseWriter(file, total, enabled);
    for i := 0 to |writes|
      invariant w.Valid() && fresh(w) && fresh(file) && w.inner == file && w.total == total
      invariant w.stream == Concat(writes[..i])
    {
      assert writes[..i + 1][..i] == writes[..i];
      w.WriteAll(writes[i]);
    }
    assert writes[..|writes|] == writes;
    w.Finish();
    content := file.content;
  }

  lemma ZerosLength(n: nat)
    ensures |Zeros(n)| == n
  {
  }
}
