/** Byte sources with short reads and failures. */
module Reader {
  import opened Bytes

  /** What the next `read` call does: deliver at most `n` bytes (at least one
      unless the input is exhausted), or fail. */
  datatype Step = Short(n: nat) | Fail

  datatype IoError = ReadError

  /** No read fails. */
  predicate NoFailure(schedule: seq<Step>) {
    forall i | 0 <= i < |schedule| :: schedule[i].Short?
  }

  /** A `Read`: its content is fixed, how it is split into reads is a schedule.
      Past the end of the schedule every read is full. */
  class Source {
    const data: seq<byte>
    const schedule: seq<Step>
    var pos: nat
    var calls: nat

    constructor (data: seq<byte>, schedule: seq<Step>)
      ensures this.data == data && this.schedule == schedule && pos == 0 && Valid()
    {
      this.data, this.schedule := data, schedule;
      pos, calls := 0, 0;
    }

    ghost predicate Valid()
      reads this
    {
      pos <= |data|
    }

    /** `read(&mut buf[..cap])`: the bytes delivered. */
    method Read(cap: nat) returns (r: Result<seq<byte>, IoError>)
      requires Valid()
      modifies this
      ensures Valid() && old(pos) <= pos
      ensures r.Err? ==> pos == old(pos)
      ensures NoFailure(schedule) ==> r.Ok?
      ensures r.Ok? ==> r.value == data[old(pos)..pos] && |r.value| <= cap
      ensures r.Ok? ==> (r.value == [] <==> cap == 0 || old(pos) == |data|)
    {
      var want := cap;
      if calls < |schedule| {
        match schedule[calls] {
          case Fail =>
            calls := calls + 1;
            return Err(ReadError);
          case Short(n) =>
            want := Min(cap, if n == 0 then 1 else n);
        }
      }
      var got := Min(want, |data| - pos);
      calls := calls + 1;
      r := Ok(data[pos..pos + got]);
      pos := pos + got;
    }

    /** The fill loop shared by every engine: read until `cap` bytes or the end.
        Its result depends on the content only, never on the read splitting. */
    method Fill(cap: nat) returns (r: Result<seq<byte>, IoError>)
      requires Valid()
      modifies this
      ensures Valid() && old(pos) <= pos
      ensures r.Ok? ==> pos == Min(old(pos) + cap, |data|) && r.value == data[old(pos)..pos]
      ensures NoFailure(schedule) ==> r.Ok?
    {
      var filled := [];
      while |filled| < cap
        invariant Valid() && old(pos) <= pos
        invariant pos == old(pos) + |filled| && |filled| <= cap
        invariant filled == data[old(pos)..pos]
        decreases cap - |filled|
      {
        var got := Read(cap - |filled|);
        match got {
          case Err(e) =>
            return Err(e);
          case Ok(bytes) =>
            if |bytes| == 0 {
              break;
            }
            filled := filled + bytes;
        }
      }
      return Ok(filled);
    }
  }
}
