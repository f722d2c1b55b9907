/** Byte streams under a kernel that may split every transfer, interrupt calls
    finitely often and fail at any time, and the loops of chapter17/restart.c
    and chapter04/r_write.c that hide this from their callers. */
module Streams {

  type byte = x: int | 0 <= x < 256

  /** The result of read(2) or write(2): Moved(0) from a read is end of file. */
  datatype SysResult = Moved(n: nat) | Interrupted | Failed

  /** The writing end of a stream: what has been written so far, how many more
      times the kernel may interrupt, and how many writes have failed. */
  class Sink {
    var contents: seq<byte>
    var interrupts: nat
    var failures: nat

    constructor (interrupts: nat)
      ensures contents == [] && failures == 0 && this.interrupts == interrupts
    {
      contents, this.interrupts, failures := [], interrupts, 0;
    }

    /** write(2): a success moves at least one byte and as many as it likes. */
    method Write(buf: array<byte>, offset: nat, count: nat) returns (r: SysResult)
      requires 0 < count && offset + count <= buf.Length
      modifies this
      ensures r.Moved? ==>
                && 1 <= r.n <= count && contents == old(contents) + buf[offset..offset + r.n]
                && interrupts == old(interrupts) && failures == old(failures)
      ensures r.Interrupted? ==>
                contents == old(contents) && interrupts < old(interrupts) && failures == old(failures)
      ensures r.Failed? ==>
                contents == old(contents) && interrupts == old(interrupts) && failures == old(failures) + 1
    {
      var choice: nat :| true;
      if choice == 0 && interrupts > 0 {
        interrupts := interrupts - 1;
        return Interrupted;
      }
      if choice == 1 {
        failures := failures + 1;
        return Failed;
      }
      var n: nat :| 1 <= n <= count;
      contents := contents + buf[offset..offset + n];
      r := Moved(n);
    }
  }

  /** The reading end of a stream: all it will ever deliver, and how far it has
      been read. */
  class Source {
    const data: seq<byte>
    var position: nat
    var interrupts: nat
    var failures: nat

    ghost predicate Valid()
      reads this
    {
      position <= |data|
    }

    constructor (data: seq<byte>, interrupts: nat)
      ensures Valid() && this.data == data && position == 0 && failures == 0 && this.interrupts == interrupts
    {
      this.data, position, this.interrupts, failures := data, 0, interrupts, 0;
    }

    /** read(2): a success moves at least one byte unless the stream has ended. */
    method Read(buf: array<byte>, offset: nat, count: nat) returns (r: SysResult)
      requires Valid() && 0 < count && offset + count <= buf.Length
      modifies this, buf
      ensures Valid()
      ensures forall k :: 0 <= k < buf.Length && !(offset <= k < offset + count) ==> buf[k] == old(buf[k])
      ensures r.Moved? ==>
                && r.n <= count && (r.n == 0 <==> old(position) == |data|)
                && position == old(position) + r.n
                && buf[offset..offset + r.n] == data[old(position)..position]
                && interrupts == old(interrupts) && failures == old(failures)
      ensures r.Interrupted? ==>
                position == old(position) && interrupts < old(interrupts) && failures == old(failures)
      ensures r.Failed? ==>
                position == old(position) && interrupts == old(interrupts) && failures == old(failures) + 1
    {
      var choice: nat :| true;
      if choice == 0 && interrupts > 0 {
        interrupts := interrupts - 1;
        return Interrupted;
      }
      if choice == 1 {
        failures := failures + 1;
        return Failed;
      }
      if position == |data| {
        return Moved(0);
      }
      var most := if count < |data| - position then count else |data| - position;
      var n: nat :| 1 <= n <= most;
      forall k | 0 <= k < n {
        buf[offset + k] := data[position + k];
      }
      position := position + n;
      r := Moved(n);
    }
  }

  /** r_write: writes all of it, or reports an error after some prefix. */
  method RWrite(sink: Sink, buf: array<byte>, size: nat) returns (r: int)
    requires size <= buf.Length
    modifies sink
    ensures r == size || r == -1
    ensures r == size ==> sink.contents == old(sink.contents) + buf[..size] && sink.failures == old(sink.failures)
    ensures r == -1 ==> sink.failures == old(sink.failures) + 1
    ensures r == -1 ==> |old(sink.contents)| <= |sink.contents| < |old(sink.contents)| + size
    ensures r == -1 ==>
              sink.contents == old(sink.contents) + buf[..|sink.contents| - |old(sink.contents)|]
    ensures sink.interrupts <= old(sink.interrupts)
  {
    var bufp: nat, bytestowrite: nat, totalbytes: nat := 0, size, 0;
    while bytestowrite > 0
      invariant bufp + bytestowrite == size && totalbytes == bufp
      invariant sink.contents == old(sink.contents) + buf[..bufp]
      invariant sink.failures == old(sink.failures) && sink.interrupts <= old(sink.interrupts)
      decreases bytestowrite, sink.interrupts
    {
      var result := sink.Write(buf, bufp, bytestowrite);
      if result.Failed? {
        return -1;
      }
      var byteswritten := if result.Moved? then result.n else 0;
      totalbytes := totalbytes + byteswritten;
      bufp := bufp + byteswritten;
      bytestowrite := bytestowrite - byteswritten;
    }
    r := totalbytes;
  }

  /** r_read: one read, restarted while it is interrupted. */
  method RRead(source: Source, buf: array<byte>, size: nat) returns (r: int)
    requires source.Valid() && 0 < size <= buf.Length
    modifies source, buf
    ensures source.Valid()
    ensures -1 <= r <= size
    ensures r == -1 ==> source.position == old(source.position) && source.failures == old(source.failures) + 1
    ensures r >= 0 ==>
              && (r == 0 <==> old(source.position) == |source.data|)
              && source.position == old(source.position) + r
              && buf[..r] == source.data[old(source.position)..source.position]
              && source.failures == old(source.failures)
  {
    var result := source.Read(buf, 0, size);
    while result.Interrupted?
      invariant source.Valid()
      invariant result.Interrupted? ==> source.position == old(source.position) && source.failures == old(source.failures)
      invariant result.Failed? ==> source.position == old(source.position) && source.failures == old(source.failures) + 1
      invariant result.Moved? ==>
                  && result.n <= size && (result.n == 0 <==> old(source.position) == |source.data|)
                  && source.position == old(source.position) + result.n
                  && buf[..result.n] == source.data[old(source.position)..source.position]
                  && source.failures == old(source.failures)
      decreases result.Interrupted?, source.interrupts
    {
      result := source.Read(buf, 0, size);
    }
    r := if result.Moved? then result.n else -1;
  }

  /** readblock: reads exactly `size` bytes; 0 when the stream had already ended,
      -1 when it ends in the middle or a read fails. */
  method ReadBlock(source: Source, buf: array<byte>, size: nat) returns (r: int)
    requires source.Valid() && size <= buf.Length
    modifies source, buf
    ensures source.Valid()
    ensures r == size || r == 0 || r == -1
    ensures r == size ==>
              && source.position == old(source.position) + size
              && buf[..size] == source.data[old(source.position)..source.position]
              && source.failures == old(source.failures)
    ensures r == 0 && size > 0 ==>
              old(source.position) == source.position == |source.data| && source.failures == old(source.failures)
    ensures r == -1 && source.failures == old(source.failures) ==>
              old(source.position) < source.position == |source.data| < old(source.position) + size
    ensures source.position >= old(source.position)
    ensures source.failures == old(source.failures) || (r == -1 && source.failures == old(source.failures) + 1)
  {
    ghost var start := source.position;
    var bufp: nat, bytestoread: nat, totalbytes: nat := 0, size, 0;
    while bytestoread > 0
      invariant source.Valid() && bufp + bytestoread == size && totalbytes == bufp
      invariant source.position == start + bufp
      invariant buf[..bufp] == source.data[start..start + bufp]
      invariant source.failures == old(source.failures)
      decreases bytestoread, source.interrupts
    {
      ghost var before := buf[..bufp];
      var result := source.Read(buf, bufp, bytestoread);
      assert buf[..bufp] == before;
      if result == Moved(0) && totalbytes == 0 {
        return 0;
      }
      if result == Moved(0) {
        return -1;
      }
      if result.Failed? {
        return -1;
      }
      var bytesread := if result.Moved? then result.n else 0;
      assert buf[..bufp + bytesread] == before + buf[bufp..bufp + bytesread];
      assert source.data[start..start + bufp + bytesread]
          == source.data[start..start + bufp] + source.data[start + bufp..start + bufp + bytesread];
      totalbytes := totalbytes + bytesread;
      bufp := bufp + bytesread;
      bytestoread := bytestoread - bytesread;
    }
    r := totalbytes;
  }
}
