/** The two copy loops of chapter 4 (copyfile1.c and copyfile.c) over streams
    that split, interrupt and fail. */
module CopyFiles {
  import opened Streams

  const BLKSIZE: nat := 1024

  /** What has been copied: the sink has grown by the next `n` source bytes. */
  ghost predicate Copied(was: seq<byte>, contents: seq<byte>, data: seq<byte>, start: nat, n: nat)
  {
    start + n <= |data| && contents == was + data[start..start + n]
  }

  lemma CopiedMore(was: seq<byte>, contents: seq<byte>, data: seq<byte>, start: nat, n: nat, more: nat)
    requires Copied(was, contents, data, start, n) && start + n + more <= |data|
    ensures Copied(was, contents + data[start + n..start + n + more], data, start, n + more)
  {
    assert data[start..start + n + more] == data[start..start + n] + data[start + n..start + n + more];
  }

  /** The inner loop of copyfile1 (lines 17 to 26): writes the block piece by
      piece, and stops at an error with an exact count. */
  method WriteBlock(sink: Sink, buf: array<byte>, size: nat) returns (written: nat, error: bool)
    requires size <= buf.Length
    modifies sink
    ensures written <= size && (error <==> written < size)
    ensures sink.contents == old(sink.contents) + buf[..written]
    ensures sink.failures == old(sink.failures) + if error then 1 else 0
  {
    var bp: nat, bytesread: nat := 0, size;
    while bytesread > 0
      invariant bp + bytesread == size
      invariant sink.contents == old(sink.contents) + buf[..bp]
      invariant sink.failures == old(sink.failures)
    {
      var result := sink.Write(buf, bp, bytesread);
      while result.Interrupted?
        invariant !result.Moved? ==> sink.contents == old(sink.contents) + buf[..bp]
        invariant result.Interrupted? ==> sink.failures == old(sink.failures)
        invariant result.Failed? ==> sink.failures == old(sink.failures) + 1
        invariant result.Moved? ==>
                    && 1 <= result.n <= bytesread && sink.failures == old(sink.failures)
                    && sink.contents == old(sink.contents) + buf[..bp] + buf[bp..bp + result.n]
        decreases result.Interrupted?, sink.interrupts
      {
        result := sink.Write(buf, bp, bytesread);
      }
      if result.Failed? {
        return bp, true;
      }
      bytesread := bytesread - result.n;
      bp := bp + result.n;
    }
    return bp, false;
  }

  /** One round of copyfile1: `written` more bytes of the source arrive. */
  method WriteBlockOn(sink: Sink, buf: array<byte>, bytesread: nat,
                      ghost was: seq<byte>, ghost data: seq<byte>, ghost start: nat, ghost n: nat)
    returns (written: nat, error: bool)
    requires 0 < bytesread <= buf.Length && start + n + bytesread <= |data|
    requires buf[..bytesread] == data[start + n..start + n + bytesread]
    requires Copied(was, sink.contents, data, start, n)
    modifies sink
    ensures written <= bytesread && (error <==> written < bytesread)
    ensures Copied(was, sink.contents, data, start, n + written)
    ensures sink.failures == old(sink.failures) + if error then 1 else 0
  {
    ghost var before := sink.contents;
    written, error := WriteBlock(sink, buf, bytesread);
    assert buf[..written] == buf[..bytesread][..written];
    CopiedMore(was, before, data, start, n, written);
  }

  /** copyfile1: whatever happens, the result is exactly the number of bytes by
      which the destination has grown, and these are the next source bytes. */
  method CopyFile1(source: Source, sink: Sink) returns (totalbytes: nat)
    requires source.Valid()
    modifies source, sink
    ensures source.Valid()
    ensures Copied(old(sink.contents), sink.contents, source.data, old(source.position), totalbytes)
    ensures source.failures == old(source.failures) && sink.failures == old(sink.failures) ==>
              old(source.position) + totalbytes == |source.data|
  {
    ghost var was, start := sink.contents, source.position;
    var buf := new byte[BLKSIZE];
    totalbytes := 0;
    while true
      invariant source.Valid() && source.position == start + totalbytes
      invariant Copied(was, sink.contents, source.data, start, totalbytes)
      invariant source.failures == old(source.failures) && sink.failures == old(sink.failures)
      decreases |source.data| - source.position
    {
      var bytesread := RRead(source, buf, BLKSIZE);
      if bytesread <= 0 {
        break;
      }
      var written, error := WriteBlockOn(sink, buf, bytesread, was, source.data, start, totalbytes);
      totalbytes := totalbytes + written;
      if error {
        break;
      }
    }
  }

  /** One r_write of copyfile: `k` more bytes of the source arrive. */
  method WriteOn(sink: Sink, buf: array<byte>, bytesread: nat,
                 ghost was: seq<byte>, ghost data: seq<byte>, ghost start: nat, ghost n: nat)
    returns (byteswritten: int, ghost k: nat)
    requires 0 < bytesread <= buf.Length && start + n + bytesread <= |data|
    requires buf[..bytesread] == data[start + n..start + n + bytesread]
    requires Copied(was, sink.contents, data, start, n)
    modifies sink
    ensures Copied(was, sink.contents, data, start, n + k)
    ensures if byteswritten == bytesread then k == bytesread && sink.failures == old(sink.failures)
            else byteswritten == -1 && k < bytesread && sink.failures != old(sink.failures)
  {
    ghost var before := sink.contents;
    byteswritten := RWrite(sink, buf, bytesread);
    k := |sink.contents| - |before|;
    assert buf[..k] == buf[..bytesread][..k];
    CopiedMore(was, before, data, start, n, k);
  }

  /** copyfile over r_read and r_write: the result is never more than the growth
      `grown` of the destination and falls short by less than one block; it is
      exact when no write failed. */
  method CopyFile(source: Source, sink: Sink) returns (totalbytes: nat, ghost grown: nat)
    requires source.Valid()
    modifies source, sink
    ensures source.Valid()
    ensures Copied(old(sink.contents), sink.contents, source.data, old(source.position), grown)
    ensures totalbytes <= grown < totalbytes + BLKSIZE
    ensures sink.failures == old(sink.failures) ==> totalbytes == grown
    ensures source.failures == old(source.failures) && sink.failures == old(sink.failures) ==>
              old(source.position) + grown == |source.data|
  {
    ghost var was, start := sink.contents, source.position;
    var buf := new byte[BLKSIZE];
    totalbytes, grown := 0, 0;
    while true
      invariant source.Valid() && source.position == start + totalbytes && grown == totalbytes
      invariant Copied(was, sink.contents, source.data, start, grown)
      invariant source.failures == old(source.failures) && sink.failures == old(sink.failures)
      decreases |source.data| - source.position
    {
      var bytesread := RRead(source, buf, BLKSIZE);
      if bytesread <= 0 {
        break;
      }
      var byteswritten;
      ghost var k;
      byteswritten, k := WriteOn(sink, buf, bytesread, was, source.data, start, grown);
      grown := grown + k;
      if byteswritten == -1 {
        break;
      }
      totalbytes := totalbytes + byteswritten;
    }
  }
}
