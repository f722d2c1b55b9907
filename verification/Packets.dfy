/** chapter17/putpacket.c and chapter17/getpacket.c: packets framed by a header
    on a byte stream. */
module Packets {
  import opened Options
  import opened Streams

  const MAX_PACK_SIZE: nat := 1024
  const HEADLEN: nat := 16

  /** A C int of 32 bits. */
  type Int32 = x: int | -0x8000_0000 <= x < 0x8000_0000

  datatype Header = Header(compid: Int32, taskid: Int32, ptype: Int32, length: Int32)

  datatype Packet = Packet(compid: Int32, taskid: Int32, ptype: Int32, payload: seq<byte>)

  /** An int as it lies in memory: four bytes, least significant first. */
  function IntBytes(x: Int32): (b: seq<byte>)
    ensures |b| == 4
  {
    var u := if x < 0 then x + 0x1_0000_0000 else x;
    [u % 0x100, u / 0x100 % 0x100, u / 0x1_0000 % 0x100, u / 0x100_0000]
  }

  function BytesInt(b: seq<byte>): Int32
    requires |b| == 4
  {
    var u := b[0] as int + 0x100 * b[1] as int + 0x1_0000 * b[2] as int + 0x100_0000 * b[3] as int;
    if u >= 0x8000_0000 then u - 0x1_0000_0000 else u
  }

  lemma IntRoundTrip(x: Int32)
    ensures BytesInt(IntBytes(x)) == x
  {
    var u := if x < 0 then x + 0x1_0000_0000 else x;
    assert u / 0x1_0000 == u / 0x100 / 0x100;
    assert u / 0x100_0000 == u / 0x1_0000 / 0x100;
  }

  function HeaderBytes(h: Header): (b: seq<byte>)
    ensures |b| == HEADLEN
  {
    IntBytes(h.compid) + IntBytes(h.taskid) + IntBytes(h.ptype) + IntBytes(h.length)
  }

  function BytesHeader(b: seq<byte>): Header
    requires |b| == HEADLEN
  {
    Header(BytesInt(b[..4]), BytesInt(b[4..8]), BytesInt(b[8..12]), BytesInt(b[12..]))
  }

  lemma HeaderRoundTrip(h: Header)
    ensures BytesHeader(HeaderBytes(h)) == h
  {
    var b := HeaderBytes(h);
    assert b[..4] == IntBytes(h.compid) && b[4..8] == IntBytes(h.taskid);
    assert b[8..12] == IntBytes(h.ptype) && b[12..] == IntBytes(h.length);
    IntRoundTrip(h.compid);
    IntRoundTrip(h.taskid);
    IntRoundTrip(h.ptype);
    IntRoundTrip(h.length);
  }

  ghost predicate Sendable(p: Packet) { |p.payload| <= MAX_PACK_SIZE }

  /** A packet on the stream. */
  function Frame(p: Packet): (b: seq<byte>)
    requires |p.payload| <= MAX_PACK_SIZE
    ensures |b| == HEADLEN + |p.payload|
  {
    HeaderBytes(Header(p.compid, p.taskid, p.ptype, |p.payload|)) + p.payload
  }

  /** The packet that a stream starts with, if it starts with a whole one. */
  function Unframe(s: seq<byte>): (p: Option<Packet>)
    ensures p.Some? ==> |p.value.payload| <= MAX_PACK_SIZE && HEADLEN + |p.value.payload| <= |s|
  {
    if |s| < HEADLEN then None
    else
      var h := BytesHeader(s[..HEADLEN]);
      if h.length < 0 || h.length > MAX_PACK_SIZE || |s| < HEADLEN + h.length then None
      else Some(Packet(h.compid, h.taskid, h.ptype, s[HEADLEN..HEADLEN + h.length]))
  }

  /** The bytes of an int in two's complement. */
  lemma IntLayout(x: Int32)
    ensures var b := IntBytes(x);
      b[0] as int + 0x100 * b[1] as int + 0x1_0000 * b[2] as int + 0x100_0000 * b[3] as int ==
        if x < 0 then x + 0x1_0000_0000 else x
  {
    var u := if x < 0 then x + 0x1_0000_0000 else x;
    assert u / 0x1_0000 == u / 0x100 / 0x100;
    assert u / 0x100_0000 == u / 0x1_0000 / 0x100;
  }

  /** What lies where in a packet on the stream: the fields of the header in their
      order of declaration, then the payload. */
  lemma FrameLayout(p: Packet)
    requires Sendable(p)
    ensures var b := Frame(p);
      && |b| == 16 + |p.payload|
      && b[..4] == IntBytes(p.compid) && b[4..8] == IntBytes(p.taskid) && b[8..12] == IntBytes(p.ptype)
      && b[12..16] == IntBytes(|p.payload|) && b[16..] == p.payload
  {
    var h := HeaderBytes(Header(p.compid, p.taskid, p.ptype, |p.payload|));
    assert Frame(p)[..16] == h;
    assert h[..4] == IntBytes(p.compid) && h[4..8] == IntBytes(p.taskid);
    assert h[8..12] == IntBytes(p.ptype) && h[12..16] == IntBytes(|p.payload|);
  }

  lemma UnframeFrame(p: Packet, rest: seq<byte>)
    requires Sendable(p)
    ensures Unframe(Frame(p) + rest) == Some(p)
  {
    var h := Header(p.compid, p.taskid, p.ptype, |p.payload|);
    var s := Frame(p) + rest;
    assert s[..HEADLEN] == HeaderBytes(h);
    HeaderRoundTrip(h);
    assert s[HEADLEN..HEADLEN + |p.payload|] == p.payload;
  }

  /** A packet that is cut short is no packet. */
  lemma UnframeCut(p: Packet, cut: nat)
    requires Sendable(p) && cut < |Frame(p)|
    ensures Unframe(Frame(p)[..cut]) == None
  {
    var h := Header(p.compid, p.taskid, p.ptype, |p.payload|);
    if cut >= HEADLEN {
      assert Frame(p)[..cut][..HEADLEN] == HeaderBytes(h);
      HeaderRoundTrip(h);
    }
  }

  /** putpacket */
  method PutPacket(sink: Sink, compid: Int32, taskid: Int32, ptype: Int32, length: int, buf: array<byte>) returns (r: int)
    requires 0 <= length <= MAX_PACK_SIZE ==> length <= buf.Length
    modifies sink
    ensures r == 0 || r == -1
    ensures !(0 <= length <= 1024) ==>
              r == -1 && sink.contents == old(sink.contents) && sink.failures == old(sink.failures)
    ensures 0 <= length <= MAX_PACK_SIZE ==>
              (r == 0 <==> sink.failures == old(sink.failures))
    ensures r == 0 ==>
              sink.contents == old(sink.contents) + Frame(Packet(compid, taskid, ptype, buf[..length]))
    ensures 0 <= length <= MAX_PACK_SIZE ==>
              Written(old(sink.contents), sink.contents, Frame(Packet(compid, taskid, ptype, buf[..length])))
  {
    if length < 0 || length > MAX_PACK_SIZE {
      return -1;
    }
    var bytes := HeaderBytes(Header(compid, taskid, ptype, length));
    var header := new byte[HEADLEN](i requires 0 <= i < HEADLEN => bytes[i]);
    ghost var was, payload := sink.contents, buf[..length];
    assert header[..HEADLEN] == bytes;
    var written := RWrite(sink, header, HEADLEN);
    if written != HEADLEN {
      ghost var k := |sink.contents| - |was|;
      assert header[..k] == bytes[..k];
      WrittenHeader(was, bytes, payload, k);
      return -1;
    }
    written := RWrite(sink, buf, length);
    ghost var k := |sink.contents| - |was| - HEADLEN;
    assert buf[..k] == payload[..k];
    WrittenPayload(was, bytes, payload, k);
    r := if written != length then -1 else 0;
  }

  /** The stream has grown by a beginning of `frame`. */
  ghost predicate Written(was: seq<byte>, contents: seq<byte>, frame: seq<byte>)
  {
    && |was| <= |contents| <= |was| + |frame|
    && contents == was + frame[..|contents| - |was|]
  }

  lemma WrittenHeader(was: seq<byte>, header: seq<byte>, payload: seq<byte>, k: nat)
    requires k <= |header|
    ensures Written(was, was + header[..k], header + payload)
  {
    assert (header + payload)[..k] == header[..k];
  }

  lemma WrittenPayload(was: seq<byte>, header: seq<byte>, payload: seq<byte>, k: nat)
    requires k <= |payload|
    ensures Written(was, was + header + payload[..k], header + payload)
    ensures k == |payload| ==> was + header + payload[..k] == was + (header + payload)
  {
    assert (header + payload)[..|header| + k] == header + payload[..k];
    assert was + header + payload[..k] == was + (header + payload[..k]);
  }

  /** getpacket: `buf` has room for the largest packet. */
  method GetPacket(source: Source, buf: array<byte>)
    returns (r: int, compid: Int32, taskid: Int32, ptype: Int32, length: nat)
    requires source.Valid() && MAX_PACK_SIZE <= buf.Length
    modifies source, buf
    ensures source.Valid() && length <= MAX_PACK_SIZE
    ensures r == 0 || r == -1
    ensures r == 0 ==>
              && source.failures == old(source.failures)
              && Unframe(source.data[old(source.position)..]) == Some(Packet(compid, taskid, ptype, buf[..length]))
              && source.position == old(source.position) + HEADLEN + length
    ensures r == -1 && source.failures == old(source.failures) ==>
              Unframe(source.data[old(source.position)..]) == None
    ensures source.position >= old(source.position)
  {
    compid, taskid, ptype, length := 0, 0, 0, 0;
    ghost var stream := source.data[old(source.position)..];
    var header := new byte[HEADLEN];
    var bytesread := ReadBlock(source, header, HEADLEN);
    if bytesread != HEADLEN {
      return -1, 0, 0, 0, 0;
    }
    assert header[..] == header[..HEADLEN] == stream[..HEADLEN];
    var h := BytesHeader(header[..]);
    if h.length < 0 || h.length > MAX_PACK_SIZE {
      return -1, 0, 0, 0, 0;
    }
    bytesread := ReadBlock(source, buf, h.length);
    if bytesread != h.length {
      return -1, 0, 0, 0, 0;
    }
    assert buf[..h.length] == stream[HEADLEN..HEADLEN + h.length];
    r, compid, taskid, ptype, length := 0, h.compid, h.taskid, h.ptype, h.length;
  }

  // -------------------------------------------------------- whole streams

  function FrameAll(ps: seq<Packet>): seq<byte>
    requires forall k :: 0 <= k < |ps| ==> |ps[k].payload| <= MAX_PACK_SIZE
  {
    if |ps| == 0 then [] else Frame(ps[0]) + FrameAll(ps[1..])
  }

  /** The packets that getpacket returns from a stream before it returns -1. */
  function UnframeAll(s: seq<byte>): (ps: seq<Packet>)
    ensures forall k :: 0 <= k < |ps| ==> |ps[k].payload| <= MAX_PACK_SIZE
    decreases |s|
  {
    match Unframe(s)
    case None => []
    case Some(p) => [p] + UnframeAll(s[HEADLEN + |p.payload|..])
  }

  ghost predicate AllSendable(ps: seq<Packet>) { forall k :: 0 <= k < |ps| ==> Sendable(ps[k]) }

  /** Any sequence of packets, followed by the beginning of one more that is cut
      short, or by nothing, comes back unchanged and in order, and then -1. */
  lemma {:induction false} StreamRoundTrip(ps: seq<Packet>, last: Packet, cut: nat)
    requires AllSendable(ps) && Sendable(last) && cut < |Frame(last)|
    ensures UnframeAll(FrameAll(ps) + Frame(last)[..cut]) == ps
  {
    var tail := Frame(last)[..cut];
    if |ps| == 0 {
      UnframeCut(last, cut);
      assert FrameAll(ps) + tail == tail;
    } else {
      var rest := FrameAll(ps[1..]) + tail;
      var s := FrameAll(ps) + tail;
      assert s == Frame(ps[0]) + rest;
      UnframeFrame(ps[0], rest);
      assert s[|Frame(ps[0])|..] == rest;
      StreamRoundTrip(ps[1..], last, cut);
    }
  }

  /** How many of the packets lie wholly in the first n bytes of their stream. */
  function Whole(ps: seq<Packet>, n: nat): (w: nat)
    requires forall k :: 0 <= k < |ps| ==> |ps[k].payload| <= MAX_PACK_SIZE
    ensures w <= |ps|
  {
    if |ps| == 0 || n < |Frame(ps[0])| then 0 else 1 + Whole(ps[1..], n - |Frame(ps[0])|)
  }

  lemma {:induction false} WholeIsMost(ps: seq<Packet>, n: nat)
    requires AllSendable(ps)
    ensures var w := Whole(ps, n);
      |FrameAll(ps[..w])| <= n && (w < |ps| ==> n < |FrameAll(ps[..w + 1])|)
  {
    var w := Whole(ps, n);
    if |ps| > 0 {
      assert w < |ps| ==> ps[..w + 1][1..] == ps[1..][..w];
      if n >= |Frame(ps[0])| {
        WholeIsMost(ps[1..], n - |Frame(ps[0])|);
        assert ps[..w][1..] == ps[1..][..w - 1];
      }
    }
  }

  lemma {:induction false} WholeOfAll(ps: seq<Packet>, n: nat)
    requires AllSendable(ps) && n >= |FrameAll(ps)|
    ensures Whole(ps, n) == |ps|
  {
    if |ps| > 0 {
      WholeOfAll(ps[1..], n - |Frame(ps[0])|);
    }
  }

  lemma PrefixOfTwo(a: seq<byte>, b: seq<byte>, n: nat)
    requires |a| <= n <= |a| + |b|
    ensures (a + b)[..n] == a + b[..n - |a|]
  {
  }

  /** Wherever a stream of packets is cut, exactly the packets that lie wholly in
      front of the cut come back. */
  lemma {:induction false} UnframePrefix(ps: seq<Packet>, n: nat)
    requires AllSendable(ps) && n <= |FrameAll(ps)|
    ensures UnframeAll(FrameAll(ps)[..n]) == ps[..Whole(ps, n)]
  {
    if |ps| > 0 {
      var s, first := FrameAll(ps)[..n], Frame(ps[0]);
      if n < |first| {
        assert s == first[..n];
        UnframeCut(ps[0], n);
      } else {
        var rest := FrameAll(ps[1..])[..n - |first|];
        PrefixOfTwo(first, FrameAll(ps[1..]), n);
        UnframeFrame(ps[0], rest);
        assert s[|first|..] == rest;
        UnframePrefix(ps[1..], n - |first|);
      }
    }
  }

  lemma UnframeNext(data: seq<byte>, from: nat, p: Packet)
    requires from <= |data| && Unframe(data[from..]) == Some(p)
    ensures from + |Frame(p)| <= |data|
    ensures UnframeAll(data[from..]) == [p] + UnframeAll(data[from + |Frame(p)|..])
  {
    assert data[from..][|Frame(p)|..] == data[from + |Frame(p)|..];
  }

  /** What a call of getpacket says about the packets still on the stream. */
  ghost predicate Received(source: Source, pending: seq<Packet>, r: int, p: Packet, failures: nat)
    reads source
    requires source.Valid()
  {
    && (r == 0 ==> source.failures == failures && pending == [p] + UnframeAll(source.data[source.position..]))
    && (r == -1 && source.failures == failures ==> pending == [])
  }

  /** getpacket, in terms of the packets still to come. */
  method Receive(source: Source, buf: array<byte>, ghost failures: nat, ghost pending: seq<Packet>)
    returns (r: int, compid: Int32, taskid: Int32, ptype: Int32, length: nat)
    requires source.Valid() && MAX_PACK_SIZE <= buf.Length
    requires source.failures == failures && pending == UnframeAll(source.data[source.position..])
    modifies source, buf
    ensures source.Valid() && length <= MAX_PACK_SIZE && (r == 0 || r == -1)
    ensures Received(source, pending, r, Packet(compid, taskid, ptype, buf[..length]), failures)
    ensures r == 0 ==> source.position > old(source.position)
    ensures r == -1 ==> source.position >= old(source.position)
  {
    ghost var from := source.position;
    r, compid, taskid, ptype, length := GetPacket(source, buf);
    if r == 0 {
      UnframeNext(source.data, from, Packet(compid, taskid, ptype, buf[..length]));
    }
  }

  /** putpacket, in terms of what is still to be written. */
  method Send(sink: Sink, compid: Int32, taskid: Int32, ptype: Int32, length: nat, buf: array<byte>,
              ghost rest: seq<Packet>, ghost whole: seq<byte>) returns (w: int)
    requires length <= MAX_PACK_SIZE && length <= buf.Length && AllSendable(rest)
    requires sink.contents + FrameAll([Packet(compid, taskid, ptype, buf[..length])] + rest) == whole
    modifies sink
    ensures w == 0 || (w == -1 && sink.failures != old(sink.failures))
    ensures w == 0 ==> sink.failures == old(sink.failures) && sink.contents + FrameAll(rest) == whole
    ensures old(sink.contents) <= sink.contents <= whole
  {
    ghost var p := Packet(compid, taskid, ptype, buf[..length]);
    assert ([p] + rest)[1..] == rest;
    w := PutPacket(sink, compid, taskid, ptype, length, buf);
  }

  /** The relay of chapter17/testpacket.c: every packet read is written on.
      When no call fails, what is written is exactly the framing of the whole
      packets that the stream held. */
  method Relay(source: Source, sink: Sink)
    requires source.Valid()
    modifies source, sink
    ensures source.Valid()
    ensures source.failures == old(source.failures) && sink.failures == old(sink.failures) ==>
              sink.contents == old(sink.contents) + FrameAll(UnframeAll(source.data[old(source.position)..]))
  {
    var buf := new byte[MAX_PACK_SIZE];
    ghost var failures := source.failures;
    ghost var pending := UnframeAll(source.data[source.position..]);
    ghost var whole := sink.contents + FrameAll(pending);
    var r, compid, taskid, ptype, tdatalen := Receive(source, buf, failures, pending);
    while r != -1
      invariant source.Valid() && (r == 0 || r == -1) && 0 <= tdatalen <= MAX_PACK_SIZE
      invariant sink.failures == old(sink.failures)
      invariant AllSendable(pending) && sink.contents + FrameAll(pending) == whole
      invariant Received(source, pending, r, Packet(compid, taskid, ptype, buf[..tdatalen]), failures)
      decreases |source.data| - source.position + (if r == 0 then 1 else 0)
    {
      ghost var rest := UnframeAll(source.data[source.position..]);
      var w := Send(sink, compid, taskid, ptype, tdatalen, buf, rest, whole);
      if w == -1 {
        break;
      }
      pending := rest;
      r, compid, taskid, ptype, tdatalen := Receive(source, buf, failures, pending);
    }
  }

  /** putpacket on a packet given as a value. */
  method SendPacket(sink: Sink, p: Packet, ghost rest: seq<Packet>, ghost whole: seq<byte>) returns (w: int)
    requires Sendable(p) && AllSendable(rest)
    requires sink.contents + FrameAll([p] + rest) == whole
    modifies sink
    ensures w == 0 || (w == -1 && sink.failures != old(sink.failures))
    ensures w == 0 ==> sink.failures == old(sink.failures) && sink.contents + FrameAll(rest) == whole
    ensures old(sink.contents) <= sink.contents <= whole
  {
    var buf := new byte[|p.payload|](k requires 0 <= k < |p.payload| => p.payload[k]);
    assert buf[..|p.payload|] == p.payload;
    w := Send(sink, p.compid, p.taskid, p.ptype, |p.payload|, buf, rest, whole);
  }

  lemma LastFrame(was: seq<byte>)
    ensures was + FrameAll([]) == was
  {
  }

  /** Writes packets one after the other, until one cannot be written. */
  method SendAll(sink: Sink, ps: seq<Packet>) returns (w: int)
    requires AllSendable(ps)
    modifies sink
    ensures w == 0 || w == -1
    ensures w == 0 <==> sink.failures == old(sink.failures)
    ensures w == 0 ==> sink.contents == old(sink.contents) + FrameAll(ps)
    ensures old(sink.contents) <= sink.contents <= old(sink.contents) + FrameAll(ps)
  {
    ghost var whole := sink.contents + FrameAll(ps);
    w := 0;
    var i := 0;
    while i < |ps|
      invariant 0 <= i <= |ps| && sink.failures == old(sink.failures)
      invariant w == 0 && old(sink.contents) <= sink.contents
      invariant sink.contents + FrameAll(ps[i..]) == whole
    {
      assert ps[i..] == [ps[i]] + ps[i + 1..];
      w := SendPacket(sink, ps[i], ps[i + 1..], whole);
      if w == -1 {
        return;
      }
      i := i + 1;
    }
    LastFrame(sink.contents);
  }

  /** Reads packets one after the other, until getpacket returns -1. */
  method ReceiveAll(source: Source) returns (ps: seq<Packet>)
    requires source.Valid()
    modifies source
    ensures source.Valid() && ps <= UnframeAll(source.data[old(source.position)..])
    ensures source.failures == old(source.failures) ==> ps == UnframeAll(source.data[old(source.position)..])
  {
    var buf := new byte[MAX_PACK_SIZE];
    ghost var failures, all := source.failures, UnframeAll(source.data[source.position..]);
    ghost var pending := all;
    ps := [];
    var r, compid, taskid, ptype, length := Receive(source, buf, failures, pending);
    while r != -1
      invariant source.Valid() && (r == 0 || r == -1) && 0 <= length <= MAX_PACK_SIZE
      invariant all == ps + pending
      invariant Received(source, pending, r, Packet(compid, taskid, ptype, buf[..length]), failures)
      decreases |source.data| - source.position + (if r == 0 then 1 else 0)
    {
      var p := Packet(compid, taskid, ptype, buf[..length]);
      ghost var rest := UnframeAll(source.data[source.position..]);
      assert pending == [p] + rest && ps + ([p] + rest) == ps + [p] + rest;
      ps, pending := ps + [p], rest;
      r, compid, taskid, ptype, length := Receive(source, buf, failures, pending);
    }
  }

  /** From putpacket to getpacket: of packets written one after the other, a
      reader whom `arrived` bytes have reached, at most `n`, gets exactly those
      that have arrived whole, unchanged and in order, however writes and reads
      are split and interrupted; all of them when everything was written and has
      arrived.  Failures on either side only cost packets at the end. */
  method Transfer(ps: seq<Packet>, n: nat, interrupts: nat, interrupts': nat)
    returns (received: seq<Packet>, arrived: nat, w: int, readFailures: nat)
    requires AllSendable(ps)
    ensures arrived <= n && arrived <= |FrameAll(ps)| && received <= ps
    ensures readFailures == 0 ==> received == ps[..Whole(ps, arrived)]
    ensures w == 0 && readFailures == 0 && n >= |FrameAll(ps)| ==> received == ps
  {
    var sink := new Sink(interrupts);
    w := SendAll(sink, ps);
    assert sink.contents <= FrameAll(ps) by {
      assert [] + FrameAll(ps) == FrameAll(ps);
    }
    arrived := if n < |sink.contents| then n else |sink.contents|;
    var source := new Source(sink.contents[..arrived], interrupts');
    received := ReceiveAll(source);
    readFailures := source.failures;
    assert source.data[0..] == source.data == FrameAll(ps)[..arrived];
    UnframePrefix(ps, arrived);
    if arrived == |FrameAll(ps)| {
      WholeOfAll(ps, arrived);
    }
  }
}
