/**
 Packets over a byte stream (base/asynctcpsocket.cc): a 16-bit big-endian length followed by the
 payload, the framing of section 2 of RFC 4571.  The sender drops or buffers under partial writes,
 the receiver reassembles under arbitrary chunking in a bounded, growing buffer.
 */
module TcpFraming {
  import opened Basics

  type Packet = seq<byte>

  const MAX_PACKET_SIZE := 64 * 1024
  const PACKET_LEN_SIZE := 2
  const BUF_SIZE := MAX_PACKET_SIZE + PACKET_LEN_SIZE
  const MINIMUM_RECV_SIZE := 128

  // ---------------------------------------------------------------- the format

  /** The length, cut to 16 bits, in network byte order. */
  function Header(n: nat): seq<byte> {
    [n % 65536 / 256, n % 256]
  }

  function Frame(p: Packet): seq<byte> {
    Header(|p|) + p
  }

  function Frames(ps: seq<Packet>): seq<byte> {
    if ps == [] then [] else Frame(ps[0]) + Frames(ps[1..])
  }

  /** The length field fits. */
  predicate Fits(p: Packet) {
    |p| <= 65535
  }

  function Join(hi: int, lo: int): int {
    hi * 256 + lo
  }

  function BigEndian16(bs: seq<byte>): nat
    requires |bs| >= 2
  {
    Join(bs[0], bs[1])
  }

  /** No whole frame at the front. */
  predicate Incomplete(bs: seq<byte>) {
    |bs| < PACKET_LEN_SIZE || |bs| < PACKET_LEN_SIZE + BigEndian16(bs)
  }

  /** What a receiver makes of a byte stream: the packets of its whole frames, and the rest. */
  function Parse(bs: seq<byte>): (seq<Packet>, seq<byte>)
    decreases |bs|
  {
    if Incomplete(bs) then ([], bs)
    else
      var n := PACKET_LEN_SIZE + BigEndian16(bs);
      var (ps, rest) := Parse(bs[n..]);
      ([bs[PACKET_LEN_SIZE..n]] + ps, rest)
  }

  lemma HeaderValue(n: nat)
    ensures |Header(n)| == 2 && Join(Header(n)[0], Header(n)[1]) == n % 65536
  {
  }

  lemma FrameFront(p: Packet, bs: seq<byte>)
    requires Fits(p)
    ensures var s := Frame(p) + bs;
            !Incomplete(s) && BigEndian16(s) == |p| && s[2..2 + |p|] == p && s[2 + |p|..] == bs
  {
    var s := Frame(p) + bs;
    HeaderValue(|p|);
    assert s[0] == Header(|p|)[0] && s[1] == Header(|p|)[1];
  }

  /** A prefix of a stream that starts with a frame holds that frame, or is incomplete. */
  lemma PrefixFront(p: Packet, rest: seq<byte>, bs: seq<byte>)
    requires Fits(p) && bs <= Frame(p) + rest
    ensures Incomplete(bs) ==> |bs| < |Frame(p)|
    ensures !Incomplete(bs) ==>
              && BigEndian16(bs) == |p| && bs[2..2 + |p|] == p
              && bs[2 + |p|..] <= rest && bs == Frame(p) + bs[2 + |p|..]
  {
    var s := Frame(p) + rest;
    FrameFront(p, rest);
    if |bs| >= 2 {
      assert bs[0] == s[0] && bs[1] == s[1];
    }
    if !Incomplete(bs) {
      assert bs[2..2 + |p|] == s[2..2 + |p|];
      assert bs[2 + |p|..] <= s[2 + |p|..];
      assert bs[..2 + |p|] == s[..2 + |p|] == Frame(p);
    }
  }

  /** Parsing undoes framing, whatever follows. */
  lemma {:induction false} ParseFrames(ps: seq<Packet>, rest: seq<byte>)
    requires forall p | p in ps :: Fits(p)
    requires Incomplete(rest)
    ensures Parse(Frames(ps) + rest) == (ps, rest)
    decreases |ps|
  {
    if ps == [] {
      assert Frames(ps) + rest == rest;
    } else {
      assert Frames(ps) + rest == Frame(ps[0]) + (Frames(ps[1..]) + rest);
      FrameFront(ps[0], Frames(ps[1..]) + rest);
      ParseFrames(ps[1..], rest);
      assert ps == [ps[0]] + ps[1..];
    }
  }

  /** A stream of frames is read back as the packets that went in exactly if every length fits the
      16-bit field.  Send's own size check, which lets up to 65538 bytes through, does not promise it. */
  lemma {:induction false} StreamRoundTrip(ps: seq<Packet>)
    ensures Parse(Frames(ps)) == (ps, []) <==> forall p | p in ps :: Fits(p)
    decreases |ps|
  {
    if ps != [] {
      var p, bs := ps[0], Frames(ps[1..]);
      assert ps == [p] + ps[1..];
      if Fits(p) {
        FrameFront(p, bs);
        StreamRoundTrip(ps[1..]);
        assert Parse(Frames(ps)) == ([p] + Parse(bs).0, Parse(bs).1);
        assert ([p] + Parse(bs).0)[1..] == Parse(bs).0;
      } else {
        HeaderValue(|p|);
        assert BigEndian16(Frames(ps)) == |p| % 65536 < |p|;
        assert |Parse(Frames(ps)).0[0]| == |p| % 65536;
      }
    }
  }

  /** A packet of 65536 bytes passes Send's size check and arrives as an empty packet. */
  lemma OversizeIsMangled(p: Packet)
    requires |p| == 65536
    ensures |p| <= BUF_SIZE && Parse(Frame(p)).0[0] == []
  {
    var s := Frame(p);
    assert BigEndian16(s) == 0;
  }

  lemma {:induction false} FramesAppend(ps: seq<Packet>, qs: seq<Packet>)
    ensures Frames(ps + qs) == Frames(ps) + Frames(qs)
    decreases |ps|
  {
    if ps == [] {
      assert ps + qs == qs;
    } else {
      assert (ps + qs)[1..] == ps[1..] + qs;
      FramesAppend(ps[1..], qs);
    }
  }

  lemma FramesOne(ps: seq<Packet>, p: Packet)
    ensures Frames(ps + [p]) == Frames(ps) + Frame(p)
  {
    FramesAppend(ps, [p]);
    assert Frames([p]) == Frame(p) + Frames([]);
  }

  lemma Halves(n: int, hi: int, lo: int)
    requires n == 256 * hi + lo && 0 <= hi < 256 && 0 <= lo < 256
    ensures n % 65536 == n && n / 256 == hi && n % 256 == lo
  {
  }

  lemma HeaderOf(hi: byte, lo: byte)
    ensures Header(Join(hi, lo)) == [hi, lo] && Join(hi, lo) <= 65535
  {
    Halves(Join(hi, lo), hi, lo);
  }

  lemma Pieces(bs: seq<byte>, n: nat)
    requires 2 <= n <= |bs|
    ensures bs == ([bs[0], bs[1]] + bs[2..n]) + bs[n..]
  {
  }

  lemma FirstFrame(bs: seq<byte>)
    requires !Incomplete(bs)
    ensures var n := PACKET_LEN_SIZE + BigEndian16(bs);
            bs == Frame(bs[PACKET_LEN_SIZE..n]) + bs[n..] && Fits(bs[PACKET_LEN_SIZE..n])
  {
    HeaderOf(bs[0], bs[1]);
    Pieces(bs, PACKET_LEN_SIZE + BigEndian16(bs));
  }

  /** Delivering the first frame of what is buffered. */
  lemma OneMoreFrame(received: seq<byte>, delivered: seq<Packet>, buffered: seq<byte>)
    requires received == Frames(delivered) + buffered && !Incomplete(buffered)
    ensures var n := PACKET_LEN_SIZE + BigEndian16(buffered);
            var p := buffered[PACKET_LEN_SIZE..n];
            received == Frames(delivered + [p]) + buffered[n..] && Fits(p)
  {
    var n := PACKET_LEN_SIZE + BigEndian16(buffered);
    var p := buffered[PACKET_LEN_SIZE..n];
    FirstFrame(buffered);
    FramesOne(delivered, p);
    Assoc(Frames(delivered), Frame(p), buffered[n..]);
  }

  lemma Assoc(a: seq<byte>, b: seq<byte>, c: seq<byte>)
    ensures a + (b + c) == (a + b) + c
  {
  }

  // ---------------------------------------------------------------- the socket below

  /** A connected stream socket as its reader sees it: bytes arrive in order, and a read takes any
      number of those that have arrived, up to what was asked for. */
  class StreamSocket {
    var incoming: seq<byte>

    constructor (bytes: seq<byte>)
      ensures incoming == bytes
    {
      incoming := bytes;
    }

    /** Returns what Recv returns: a negative number on error, else the number of bytes read. */
    method Recv(n: nat) returns (len: int, got: seq<byte>)
      modifies this
      ensures len <= n && len <= |old(incoming)|
      ensures len < 0 ==> got == [] && incoming == old(incoming)
      ensures len >= 0 ==> got == old(incoming)[..len] && incoming == old(incoming)[len..]
    {
      len :| -1 <= len <= n && len <= |incoming|;
      got := if len < 0 then [] else incoming[..len];
      incoming := if len < 0 then incoming else incoming[len..];
    }
  }

  // ---------------------------------------------------------------- the framed socket

  class AsyncTcpSocket {
    const socket: StreamSocket
    var outbuf: seq<byte>
    var inbuf: array<byte>   // its length is the capacity of the input buffer
    var inSize: nat
    var delivered: seq<Packet>

    /** Packets of which at least one byte went out, all bytes handed to the socket, and all bytes
        read from it. */
    ghost var accepted: seq<Packet>
    ghost var emitted: seq<byte>
    ghost var received: seq<byte>

    ghost predicate SendsWholeFrames()
      reads this
    {
      emitted + outbuf == Frames(accepted)
    }

    ghost predicate ReadsWholeFrames()
      reads this, inbuf
    {
      && inSize <= inbuf.Length
      && received == Frames(delivered) + inbuf[..inSize]
      && (forall p | p in delivered :: Fits(p))
    }

    /** Holds between events: bytes emitted and buffered are whole frames of accepted packets; bytes
        received are whole frames of delivered packets and an incomplete one; the input buffer is
        within its bounds and not full. */
    ghost predicate Valid()
      reads this, inbuf
    {
      && SendsWholeFrames()
      && ReadsWholeFrames()
      && Incomplete(inbuf[..inSize])
      && MINIMUM_RECV_SIZE <= inbuf.Length <= BUF_SIZE
      && inSize <= BUF_SIZE - 2
    }

    constructor (socket: StreamSocket)
      ensures Valid() && fresh(inbuf) && this.socket == socket
      ensures outbuf == [] && accepted == [] && emitted == [] && delivered == [] && received == []
    {
      this.socket := socket;
      outbuf, delivered := [], [];
      inbuf, inSize := new byte[MINIMUM_RECV_SIZE], 0;
      accepted, emitted, received := [], [], [];
    }

    /** `sent` is what the socket's Send returns for the whole output buffer. */
    method FlushOutBuffer(sent: int) returns (res: int)
      modifies this`outbuf, this`emitted
      ensures res == if sent > |old(outbuf)| then -1 else sent
      ensures emitted + outbuf == old(emitted + outbuf)
      ensures old(emitted) <= emitted
      ensures res > 0 ==> outbuf == old(outbuf)[res..]
      ensures res <= 0 ==> outbuf == old(outbuf) && emitted == old(emitted)
    {
      res := sent;
      if res <= 0 {
        return;
      }
      if res > |outbuf| {
        return -1;
      }
      emitted := emitted + outbuf[..res];
      outbuf := outbuf[res..];
    }

    /** Whether Send takes the packet, the socket's own Send returning `sent`. */
    predicate Takes(p: Packet, sent: int)
      reads this
    {
      |p| <= BUF_SIZE && outbuf == [] && 0 < sent <= |Frame(p)|
    }

    /** Accepts the packet, or leaves no trace of it on the stream: a packet is dropped when it is too
        big, when an earlier one is not fully out yet, and when the socket takes none of it. */
    method Send(p: Packet, sent: int) returns (res: int)
      requires Valid()
      modifies this`outbuf, this`emitted, this`accepted
      ensures Valid()
      ensures old(emitted) <= emitted
      ensures if old(Takes(p, sent)) then accepted == old(accepted) + [p]
              else accepted == old(accepted) && outbuf == old(outbuf) && emitted == old(emitted)
      ensures |p| > BUF_SIZE ==> res == -1
      ensures |p| <= BUF_SIZE && (old(outbuf) != [] || old(Takes(p, sent))) ==> res == |p|
      ensures |p| <= BUF_SIZE && old(outbuf) == [] && !old(Takes(p, sent)) ==> res == if sent > 0 then -1 else sent
    {
      if |p| > BUF_SIZE {
        return -1;
      }
      if outbuf != [] {
        return |p|;
      }
      outbuf := outbuf + Header(|p|);
      outbuf := outbuf + p;
      assert outbuf == Frame(p) && emitted == Frames(accepted);
      res := FlushOutBuffer(sent);
      if res <= 0 {
        outbuf := [];
        return;
      }
      FramesOne(accepted, p);
      accepted := accepted + [p];
      return |p|;
    }

    /** The socket is writable again. */
    method OnWriteEvent(sent: int) returns (readyToSend: bool)
      requires Valid()
      modifies this`outbuf, this`emitted
      ensures Valid()
      ensures old(emitted) <= emitted
      ensures readyToSend <==> outbuf == []
      ensures readyToSend ==> emitted == Frames(accepted)
    {
      if outbuf != [] {
        var _ := FlushOutBuffer(sent);
      }
      readyToSend := outbuf == [];
    }

    /** Grows the input buffer, keeping what it holds. */
    method EnsureCapacity(capacity: nat)
      requires inSize <= inbuf.Length
      modifies this`inbuf
      ensures inbuf.Length == if old(inbuf.Length) < capacity then capacity else old(inbuf.Length)
      ensures inbuf == old(inbuf) || fresh(inbuf)
      ensures inbuf[..inSize] == old(inbuf[..inSize])
    {
      if capacity > inbuf.Length {
        var bigger := new byte[capacity];
        forall i | 0 <= i < inSize {
          bigger[i] := inbuf[i];
        }
        inbuf := bigger;
      }
    }

    /** Drops the first `n` bytes and moves what follows to the start of the buffer. */
    method Shift(n: nat)
      requires n <= inSize <= inbuf.Length
      modifies this`inSize, inbuf
      ensures inSize == old(inSize) - n
      ensures inbuf[..inSize] == old(inbuf[n..inSize])
    {
      inSize := inSize - n;
      forall i | 0 <= i < inSize {
        inbuf[i] := inbuf[n + i];
      }
    }

    /** Delivers the frame of `n` bytes at the front of the buffer. */
    method DeliverFirst(n: nat)
      requires ReadsWholeFrames() && PACKET_LEN_SIZE <= inSize
               && n == PACKET_LEN_SIZE + Join(inbuf[0], inbuf[1]) <= inSize
      modifies this`inSize, this`delivered, inbuf
      ensures ReadsWholeFrames() && inSize == old(inSize) - n && old(delivered) <= delivered
    {
      ghost var buffered := inbuf[..inSize];
      OneMoreFrame(received, delivered, buffered);
      assert inbuf[PACKET_LEN_SIZE..n] == buffered[PACKET_LEN_SIZE..n] && inbuf[n..inSize] == buffered[n..];
      delivered := delivered + [inbuf[PACKET_LEN_SIZE..n]];
      Shift(n);
    }

    /** Delivers every whole frame at the front of the buffer and moves what is left to its start. */
    method ProcessInput()
      requires ReadsWholeFrames()
      modifies this`inSize, this`delivered, inbuf
      ensures ReadsWholeFrames() && Incomplete(inbuf[..inSize]) && inSize <= BUF_SIZE - 2
      ensures old(delivered) <= delivered
    {
      while true
        invariant ReadsWholeFrames()
        invariant old(delivered) <= delivered
        decreases inSize
      {
        if inSize < PACKET_LEN_SIZE {
          return;
        }
        var n := PACKET_LEN_SIZE + Join(inbuf[0], inbuf[1]);
        if inSize < n {
          HeaderOf(inbuf[0], inbuf[1]);
          return;
        }
        DeliverFirst(n);
      }
    }

    /** The input buffer is within its bounds and holds what was received and not yet delivered. */
    ghost predicate Reading()
      reads this, inbuf
    {
      ReadsWholeFrames() && MINIMUM_RECV_SIZE <= inbuf.Length <= BUF_SIZE
    }

    /** One pass of the read loop: make room and read. */
    method ReadOnce() returns (room: nat, len: int)
      requires Reading()
      modifies this`inbuf, this`inSize, this`received, inbuf, socket
      ensures Reading() && (inbuf == old(inbuf) || fresh(inbuf))
      ensures room == 0 ==> old(inSize) == BUF_SIZE
      ensures len <= room
      ensures len <= 0 ==> inbuf[..inSize] == old(inbuf[..inSize]) && received == old(received)
      ensures inSize == old(inSize) + (if len < 0 then 0 else len)
      ensures |received| == |old(received)| + (if len < 0 then 0 else len) && old(received) <= received
      ensures received + socket.incoming == old(received) + old(socket.incoming)
    {
      room := MakeRoom();
      var got;
      len, got := socket.Recv(room);
      if len < 0 {
        return;
      }
      Store(got);
      received := received + got;
      assert Frames(delivered) + old(inbuf[..inSize]) + got == Frames(delivered) + (old(inbuf[..inSize]) + got);
    }

    /** Doubles the buffer, up to the limit, when little of it is free. */
    method MakeRoom() returns (room: nat)
      requires Reading()
      modifies this`inbuf
      ensures Reading() && (inbuf == old(inbuf) || fresh(inbuf)) && inbuf[..inSize] == old(inbuf[..inSize])
      ensures room == inbuf.Length - inSize && (room == 0 ==> inSize == BUF_SIZE)
    {
      room := inbuf.Length - inSize;
      if room < MINIMUM_RECV_SIZE && inbuf.Length < BUF_SIZE {
        EnsureCapacity(if BUF_SIZE < inbuf.Length * 2 then BUF_SIZE else inbuf.Length * 2);
        room := inbuf.Length - inSize;
      }
    }

    /** What Recv does to the buffer. */
    method Store(got: seq<byte>)
      requires inSize + |got| <= inbuf.Length
      modifies this`inSize, inbuf
      ensures inSize == old(inSize) + |got|
      ensures inbuf[..inSize] == old(inbuf[..inSize]) + got
    {
      forall i | 0 <= i < |got| {
        inbuf[inSize + i] := got[i];
      }
      assert inbuf[..inSize + |got|] == old(inbuf[..inSize]) + got;
      inSize := inSize + |got|;
    }

    /** Reads until the socket runs dry.  `room` is the space offered to the first Recv.  The loop ends:
        a pass that goes on has filled the buffer further, and a full buffer reads nothing. */
    method ReadAll() returns (room: nat, totalRecv: nat)
      requires Reading() && inSize <= BUF_SIZE - 2
      modifies this`inbuf, this`inSize, this`received, inbuf, socket
      ensures Reading() && (inbuf == old(inbuf) || fresh(inbuf))
      ensures room > 0
      ensures totalRecv == 0 ==>
                inbuf[..inSize] == old(inbuf[..inSize]) && received == old(received) && inSize == old(inSize)
      ensures old(received) <= received
      ensures received + socket.incoming == old(received) + old(socket.incoming)
    {
      var len;
      room, len := ReadOnce();
      totalRecv := if len < 0 then 0 else len;
      var free := room;
      while len > 0 && len == free
        invariant Reading() && (inbuf == old(inbuf) || fresh(inbuf))
        invariant totalRecv == |received| - |old(received)|
        invariant totalRecv == 0 ==>
                    inbuf[..inSize] == old(inbuf[..inSize]) && received == old(received) && inSize == old(inSize)
        invariant old(received) <= received
        invariant received + socket.incoming == old(received) + old(socket.incoming)
        decreases BUF_SIZE - inSize, len
      {
        free, len := ReadOnce();
        totalRecv := totalRecv + if len < 0 then 0 else len;
      }
    }

    /** Reads all there is, then delivers.  The first Recv always has room, so the buffer never wedges,
        and no byte is lost or made up on the way from the socket. */
    method OnReadEvent() returns (room: nat)
      requires Valid()
      modifies this`inbuf, this`inSize, this`received, this`delivered, inbuf, socket
      ensures Valid()
      ensures room > 0
      ensures old(received) <= received && old(delivered) <= delivered
      ensures received + socket.incoming == old(received) + old(socket.incoming)
    {
      var totalRecv;
      room, totalRecv := ReadAll();
      if totalRecv == 0 {
        return;
      }
      ProcessInput();
    }
  }

  // ---------------------------------------------------------------- end to end

  /** What is parsed from `bs` is a prefix of `ps`, missing none that has arrived in full. */
  ghost predicate ParsesTo(bs: seq<byte>, ps: seq<Packet>) {
    var k := |Parse(bs).0|;
    && Parse(bs).0 <= ps && (bs == Frames(ps) ==> Parse(bs) == (ps, []))
    && (k < |ps| ==> |bs| < |Frames(ps[..k + 1])|)
  }

  lemma FramesCons(p: Packet, ps: seq<Packet>)
    ensures Frames([p] + ps) == Frame(p) + Frames(ps)
  {
    assert ([p] + ps)[1..] == ps;
  }

  lemma ParseFirst(p: Packet, bs: seq<byte>)
    requires !Incomplete(bs) && BigEndian16(bs) == |p| && bs[2..2 + |p|] == p
    ensures Parse(bs) == ([p] + Parse(bs[2 + |p|..]).0, Parse(bs[2 + |p|..]).1)
  {
  }

  lemma OneMoreParsed(p: Packet, ps: seq<Packet>, bs: seq<byte>, rest: seq<byte>)
    requires bs == Frame(p) + rest && Parse(bs) == ([p] + Parse(rest).0, Parse(rest).1) && ParsesTo(rest, ps)
    ensures ParsesTo(bs, [p] + ps)
  {
    var k := |Parse(rest).0|;
    FramesCons(p, ps);
    if k < |ps| {
      FramesCons(p, ps[..k + 1]);
      assert ([p] + ps)[..k + 2] == [p] + ps[..k + 1];
    }
  }

  lemma FirstMissing(p: Packet, ps: seq<Packet>, bs: seq<byte>)
    requires Incomplete(bs) && |bs| < |Frame(p)|
    ensures ParsesTo(bs, [p] + ps)
  {
    FramesCons(p, ps);
    FramesCons(p, []);
    assert ([p] + ps)[..1] == [p] + [];
  }

  lemma {:induction false} PrefixParses(ps: seq<Packet>, bs: seq<byte>)
    requires forall p | p in ps :: Fits(p)
    requires bs <= Frames(ps)
    ensures ParsesTo(bs, ps)
    decreases |ps|
  {
    if ps != [] {
      PrefixFront(ps[0], Frames(ps[1..]), bs);
      if Incomplete(bs) {
        FirstMissing(ps[0], ps[1..], bs);
      } else {
        var rest := bs[2 + |ps[0]|..];
        PrefixParses(ps[1..], rest);
        ParseFirst(ps[0], bs);
        OneMoreParsed(ps[0], ps[1..], bs, rest);
      }
      assert ps == [ps[0]] + ps[1..];
    }
  }

  /** If what arrived is a prefix of the frames of `ps`, then what is parsed from it is a prefix of `ps`. */
  lemma ParsePrefix(ps: seq<Packet>, bs: seq<byte>)
    requires forall p | p in ps :: Fits(p)
    requires bs <= Frames(ps)
    ensures Parse(bs).0 <= ps
    ensures bs == Frames(ps) ==> Parse(bs) == (ps, [])
    ensures var k := |Parse(bs).0|; k < |ps| ==> |bs| < |Frames(ps[..k + 1])|
  {
    PrefixParses(ps, bs);
  }

  /** A socket has delivered exactly what a fresh parse of everything it received gives, however the
      bytes were cut into reads. */
  lemma DeliveredIsParse(b: AsyncTcpSocket)
    requires b.Valid()
    ensures Parse(b.received) == (b.delivered, b.inbuf[..b.inSize])
  {
    ParseFrames(b.delivered, b.inbuf[..b.inSize]);
  }

  /** End to end, for any sends, partial writes and chunking: if what `b` has read is what `a` has
      written so far or a prefix of it, then `b` has delivered the first packets `a` accepted, all of
      them that have arrived in full, and every one once all bytes are through. */
  lemma EndToEnd(a: AsyncTcpSocket, b: AsyncTcpSocket)
    requires a.Valid() && b.Valid()
    requires forall p | p in a.accepted :: Fits(p)
    requires b.received <= a.emitted
    ensures b.delivered <= a.accepted
    ensures var k := |b.delivered|; k < |a.accepted| ==> |b.received| < |Frames(a.accepted[..k + 1])|
    ensures b.received == a.emitted && a.outbuf == [] ==> b.delivered == a.accepted && b.inSize == 0
  {
    DeliveredIsParse(b);
    assert b.received <= Frames(a.accepted);
    ParsePrefix(a.accepted, b.received);
  }
}
