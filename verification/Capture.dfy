/** Rebuilding IPv4 frames around captured SIP messages. */
module Capture {
  import opened Basics
  import opened Checksum

  type Quad = q: seq<byte> | |q| == 4 witness [0, 0, 0, 0]

  /** A message end: the address as text, its IPv4 bytes when it has them, and the port. */
  datatype Peer = Peer(name: string, quad: Option<Quad>, port: int)

  datatype Message = Message(src: Peer, dst: Peer, udp: bool, payload: seq<byte>, leg: string)

  /** The direction of a TCP stream: addresses as text and ports. */
  datatype Direction = Direction(srcName: string, srcPort: int, dstName: string, dstPort: int)

  function Forward(m: Message): Direction {
    Direction(m.src.name, m.src.port, m.dst.name, m.dst.port)
  }

  function Backward(m: Message): Direction {
    Direction(m.dst.name, m.dst.port, m.src.name, m.src.port)
  }

  predicate IsV4(m: Message) {
    m.src.quad.Some? && m.dst.quad.Some?
  }

  function U16(b: seq<byte>, at: nat): nat
    requires at + 2 <= |b|
  {
    b[at] as int * 256 + b[at + 1] as int
  }

  function U32At(b: seq<byte>, at: nat): nat
    requires at + 4 <= |b|
  {
    U16(b, at) * WORD + U16(b, at + 2)
  }

  // ---- what a frame must be ----

  const ETHERNET := 14
  const IP_HEADER := 20
  const TCP_HEADER := 20
  const UDP_HEADER := 8

  function Layer4(m: Message): nat {
    if m.udp then UDP_HEADER else TCP_HEADER
  }

  ghost predicate IpFields(ip: seq<byte>, length: nat, id: nat, protocol: byte, src: Quad, dst: Quad) {
    && |ip| == IP_HEADER
    && ip[0] == 0x45 && ip[1] == 0
    && U16(ip, 2) == length % WORD && U16(ip, 4) == id && U16(ip, 6) == 0
    && ip[8] == 64 && ip[9] == protocol
    && ip[12..16] == src && ip[16..20] == dst
  }

  /** The IPv4 header fields, and a checksum that a receiver accepts. */
  ghost predicate IsIpHeader(ip: seq<byte>, length: nat, id: nat, protocol: byte, src: Quad, dst: Quad) {
    IpFields(ip, length, id, protocol, src, dst) && Verifies([], ip)
  }

  function Pseudo(src: Quad, dst: Quad, length: nat): seq<byte> {
    src + dst + [0, 6] + [length % WORD / 256, length % 256]
  }

  /** The pseudo header of section 3.1 of RFC 9293: source, destination, a zero byte, protocol 6, segment length. */
  lemma PseudoLayout(src: Quad, dst: Quad, length: nat)
    ensures var p := Pseudo(src, dst, length);
      && |p| == 12 && p[..4] == src && p[4..8] == dst && p[8] == 0 && p[9] == 6
      && U16(p, 10) == length % WORD
  {
    HighLow(length);
  }

  /** Longest segment whose words cannot overflow the 32-bit accumulator with the pseudo header's. */
  const MAX_SEGMENT := 2 * WORD - 12

  ghost predicate TcpFields(seg: seq<byte>, m: Message, seqNo: nat, ack: nat) {
    && |seg| == TCP_HEADER + |m.payload|
    && U16(seg, 0) == m.src.port % WORD && U16(seg, 2) == m.dst.port % WORD
    && U32At(seg, 4) == seqNo && U32At(seg, 8) == ack
    && seg[12] == 0x50 && seg[13] == 0x18 && U16(seg, 14) == 0xFFFF && U16(seg, 18) == 0
  }

  /** The TCP header fields and the payload, and a checksum that a receiver accepts. */
  ghost predicate IsTcp(seg: seq<byte>, m: Message, src: Quad, dst: Quad, seqNo: nat, ack: nat) {
    && TcpFields(seg, m, seqNo, ack)
    && seg[TCP_HEADER..] == m.payload
    && (|seg| <= MAX_SEGMENT ==> Verifies(Pseudo(src, dst, |seg|), seg))
  }

  ghost predicate IsUdp(seg: seq<byte>, m: Message) {
    && |seg| == UDP_HEADER + |m.payload|
    && U16(seg, 0) == m.src.port % WORD && U16(seg, 2) == m.dst.port % WORD
    && U16(seg, 4) == |seg| % WORD && U16(seg, 6) == 0
    && seg[UDP_HEADER..] == m.payload
  }

  ghost predicate IsFrame(f: seq<byte>, m: Message, id: nat, seqNo: nat, ack: nat)
    requires IsV4(m)
  {
    var src, dst := m.src.quad.value, m.dst.quad.value;
    && |f| == ETHERNET + IP_HEADER + Layer4(m) + |m.payload|
    && (forall k | 0 <= k < 12 :: f[k] == 0) && U16(f, 12) == 0x0800
    && IsIpHeader(f[14..34], |f| - ETHERNET, id, if m.udp then 17 else 6, src, dst)
    && if m.udp then IsUdp(f[34..], m) else IsTcp(f[34..], m, src, dst, seqNo, ack)
  }

  /** A receiver of the frame accepts its TCP segment: it takes addresses and protocol from the IPv4 header as it
      stands in the frame, and the length from the bytes behind it. */
  ghost predicate ReceiverAccepts(f: seq<byte>)
    requires |f| >= 34
  {
    Verifies(f[26..34] + [0, f[23]] + Bytes16(|f| - 34), f[34..])
  }

  lemma TcpFrameAccepted(f: seq<byte>, m: Message, id: nat, seqNo: nat, ack: nat)
    requires IsV4(m) && !m.udp && IsFrame(f, m, id, seqNo, ack) && |f| - 34 <= MAX_SEGMENT
    ensures ReceiverAccepts(f)
  {
    var src, dst, ip := m.src.quad.value, m.dst.quad.value, f[14..34];
    assert f[26..34] == ip[12..16] + ip[16..20] && f[23] == ip[9];
    assert f[26..34] + [0, f[23]] + Bytes16(|f| - 34) == Pseudo(src, dst, |f| - 34);
  }

  // ---- writing into the buffer ----

  method Put(f: array<byte>, at: nat, b: seq<byte>)
    requires at + |b| <= f.Length
    modifies f
    ensures forall k | 0 <= k < f.Length :: f[k] == if at <= k < at + |b| then b[k - at] else old(f[k])
    ensures f[at..at + |b|] == b
  {
    for i := 0 to |b|
      invariant forall k | 0 <= k < f.Length :: f[k] == if at <= k < at + i then b[k - at] else old(f[k])
    {
      f[at + i] := b[i];
    }
  }

  /** Write a word into the part of the buffer from lo to hi. */
  method PutWord(f: array<byte>, lo: nat, hi: nat, at: nat, v: nat)
    requires lo + at + 2 <= hi <= f.Length && v < WORD
    modifies f
    ensures f[lo..hi] == WithWord(old(f[lo..hi]), at, v)
    ensures forall k | 0 <= k < lo || hi <= k < f.Length :: f[k] == old(f[k])
  {
    f[lo + at] := v / 256;
    f[lo + at + 1] := v % 256;
  }

  function Bytes16(v: int): seq<byte> {
    [v % WORD / 256, v % 256]
  }

  method Put16(f: array<byte>, at: nat, v: int)
    requires at + 2 <= f.Length
    modifies f
    ensures f[at] as int * 256 + f[at + 1] as int == v % WORD
    ensures forall k | 0 <= k < at || at + 2 <= k < f.Length :: f[k] == old(f[k])
  {
    HighLow(v);
    f[at] := v % WORD / 256;
    f[at + 1] := v % WORD % 256;
  }

  lemma HighLow(v: int)
    ensures 0 <= v % WORD / 256 < 256 && 0 <= v % WORD % 256 < 256
    ensures v % WORD / 256 * 256 + v % WORD % 256 == v % WORD
  {
  }

  function Bytes32(v: nat): seq<byte>
    requires v < U32
  {
    Bytes16(v / WORD) + Bytes16(v)
  }

  lemma Bytes32At(b: seq<byte>, at: nat, v: nat)
    requires v < U32 && at + 4 <= |b| && b[at..at + 4] == Bytes32(v)
    ensures U32At(b, at) == v
  {
    FourBytes(b, at, Bytes32(v));
  }

  lemma FourBytes(b: seq<byte>, at: nat, w: seq<byte>)
    requires at + 4 <= |b| && b[at..at + 4] == w
    ensures b[at] == w[0] && b[at + 1] == w[1] && b[at + 2] == w[2] && b[at + 3] == w[3]
  {
    assert w[0] == b[at..at + 4][0] && w[1] == b[at..at + 4][1];
    assert w[2] == b[at..at + 4][2] && w[3] == b[at..at + 4][3];
  }

  method PutIpFields(f: array<byte>, length: nat, id: nat, protocol: byte, src: Quad, dst: Quad)
    requires f.Length >= 34 && id < WORD && forall k | 14 <= k < 34 :: f[k] == 0
    modifies f
    ensures IpFields(f[14..34], length, id, protocol, src, dst) && f[24] == 0 && f[25] == 0
    ensures forall k | 0 <= k < 14 || 34 <= k < f.Length :: f[k] == old(f[k])
  {
    PutIpNumbers(f, length, id);
    f[22] := 64;
    f[23] := protocol;
    PutAddresses(f, src, dst);
  }

  method PutIpNumbers(f: array<byte>, length: nat, id: nat)
    requires f.Length >= 34 && id < WORD
    modifies f
    ensures f[14] == 0x45 && f[16] as int * 256 + f[17] as int == length % WORD
    ensures f[18] as int * 256 + f[19] as int == id
    ensures forall k | 0 <= k < f.Length && (k < 14 || k == 15 || 20 <= k) :: f[k] == old(f[k])
  {
    f[14] := 0x45;
    Put16(f, 16, length);
    Put16(f, 18, id);
  }

  method PutAddresses(f: array<byte>, src: Quad, dst: Quad)
    requires f.Length >= 34
    modifies f
    ensures f[14..34][12..16] == src && f[14..34][16..20] == dst
    ensures forall k | 0 <= k < 26 || 34 <= k < f.Length :: f[k] == old(f[k])
  {
    Put(f, 26, src);
    ghost var first := f[26..30];
    Put(f, 30, dst);
    assert f[26..30] == first;
    assert f[14..34][12..16] == f[26..30];
    assert f[14..34][16..20] == f[30..34];
  }

  lemma SameIpFields(before: seq<byte>, sum: nat, length: nat, id: nat, protocol: byte, src: Quad, dst: Quad)
    requires IpFields(before, length, id, protocol, src, dst) && sum < WORD
    ensures IpFields(WithWord(before, 10, sum), length, id, protocol, src, dst)
  {
    assert WithWord(before, 10, sum)[12..16] == before[12..16] && WithWord(before, 10, sum)[16..20] == before[16..20];
  }

  /** The IPv4 header at offset 14 of a zeroed frame. */
  method PutIpHeader(f: array<byte>, length: nat, id: nat, protocol: byte, src: Quad, dst: Quad)
    requires f.Length >= 34 && id < WORD && forall k | 14 <= k < 34 :: f[k] == 0
    modifies f
    ensures IsIpHeader(f[14..34], length, id, protocol, src, dst)
    ensures forall k | 0 <= k < 14 || 34 <= k < f.Length :: f[k] == old(f[k])
  {
    PutIpFields(f, length, id, protocol, src, dst);
    ghost var before := f[14..34];
    WordSumPositive(before, 0);
    var sum := IpChecksum(f[14..34]);
    PutWord(f, 14, 34, 10, sum);
    ChecksumVerifies([], before, 10, sum);
    SameIpFields(before, sum, length, id, protocol, src, dst);
  }

  method PutPorts(f: array<byte>, m: Message)
    requires f.Length >= 38
    modifies f
    ensures U16(f[34..], 0) == m.src.port % WORD && U16(f[34..], 2) == m.dst.port % WORD
    ensures forall k | 0 <= k < 34 || 38 <= k < f.Length :: f[k] == old(f[k])
  {
    Put16(f, 34, m.src.port);
    Put16(f, 36, m.dst.port);
  }

  method PutTcpFields(f: array<byte>, m: Message, seqNo: nat, ack: nat)
    requires f.Length == 54 + |m.payload| && seqNo < U32 && ack < U32 && forall k | 34 <= k < f.Length :: f[k] == 0
    modifies f
    ensures TcpFields(f[34..], m, seqNo, ack)
    ensures forall k | 0 <= k < 34 || 50 <= k < f.Length :: f[k] == old(f[k])
  {
    PutPorts(f, m);
    PutNumbers(f, seqNo, ack);
    f[46] := 0x50;
    f[47] := 0x18;
    Put16(f, 48, 0xFFFF);
  }

  method PutNumbers(f: array<byte>, seqNo: nat, ack: nat)
    requires f.Length >= 54 && seqNo < U32 && ack < U32
    modifies f
    ensures U32At(f[34..], 4) == seqNo && U32At(f[34..], 8) == ack
    ensures forall k | 0 <= k < 38 || 46 <= k < f.Length :: f[k] == old(f[k])
  {
    Put(f, 38, Bytes32(seqNo));
    ghost var first := f[38..42];
    Put(f, 42, Bytes32(ack));
    assert f[38..42] == first;
    assert f[34..][4..8] == f[38..42] && f[34..][8..12] == f[42..46];
    Bytes32At(f[34..], 4, seqNo);
    Bytes32At(f[34..], 8, ack);
  }

  /** Writing the checksum, or the payload behind the header, leaves the header fields alone. */
  lemma SameFields(before: seq<byte>, after: seq<byte>, m: Message, seqNo: nat, ack: nat)
    requires TcpFields(before, m, seqNo, ack) && |after| == |before|
    requires forall k | 0 <= k < TCP_HEADER && k != 16 && k != 17 :: after[k] == before[k]
    ensures TcpFields(after, m, seqNo, ack)
  {
  }

  /** The checksum over the pseudo header and the segment, as long as 32 bits hold the sum. */
  method TcpChecksum(src: Quad, dst: Quad, seg: seq<byte>) returns (sum: nat)
    ensures sum < WORD
    ensures |seg| <= MAX_SEGMENT ==> IsComplement(sum, Pseudo(src, dst, |seg|), seg)
  {
    var pseudo := Pseudo(src, dst, |seg|);
    var acc := SumWords(pseudo, 0);
    acc := SumWords(seg, acc);
    sum := Finish(acc);
    if |seg| <= MAX_SEGMENT {
      SegmentFits(pseudo, seg);
      NoWrap(WordSum(pseudo), WordSum(seg));
    }
  }

  lemma SegmentFits(pseudo: seq<byte>, seg: seq<byte>)
    requires |pseudo| == 12 && |seg| <= MAX_SEGMENT
    ensures WordSum(pseudo) + WordSum(seg) < U32
  {
    WordSumBound(pseudo);
    WordSumBound(seg);
    assert (|seg| + 1) / 2 <= WORD - 6;
  }

  /** The TCP header and payload at offset 34 of a frame that is zero from there on. */
  method PutTcp(f: array<byte>, m: Message, src: Quad, dst: Quad, seqNo: nat, ack: nat)
    requires f.Length == 54 + |m.payload| && seqNo < U32 && ack < U32 && forall k | 34 <= k < f.Length :: f[k] == 0
    modifies f
    ensures IsTcp(f[34..], m, src, dst, seqNo, ack)
    ensures forall k | 0 <= k < 34 :: f[k] == old(f[k])
  {
    PutTcpFields(f, m, seqNo, ack);
    ghost var fields := f[34..];
    Put(f, 54, m.payload);
    ghost var before := f[34..f.Length];
    SameFields(fields, before, m, seqNo, ack);
    assert before[TCP_HEADER..] == m.payload;
    var sum := TcpChecksum(src, dst, f[34..f.Length]);
    PutWord(f, 34, f.Length, 16, sum);
    SegmentVerifies(before, m, src, dst, seqNo, ack, sum);
    assert f[34..] == f[34..f.Length];
  }

  lemma SegmentVerifies(before: seq<byte>, m: Message, src: Quad, dst: Quad, seqNo: nat, ack: nat, sum: nat)
    requires TcpFields(before, m, seqNo, ack) && before[16] == 0 && before[17] == 0 && before[TCP_HEADER..] == m.payload
    requires sum < WORD
    requires |before| <= MAX_SEGMENT ==> IsComplement(sum, Pseudo(src, dst, |before|), before)
    ensures IsTcp(WithWord(before, 16, sum), m, src, dst, seqNo, ack)
  {
    FieldsBehindChecksum(before, m, seqNo, ack, sum);
    if |before| <= MAX_SEGMENT {
      SumBehindChecksum(Pseudo(src, dst, |before|), before, sum);
    }
  }

  lemma FieldsBehindChecksum(before: seq<byte>, m: Message, seqNo: nat, ack: nat, sum: nat)
    requires TcpFields(before, m, seqNo, ack) && before[TCP_HEADER..] == m.payload && sum < WORD
    ensures TcpFields(WithWord(before, 16, sum), m, seqNo, ack) && WithWord(before, 16, sum)[TCP_HEADER..] == m.payload
  {
    SameFields(before, WithWord(before, 16, sum), m, seqNo, ack);
    assert WithWord(before, 16, sum)[TCP_HEADER..] == before[TCP_HEADER..];
  }

  lemma SumBehindChecksum(pseudo: seq<byte>, before: seq<byte>, sum: nat)
    requires |before| >= TCP_HEADER && before[12] > 0 && before[16] == 0 && before[17] == 0
    requires sum < WORD && IsComplement(sum, pseudo, before)
    ensures Verifies(pseudo, WithWord(before, 16, sum))
  {
    WordSumPositive(before, 12);
    ChecksumVerifies(pseudo, before, 16, sum);
  }

  /** The UDP header and payload at offset 34; the checksum stays zero. */
  method PutUdp(f: array<byte>, m: Message)
    requires f.Length == 42 + |m.payload| && forall k | 34 <= k < f.Length :: f[k] == 0
    modifies f
    ensures IsUdp(f[34..], m)
    ensures forall k | 0 <= k < 34 :: f[k] == old(f[k])
  {
    PutPorts(f, m);
    Put16(f, 38, 8 + |m.payload|);
    Put(f, 42, m.payload);
    assert f[34..][UDP_HEADER..] == m.payload;
  }

  // ---- the stream positions ----

  /** Payload bytes of the TCP messages sent in a direction, and whether there were any. */
  ghost function Sent(h: seq<Message>, d: Direction): nat {
    if h == [] then 0
    else
      var m := h[|h| - 1];
      Sent(h[..|h| - 1], d) + if !m.udp && IsV4(m) && Forward(m) == d then |m.payload| else 0
  }

  ghost predicate Seen(h: seq<Message>, d: Direction) {
    exists i :: 0 <= i < |h| && !h[i].udp && IsV4(h[i]) && Forward(h[i]) == d
  }

  /** The sequence number of the next byte in a direction. */
  ghost function Position(h: seq<Message>, d: Direction): nat {
    (1 + Sent(h, d)) % U32
  }

  /** The acknowledged position: nothing before the other side has sent. */
  ghost function Acknowledged(h: seq<Message>, m: Message): nat {
    if Seen(h, Backward(m)) || Backward(m) == Forward(m) then Position(h, Backward(m)) else 0
  }

  /** Messages are of one direction exactly when both ends agree, and of opposite ones when they are swapped. */
  lemma DirectionsIff(a: Message, b: Message)
    ensures Forward(a) == Forward(b) <==>
      a.src.name == b.src.name && a.src.port == b.src.port && a.dst.name == b.dst.name && a.dst.port == b.dst.port
    ensures Backward(a) == Forward(b) <==>
      a.src.name == b.dst.name && a.src.port == b.dst.port && a.dst.name == b.src.name && a.dst.port == b.src.port
  {
  }

  /** The next message of a direction starts where the last one ended; the first one starts at 1. */
  lemma StreamContinues(h: seq<Message>, a: Message, b: Message)
    requires !a.udp && IsV4(a) && Forward(a) == Forward(b)
    ensures Position(h + [a], Forward(b)) == (Position(h, Forward(a)) + |a.payload|) % U32
    ensures !Seen(h, Forward(b)) ==> Position(h, Forward(b)) == 1
  {
    PositionNext(h, a, Forward(b));
    if !Seen(h, Forward(b)) {
      NothingSent(h, Forward(b));
    }
  }

  /** A message acknowledges the end of what the other side sent last, and nothing before it sent anything. */
  lemma AcknowledgesPeer(h: seq<Message>, a: Message, m: Message)
    requires !a.udp && IsV4(a) && Forward(a) == Backward(m)
    ensures Acknowledged(h + [a], m) == (Position(h, Forward(a)) + |a.payload|) % U32
    ensures !Seen(h, Backward(m)) && Forward(m) != Backward(m) ==> Acknowledged(h, m) == 0
  {
    PositionNext(h, a, Backward(m));
  }

  lemma {:induction false} NothingSent(h: seq<Message>, d: Direction)
    requires !Seen(h, d)
    ensures Sent(h, d) == 0
  {
    if h != [] {
      SentNext(h[..|h| - 1], h[|h| - 1], d);
      assert h == h[..|h| - 1] + [h[|h| - 1]];
      NothingSent(h[..|h| - 1], d);
    }
  }

  lemma SentNext(h: seq<Message>, m: Message, d: Direction)
    ensures Sent(h + [m], d) == Sent(h, d) + if !m.udp && IsV4(m) && Forward(m) == d then |m.payload| else 0
    ensures Seen(h + [m], d) <==> Seen(h, d) || (!m.udp && IsV4(m) && Forward(m) == d)
  {
    assert (h + [m])[..|h|] == h;
    if Seen(h, d) {
      var i :| 0 <= i < |h| && !h[i].udp && IsV4(h[i]) && Forward(h[i]) == d;
      assert (h + [m])[i] == h[i];
    }
    if !m.udp && IsV4(m) && Forward(m) == d {
      assert (h + [m])[|h|] == m;
    }
  }

  /** The map of positions agrees with the messages written so far. */
  ghost predicate Tracks(next: map<Direction, nat>, h: seq<Message>) {
    forall d: Direction {:trigger TracksAt(next, h, d)} :: TracksAt(next, h, d)
  }

  ghost predicate TracksAt(next: map<Direction, nat>, h: seq<Message>, d: Direction) {
    (d in next <==> Seen(h, d)) && (d in next ==> next[d] == Position(h, d))
  }

  lemma PositionNext(h: seq<Message>, m: Message, d: Direction)
    ensures Position(h + [m], d)
        == if !m.udp && IsV4(m) && Forward(m) == d then (Position(h, d) + |m.payload|) % U32 else Position(h, d)
    ensures Seen(h + [m], d) <==> Seen(h, d) || (!m.udp && IsV4(m) && Forward(m) == d)
  {
    SentNext(h, m, d);
    WrapLater(1 + Sent(h, d), |m.payload|);
  }

  lemma TracksNext(next: map<Direction, nat>, after: map<Direction, nat>, h: seq<Message>, m: Message)
    requires Tracks(next, h)
    requires after
        == if m.udp || !IsV4(m) then next else next[Forward(m) := (Position(h, Forward(m)) + |m.payload|) % U32]
    ensures Tracks(after, h + [m])
  {
    forall d: Direction
      ensures TracksAt(after, h + [m], d)
    {
      assert TracksAt(next, h, d);
      PositionNext(h, m, d);
    }
  }

  class Writer {
    var next: map<Direction, nat>
    ghost var written: seq<Message>

    ghost predicate Valid()
      reads this
    {
      Tracks(next, written)
    }

    constructor ()
      ensures Valid() && written == []
    {
      next, written := map[], [];
    }

    /** The frame of one message; messages that are not IPv4 are refused and change nothing in the streams. */
    method FrameFor(m: Message, id: nat) returns (ok: bool, bytes: seq<byte>)
      requires Valid() && id < WORD
      modifies this
      ensures Valid() && written == old(written) + [m]
      ensures ok <==> IsV4(m)
      ensures ok ==> IsFrame(bytes, m, id, Position(old(written), Forward(m)), Acknowledged(old(written), m))
    {
      ok, bytes := IsV4(m), [];
      if !ok {
        TracksNext(next, next, written, m);
        written := written + [m];
        return;
      }
      var seqNo, ack := 0, 0;
      if !m.udp {
        seqNo, ack := Advance(m);
      } else {
        TracksNext(next, next, written, m);
        written := written + [m];
      }
      bytes := BuildFrame(m, id, seqNo, ack);
      if m.udp {
        UdpFrame(bytes, m, id, seqNo, ack, Position(old(written), Forward(m)), Acknowledged(old(written), m));
      }
    }

    /** The stream position of a TCP message, and the position it acknowledges. */
    method Advance(m: Message) returns (seqNo: nat, ack: nat)
      requires Valid() && !m.udp && IsV4(m)
      modifies this
      ensures Valid() && written == old(written) + [m]
      ensures seqNo == Position(old(written), Forward(m)) && ack == Acknowledged(old(written), m)
      ensures seqNo < U32 && ack < U32
    {
      ghost var before := next;
      assert TracksAt(next, written, Forward(m)) && TracksAt(next, written, Backward(m));
      if Forward(m) !in next {
        NothingSent(written, Forward(m));
        next := next[Forward(m) := 1];
      }
      seqNo := next[Forward(m)];
      ack := if Backward(m) in next then next[Backward(m)] else 0;
      next := next[Forward(m) := (seqNo + |m.payload|) % U32];
      assert next == before[Forward(m) := (seqNo + |m.payload|) % U32];
      TracksNext(before, next, written, m);
      written := written + [m];
    }
  }

  method BuildFrame(m: Message, id: nat, seqNo: nat, ack: nat) returns (bytes: seq<byte>)
    requires IsV4(m) && id < WORD && seqNo < U32 && ack < U32
    ensures IsFrame(bytes, m, id, seqNo, ack)
    ensures !m.udp && |bytes| - 34 <= MAX_SEGMENT ==> ReceiverAccepts(bytes)
  {
    var src, dst := m.src.quad.value, m.dst.quad.value;
    var length := IP_HEADER + Layer4(m) + |m.payload|;
    var f := new byte[ETHERNET + length](_ => 0);
    f[12] := 8;
    PutIpHeader(f, length, id, if m.udp then 17 else 6, src, dst);
    ghost var header := f[..34];
    assert header[14..] == f[14..34];
    if m.udp {
      PutUdp(f, m);
    } else {
      PutTcp(f, m, src, dst, seqNo, ack);
    }
    assert f[..34] == header && f[..] == f[..34] + f[34..];
    bytes := f[..];
    FrameOfParts(header, f[34..], m, id, seqNo, ack);
    if !m.udp && |bytes| - 34 <= MAX_SEGMENT {
      TcpFrameAccepted(bytes, m, id, seqNo, ack);
    }
  }

  lemma FrameOfParts(header: seq<byte>, segment: seq<byte>, m: Message, id: nat, seqNo: nat, ack: nat)
    requires IsV4(m) && |header| == 34 && |segment| == Layer4(m) + |m.payload|
    requires (forall k | 0 <= k < 12 :: header[k] == 0) && U16(header, 12) == 0x0800
    requires IsIpHeader(header[14..], IP_HEADER + |segment|, id, if m.udp then 17 else 6,
                        m.src.quad.value, m.dst.quad.value)
    requires if m.udp then IsUdp(segment, m) else IsTcp(segment, m, m.src.quad.value, m.dst.quad.value, seqNo, ack)
    ensures IsFrame(header + segment, m, id, seqNo, ack)
  {
    assert (header + segment)[14..34] == header[14..] && (header + segment)[34..] == segment;
  }

  /** A datagram has no stream position. */
  lemma UdpFrame(f: seq<byte>, m: Message, id: nat, s: nat, a: nat, seqNo: nat, ack: nat)
    requires IsV4(m) && m.udp && IsFrame(f, m, id, s, a)
    ensures IsFrame(f, m, id, seqNo, ack)
  {
  }

  // ---- the whole file ----

  /** One packet of the file: the position of its message among the chosen ones, and its bytes. */
  datatype Packet = Packet(of: nat, frame: seq<byte>)

  /** The messages of the wanted leg. */
  function Chosen(msgs: seq<Message>, leg: string): seq<Message> {
    if msgs == [] then []
    else
      var rest, m := Chosen(msgs[..|msgs| - 1], leg), msgs[|msgs| - 1];
      if leg != "" && m.leg != leg then rest else rest + [m]
  }

  /** The chosen messages are those of the leg, all of them when no leg is named, in their order. */
  lemma {:induction false} ChosenAre(a: seq<Message>, b: seq<Message>, leg: string)
    ensures Chosen(a + b, leg) == Chosen(a, leg) + Chosen(b, leg)
    ensures forall m: Message :: Chosen([m], leg) == if leg == "" || m.leg == leg then [m] else []
    decreases |b|
  {
    forall m: Message
      ensures Chosen([m], leg) == if leg == "" || m.leg == leg then [m] else []
    {
      assert [m][..0] == [];
    }
    if b == [] {
      assert a + b == a;
    } else {
      ChosenAre(a, b[..|b| - 1], leg);
      assert (a + b)[..|a + b| - 1] == a + b[..|b| - 1];
    }
  }

  ghost predicate IsPacket(p: Packet, chosen: seq<Message>) {
    && p.of < |chosen| && IsV4(chosen[p.of])
    && IsFrame(p.frame, chosen[p.of], (p.of + 1) % WORD,
               Position(chosen[..p.of], Forward(chosen[p.of])), Acknowledged(chosen[..p.of], chosen[p.of]))
  }

  ghost predicate AllPackets(packets: seq<Packet>, chosen: seq<Message>) {
    forall i | 0 <= i < |packets| :: IsPacket(packets[i], chosen)
  }

  /** Packets in message order, one for each IPv4 message and none for the others. */
  ghost predicate InMessageOrder(packets: seq<Packet>, chosen: seq<Message>) {
    && (forall i | 0 <= i < |packets| :: packets[i].of < |chosen|)
    && (forall i, j | 0 <= i < j < |packets| :: packets[i].of < packets[j].of)
    && (forall k | 0 <= k < |chosen| && IsV4(chosen[k]) :: exists i :: 0 <= i < |packets| && packets[i].of == k)
  }

  lemma PacketStays(p: Packet, chosen: seq<Message>, m: Message)
    requires IsPacket(p, chosen)
    ensures IsPacket(p, chosen + [m])
  {
    assert (chosen + [m])[..p.of] == chosen[..p.of];
  }

  lemma NewPacket(chosen: seq<Message>, m: Message, id: nat, frame: seq<byte>)
    requires IsV4(m)
    requires id == (|chosen| + 1) % WORD
    requires IsFrame(frame, m, id, Position(chosen, Forward(m)), Acknowledged(chosen, m))
    ensures IsPacket(Packet(|chosen|, frame), chosen + [m])
  {
    assert (chosen + [m])[..|chosen|] == chosen;
  }

  lemma AllPacketsStay(packets: seq<Packet>, chosen: seq<Message>, m: Message)
    requires AllPackets(packets, chosen)
    ensures AllPackets(packets, chosen + [m])
  {
    forall i | 0 <= i < |packets|
      ensures IsPacket(packets[i], chosen + [m])
    {
      PacketStays(packets[i], chosen, m);
    }
  }

  lemma OrderNext(packets: seq<Packet>, chosen: seq<Message>, m: Message, p: Packet)
    requires InMessageOrder(packets, chosen) && p.of == |chosen|
    ensures InMessageOrder(if IsV4(m) then packets + [p] else packets, chosen + [m])
  {
    var now := if IsV4(m) then packets + [p] else packets;
    forall k | 0 <= k < |chosen + [m]| && IsV4((chosen + [m])[k])
      ensures exists i :: 0 <= i < |now| && now[i].of == k
    {
      if k < |chosen| {
        assert IsV4(chosen[k]);
        var i :| 0 <= i < |packets| && packets[i].of == k;
        assert now[i] == packets[i];
      } else {
        assert now[|packets|].of == k;
      }
    }
  }

  /** The 16-bit packet identification counts the chosen messages. */
  function NextId(id: nat, ghost n: nat): (next: nat)
    requires id == n % WORD
    ensures next == (n + 1) % WORD && next < WORD
  {
    (id + 1) % WORD
  }

  method AddPacket(w: Writer, m: Message, id: nat, n: nat, packets: seq<Packet>) returns (out: seq<Packet>)
    requires w.Valid() && n == |w.written| && id == (n + 1) % WORD
    requires AllPackets(packets, w.written) && InMessageOrder(packets, w.written)
    modifies w
    ensures w.Valid() && w.written == old(w.written) + [m]
    ensures AllPackets(out, w.written) && InMessageOrder(out, w.written)
  {
    ghost var before := w.written;
    var ok, frame := w.FrameFor(m, id);
    AllPacketsStay(packets, before, m);
    OrderNext(packets, before, m, Packet(n, frame));
    out := packets;
    if ok {
      NewPacket(before, m, id, frame);
      out := packets + [Packet(n, frame)];
    }
  }

  /** Every IPv4 message of the leg becomes one verifying frame, in order, with continuous TCP streams. */
  method WriteCapture(msgs: seq<Message>, leg: string) returns (packets: seq<Packet>)
    ensures AllPackets(packets, Chosen(msgs, leg)) && InMessageOrder(packets, Chosen(msgs, leg))
  {
    var w := new Writer();
    packets := [];
    var id, n := 0, 0;
    for k := 0 to |msgs|
      invariant w.Valid() && fresh(w) && w.written == Chosen(msgs[..k], leg)
      invariant n == |w.written| && id == n % WORD
      invariant AllPackets(packets, w.written) && InMessageOrder(packets, w.written)
    {
      assert msgs[..k + 1][..k] == msgs[..k];
      if leg != "" && msgs[k].leg != leg {
        continue;
      }
      id := NextId(id, n);
      packets := AddPacket(w, msgs[k], id, n, packets);
      n := n + 1;
    }
    assert msgs[..|msgs|] == msgs;
  }
}
