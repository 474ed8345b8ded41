/** Packets as bytes (post.cc, network.cc): a packet header, a mail header, the data, and padding. */
module Wire {
  import opened Words
  import Memory

  type Byte = Memory.Byte

  const MAX_WIRE_SIZE := 64
  const HEADER_SIZE := 12
  const MAX_PACKET_SIZE := MAX_WIRE_SIZE - HEADER_SIZE
  const MAX_MAIL_SIZE := MAX_PACKET_SIZE - HEADER_SIZE

  /** PacketHeader and MailHeader have the same shape: addresses to and from, and a length. */
  datatype Header = Header(to: int, from: int, length: nat)

  /** What a user sends: machine addresses, mailbox addresses and the data. */
  datatype Message = Message(to: int, from: int, boxTo: int, boxFrom: int, data: seq<Byte>)

  predicate MessageOk(m: Message) {
    IsInt(m.to) && IsInt(m.from) && IsInt(m.boxTo) && IsInt(m.boxFrom) && |m.data| <= MAX_MAIL_SIZE
  }

  predicate HeaderOk(h: Header) { IsInt(h.to) && IsInt(h.from) && IsUnsigned(h.length) }

  /** A header as it lies in memory. */
  function HeaderBytes(h: Header): (b: seq<Byte>)
    ensures |b| == HEADER_SIZE
  {
    Memory.Bytes(h.to, 4) + Memory.Bytes(h.from, 4) + Memory.Bytes(h.length, 4)
  }

  function ReadHeader(b: seq<Byte>): (h: Header)
    requires |b| >= HEADER_SIZE
  {
    Header(Int(Memory.FromBytes(b[..4])), Int(Memory.FromBytes(b[4..8])), Memory.FromBytes(b[8..12]))
  }

  lemma WordRoundTrip(v: int)
    ensures Memory.FromBytes(Memory.Bytes(v, 4)) == Unsigned(v)
    ensures IsInt(v) ==> Int(Memory.FromBytes(Memory.Bytes(v, 4))) == v
  {
    Memory.BytesRoundTrip(v, 4);
    Memory.Radixes();
    Memory.IntOfLow(v);
  }

  lemma ThreeWords(a: seq<Byte>, b: seq<Byte>, c: seq<Byte>, rest: seq<Byte>)
    requires |a| == |b| == |c| == 4
    ensures var s := a + b + c + rest; s[..4] == a && s[4..8] == b && s[8..12] == c
  {
  }

  lemma HeaderRoundTrip(h: Header, rest: seq<Byte>)
    requires HeaderOk(h)
    ensures ReadHeader(HeaderBytes(h) + rest) == h
  {
    var a, b, c := Memory.Bytes(h.to, 4), Memory.Bytes(h.from, 4), Memory.Bytes(h.length, 4);
    ThreeWords(a, b, c, rest);
    WordRoundTrip(h.to);
    WordRoundTrip(h.from);
    WordRoundTrip(h.length);
  }

  function PacketHeader(m: Message): Header { Header(m.to, m.from, |m.data| + HEADER_SIZE) }

  function MailHeader(m: Message): Header { Header(m.boxTo, m.boxFrom, |m.data|) }

  /** The payload PostOffice::Send hands to the network. */
  function Payload(m: Message): (b: seq<Byte>)
    ensures |b| == HEADER_SIZE + |m.data|
  {
    HeaderBytes(MailHeader(m)) + m.data
  }

  /** What Network::Send puts into the socket; pad is whatever the rest of the buffer holds. */
  function WireBytes(m: Message, pad: seq<Byte>): seq<Byte> {
    HeaderBytes(PacketHeader(m)) + Payload(m) + pad
  }

  /** What CheckPktAvail makes of a wire: the header and the packet's bytes. */
  predicate WireOk(w: seq<Byte>) {
    |w| == MAX_WIRE_SIZE && ReadHeader(w).length <= MAX_PACKET_SIZE
  }

  function Packet(w: seq<Byte>): seq<Byte>
    requires WireOk(w)
  {
    w[HEADER_SIZE..HEADER_SIZE + ReadHeader(w).length]
  }

  /** What the postal worker makes of a packet. */
  predicate PacketOk(b: seq<Byte>) {
    HEADER_SIZE <= |b| && ReadHeader(b).length <= |b| - HEADER_SIZE
  }

  function Mail(h: Header, b: seq<Byte>): Message
    requires PacketOk(b)
  {
    var mh := ReadHeader(b);
    Message(h.to, h.from, mh.to, mh.from, b[HEADER_SIZE..HEADER_SIZE + mh.length])
  }

  lemma PayloadRoundTrip(m: Message)
    requires MessageOk(m)
    ensures PacketOk(Payload(m)) && Mail(PacketHeader(m), Payload(m)) == m
  {
    HeaderRoundTrip(MailHeader(m), m.data);
  }

  /** The framing loses and adds nothing, whatever the padding is. */
  lemma WireRoundTrip(m: Message, pad: seq<Byte>)
    requires MessageOk(m) && |pad| == MAX_PACKET_SIZE - HEADER_SIZE - |m.data|
    ensures var w := WireBytes(m, pad);
            && WireOk(w) && ReadHeader(w) == PacketHeader(m) && Packet(w) == Payload(m)
            && PacketOk(Packet(w)) && Mail(ReadHeader(w), Packet(w)) == m
  {
    var w := WireBytes(m, pad);
    assert w == HeaderBytes(PacketHeader(m)) + (Payload(m) + pad);
    HeaderRoundTrip(PacketHeader(m), Payload(m) + pad);
    PayloadRoundTrip(m);
  }

  /** The layout of a packet of 64 bytes: machine to, machine from, the length that follows in the packet, box to,
      box from and the length of the data, four bytes each with the lowest first, and then the data. */
  lemma WireLayout(m: Message, pad: seq<Byte>)
    requires MessageOk(m) && |pad| == MAX_PACKET_SIZE - HEADER_SIZE - |m.data|
    ensures var w := WireBytes(m, pad);
            && |w| == 64 && |m.data| <= 40
            && WordAt(w, 0) == Unsigned(m.to) && WordAt(w, 4) == Unsigned(m.from) && WordAt(w, 8) == |m.data| + 12
            && WordAt(w, 12) == Unsigned(m.boxTo) && WordAt(w, 16) == Unsigned(m.boxFrom) && WordAt(w, 20) == |m.data|
            && w[24..24 + |m.data|] == m.data
  {
    var w := WireBytes(m, pad);
    HeaderWords(PacketHeader(m));
    HeaderWords(MailHeader(m));
    var p, q := HeaderBytes(PacketHeader(m)), HeaderBytes(MailHeader(m));
    assert w == p + q + m.data + pad;
    assert w[0..4] == p[0..4] && w[4..8] == p[4..8] && w[8..12] == p[8..12];
    assert w[12..16] == q[0..4] && w[16..20] == q[4..8] && w[20..24] == q[8..12];
  }

  function WordAt(b: seq<Byte>, k: nat): int
    requires k + 4 <= |b|
  {
    Memory.FromBytes(b[k..k + 4])
  }

  lemma HeaderWords(h: Header)
    requires HeaderOk(h)
    ensures var b := HeaderBytes(h);
            WordAt(b, 0) == Unsigned(h.to) && WordAt(b, 4) == Unsigned(h.from) && WordAt(b, 8) == h.length
  {
    var x, y, z := Memory.Bytes(h.to, 4), Memory.Bytes(h.from, 4), Memory.Bytes(h.length, 4);
    var b := HeaderBytes(h);
    assert b[0..4] == x && b[4..8] == y && b[8..12] == z;
    WordOf(h.to);
    WordOf(h.from);
    WordOf(h.length);
  }

  lemma WordOf(v: int)
    ensures Memory.FromBytes(Memory.Bytes(v, 4)) == Unsigned(v)
    ensures IsUnsigned(v) ==> Unsigned(v) == v
  {
    WordRoundTrip(v);
  }
}
