/** The network device and the post office with their buffers (network.cc, post.cc). */
module PostCode {
  import opened Wire
  import O = Office

  /** bcopy of b to data from index at on. */
  method Copy(b: seq<Byte>, data: array<Byte>, at: nat)
    requires at + |b| <= data.Length
    modifies data
    ensures forall k :: 0 <= k < data.Length ==> data[k] == if at <= k < at + |b| then b[k - at] else old(data[k])
  {
    forall k | 0 <= k < |b| {
      data[at + k] := b[k];
    }
  }

  class Network {
    const ident: int
    var sendBusy: bool
    var inHdr: Header
    const inbox: array<Byte>
    ghost var outstanding: nat    // send interrupts scheduled and not yet delivered

    constructor (addr: int)
      ensures Valid() && ident == addr && !sendBusy && outstanding == 0 && Slot() == O.Empty && fresh(inbox)
    {
      ident, sendBusy, inHdr, outstanding := addr, false, Header(0, 0, 0), 0;
      inbox := new Byte[MAX_PACKET_SIZE];
    }

    ghost predicate Valid()
      reads this
    {
      inbox.Length == MAX_PACKET_SIZE && inHdr.length <= MAX_PACKET_SIZE
    }

    function Slot(): O.Slot
      requires Valid()
      reads this, inbox
    {
      if inHdr.length == 0 then O.Empty else O.Full(inHdr, inbox[..inHdr.length])
    }

    /** The packets put into the socket, none if this one is lost; the padding is what the new buffer
        happens to hold.  sendBusy is tested and never set. */
    method Send(hdr: Header, data: array<Byte>, lost: bool) returns (wires: seq<seq<Byte>>)
      requires Valid() && !sendBusy && 0 < hdr.length <= MAX_PACKET_SIZE && hdr.from == ident && hdr.length <= data.Length
      modifies this`outstanding
      ensures outstanding == old(outstanding) + 1
      ensures lost ==> wires == []
      ensures !lost ==>
                && |wires| == 1 && |wires[0]| == MAX_WIRE_SIZE
                && wires[0] == HeaderBytes(hdr) + data[..hdr.length] + wires[0][HEADER_SIZE + hdr.length..]
    {
      outstanding := outstanding + 1;
      if lost {
        return [];
      }
      var buffer := new Byte[MAX_WIRE_SIZE];
      Copy(HeaderBytes(hdr), buffer, 0);
      Copy(data[..hdr.length], buffer, HEADER_SIZE);
      var wire := buffer[..];
      assert forall k :: 0 <= k < |wire| ==>
        wire[k] == (HeaderBytes(hdr) + data[..hdr.length] + wire[HEADER_SIZE + hdr.length..])[k];
      return [wire];
    }

    method SendDone()
      requires outstanding > 0
      modifies this`sendBusy, this`outstanding
      ensures !sendBusy && outstanding == old(outstanding) - 1
    {
      sendBusy, outstanding := false, outstanding - 1;
    }

    /** The poll: takes the next wire if the inbox is empty, and says whether to raise the interrupt. */
    method CheckPktAvail(socket: seq<seq<Byte>>) returns (rest: seq<seq<Byte>>, arrived: bool)
      requires Valid()
      requires socket != [] ==> WireOk(socket[0]) && ReadHeader(socket[0]).to == ident && ReadHeader(socket[0]).length > 0
      modifies this`inHdr, inbox
      ensures Valid()
      ensures arrived <==> old(Slot()).Empty? && socket != []
      ensures if arrived then rest == socket[1..] && Slot() == O.Full(ReadHeader(socket[0]), Packet(socket[0]))
              else rest == socket && Slot() == old(Slot())
    {
      if inHdr.length != 0 || socket == [] {
        return socket, false;
      }
      var buffer := socket[0];
      inHdr := ReadHeader(buffer);
      Copy(Packet(buffer), inbox, 0);
      assert inbox[..inHdr.length] == Packet(buffer);
      return socket[1..], true;
    }

    method Receive(data: array<Byte>) returns (hdr: Header)
      requires Valid() && data.Length == MAX_PACKET_SIZE && data != inbox
      modifies this`inHdr, data
      ensures Valid() && Slot() == O.Empty && hdr == old(inHdr)
      ensures old(Slot()).Full? ==> data[..hdr.length] == old(Slot()).b
    {
      hdr := inHdr;
      inHdr := inHdr.(length := 0);
      if hdr.length != 0 {
        Copy(inbox[..hdr.length], data, 0);
      }
    }
  }

  class PostOffice {
    const netAddr: int
    const network: Network
    var boxes: seq<seq<Message>>

    constructor (addr: int, network: Network, nBoxes: nat)
      requires network.ident == addr
      ensures netAddr == addr && this.network == network && boxes == seq(nBoxes, _ => [])
    {
      netAddr := addr;
      this.network := network;
      boxes := seq(nBoxes, _ => []);
    }

    /** Send, from the assertions to the call of the network; pad is what the packet ends with. */
    method Send(m0: Message, lost: bool) returns (wires: seq<seq<Byte>>, ghost pad: seq<Byte>)
      requires network.Valid() && !network.sendBusy && network.ident == netAddr
      requires MessageOk(m0.(from := netAddr))
      modifies network`outstanding
      ensures network.outstanding == old(network.outstanding) + 1
      ensures lost ==> wires == []
      ensures !lost ==>
                |pad| == MAX_PACKET_SIZE - HEADER_SIZE - |m0.data| && wires == [WireBytes(m0.(from := netAddr), pad)]
    {
      var buffer := Assemble(m0);
      var pktHdr := Header(m0.to, netAddr, |m0.data| + HEADER_SIZE);
      wires := network.Send(pktHdr, buffer, lost);
      pad := if lost then [] else wires[0][HEADER_SIZE + pktHdr.length..];
    }

    /** The mail header and the data, one after the other. */
    static method Assemble(m: Message) returns (buffer: array<Byte>)
      requires |m.data| <= MAX_MAIL_SIZE
      ensures fresh(buffer) && buffer.Length == MAX_PACKET_SIZE && buffer[..HEADER_SIZE + |m.data|] == Payload(m)
    {
      buffer := new Byte[MAX_PACKET_SIZE];
      Copy(HeaderBytes(Header(m.boxTo, m.boxFrom, |m.data|)), buffer, 0);
      Copy(m.data, buffer, HEADER_SIZE);
      assert forall k :: 0 <= k < HEADER_SIZE + |m.data| ==> buffer[k] == Payload(m)[k];
    }

    /** One turn of PostalDelivery after its P: from the inbox into the right mailbox. */
    method DeliverOne() returns (ghost mail: Message)
      requires network.Valid() && network.Slot().Full? && PacketOk(network.Slot().b)
      requires 0 <= Mail(network.Slot().h, network.Slot().b).boxTo < |boxes|
      modifies this, network`inHdr
      ensures network.Valid() && network.Slot() == O.Empty
      ensures mail == Mail(old(network.Slot()).h, old(network.Slot()).b)
      ensures boxes == old(boxes)[mail.boxTo := old(boxes)[mail.boxTo] + [mail]]
    {
      ghost var slot := network.Slot();
      mail := Mail(slot.h, slot.b);
      var buffer := new Byte[MAX_PACKET_SIZE];
      var pktHdr := network.Receive(buffer);
      assert buffer[..pktHdr.length] == slot.b;
      SameHeader(buffer[..], slot.b);
      var mailHdr := ReadHeader(buffer[..]);
      var got := Message(pktHdr.to, pktHdr.from, mailHdr.to, mailHdr.from, buffer[HEADER_SIZE..HEADER_SIZE + mailHdr.length]);
      assert got == mail;
      boxes := boxes[mailHdr.to := boxes[mailHdr.to] + [got]];
    }
  }

  /** Only the first bytes of a buffer matter to the header it starts with. */
  lemma SameHeader(buffer: seq<Byte>, b: seq<Byte>)
    requires HEADER_SIZE <= |b| <= |buffer| && b == buffer[..|b|]
    ensures ReadHeader(buffer) == ReadHeader(b)
  {
    assert buffer[..4] == b[..4] && buffer[4..8] == b[4..8] && buffer[8..12] == b[8..12];
  }
}
