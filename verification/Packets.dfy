// internal/protocol/vpn.go: length-prefixed IP packets on VPN packet streams,
// and the IPv4 header fields the hub routes by.
module Packets {
  import opened Bytes
  import opened Codec
  import opened Streams

  const MAX_PACKET_LEN := 65535

  type Packet = seq<Byte>

  datatype Address = Address(a: Byte, b: Byte, c: Byte, d: Byte)

  predicate Fits(pkt: Packet) {
    |pkt| <= MAX_PACKET_LEN
  }

  function EncodePacket(pkt: Packet): seq<Byte> {
    BigEndian(Truncate16(|pkt|)) + pkt
  }

  /** What ReadPacket accepts with a buffer of `capacity` bytes: the length is
      checked before any of the packet is read. */
  function ParsePacketInto(s: seq<Byte>, capacity: nat): Parsed<Packet> {
    match TakeBytes(s, 2)
    case Failed(e) => Failed(e)
    case Parsed(hdr, rest) =>
      var n := FromBigEndian(hdr[0], hdr[1]);
      if n > capacity then Failed(BadFrame) else TakeBytes(rest, n)
  }

  function ParsePacket(s: seq<Byte>): Parsed<Packet> {
    ParsePacketInto(s, MAX_PACKET_LEN)
  }

  method WritePacket(w: Sink, pkt: Packet) returns (ok: bool)
    modifies w
    ensures ok <==> |pkt| <= MAX_PACKET_LEN
    ensures w.out == old(w.out) + if ok then EncodePacket(pkt) else []
  {
    if |pkt| > MAX_PACKET_LEN {
      return false;
    }
    w.Write(BigEndian(|pkt|));
    ok := true;
    if |pkt| == 0 {
      assert pkt == [];
      return;
    }
    w.Write(pkt);
    assert old(w.out) + BigEndian(|pkt|) + pkt == old(w.out) + EncodePacket(pkt);
  }

  method ReadPacket(r: Source, dst: array<Byte>) returns (n: nat, err: Option<ReadError>)
    modifies r, dst
    ensures match ParsePacketInto(old(r.Bytes()), dst.Length)
      case Parsed(pkt, rest) => err == None && n == |pkt| <= dst.Length && dst[..n] == pkt && r.Bytes() == rest
      case Failed(e) => err == Some(e) && n == 0
  {
    n := 0;
    var hdr := new Byte[2];
    err := r.ReadFull(hdr, 0, 2);
    if err != None {
      return;
    }
    var len: nat := FromBigEndian(hdr[0], hdr[1]);
    if len == 0 {
      return;
    }
    if len > MAX_PACKET_LEN || len > dst.Length {
      return 0, Some(BadFrame);
    }
    err := r.ReadFull(dst, 0, len);
    if err == None {
      n := len;
    }
  }

  /** Destination address of an IPv4 packet (RFC 791, section 3.1). */
  function IPv4Dst(pkt: Packet): Option<Address> {
    if |pkt| < 20 || pkt[0] / 16 != 4 then None
    else Some(Address(pkt[16], pkt[17], pkt[18], pkt[19]))
  }

  predicate IsBroadcast(dst: Address) {
    dst == Address(255, 255, 255, 255) || dst.d == 255
  }

  lemma ParsePacketEncoded(pkt: Packet, tail: seq<Byte>)
    requires Fits(pkt)
    ensures ParsePacket(EncodePacket(pkt) + tail) == Parsed(pkt, tail)
  {
    var s := EncodePacket(pkt) + tail;
    assert s[..2] == BigEndian(|pkt|);
    assert s[2..] == pkt + tail;
  }

  lemma ParsePacketCut(pkt: Packet, k: nat)
    requires Fits(pkt) && k < |EncodePacket(pkt)|
    ensures ParsePacket(EncodePacket(pkt)[..k]).Failed?
  {
    var s := EncodePacket(pkt)[..k];
    if k >= 2 {
      assert s[..2] == BigEndian(|pkt|);
    }
  }

  lemma PacketsLawful()
    ensures Lawful(EncodePacket, Fits, ParsePacket)
  {
    forall pkt, tail | Fits(pkt) ensures ParsePacket(EncodePacket(pkt) + tail) == Parsed(pkt, tail) {
      ParsePacketEncoded(pkt, tail);
    }
    forall pkt, k | Fits(pkt) && 0 <= k < |EncodePacket(pkt)| ensures ParsePacket(EncodePacket(pkt)[..k]).Failed? {
      ParsePacketCut(pkt, k);
    }
  }

  /** The packets written to a stream are the packets read from it, and a
      stream cut at `k` yields exactly the packets that end before the cut. */
  lemma PacketsUniquelyDecodable(pkts: seq<Packet>, k: nat)
    requires AllOk(Fits, pkts) && k <= |EncodeAll(EncodePacket, pkts)|
    ensures DecodeAll(ParsePacket, EncodeAll(EncodePacket, pkts)) == (pkts, Eof)
    ensures var m := WhollyContained(EncodePacket, pkts, k);
      && WhollyBefore(EncodePacket, pkts, k, m)
      && DecodeAll(ParsePacket, EncodeAll(EncodePacket, pkts)[..k]).0 == pkts[..m]
  {
    PacketsLawful();
    UniquelyDecodable(EncodePacket, Fits, ParsePacket, pkts);
    PrefixDecodes(EncodePacket, Fits, ParsePacket, pkts, k);
    WhollyContainedFrontier(EncodePacket, pkts, k);
  }

  /** Two bytes of length, the high one first, then the packet. */
  lemma PacketLayout(pkt: Packet)
    ensures Fits(pkt) <==> |pkt| <= 65535
    ensures Fits(pkt) ==> EncodePacket(pkt) == [|pkt| / 256, |pkt| % 256] + pkt
  {
  }
}
