/**
 * The packet events shared between the XDP program and user space
 * (folonet-common/src/event.rs): the TCP flag set, the Packet record taken
 * from a TCP header, and the 128-bit wire form of Packet and Event.
 */
module CommonEvent {
  import opened Wrappers

  /** PacketFlag is a bit set over a u32; only three bits are named. */
  const SYN: bv32 := 1
  const FIN: bv32 := 2
  const ACK: bv32 := 4
  const KNOWN_FLAGS: bv32 := 7

  /** `PacketFlag::contains`: every bit of `bit` is set in `flag`. */
  predicate Contains(flag: bv32, bit: bv32) {
    flag & bit == bit
  }

  datatype Packet = Packet(flag: bv32, ackSeq: bv32, seqNum: bv32)
  {
    predicate IsSyn() { Contains(flag, SYN) }
    predicate IsFin() { Contains(flag, FIN) }
    predicate IsAck() { Contains(flag, ACK) }

    /** A flag set that the bitflags type can hold without unknown bits. */
    predicate WellFormed() { flag & !KNOWN_FLAGS == 0 }
  }

  /**
   * The fields of a TCP header that `Packet::new` reads, as they lie in
   * memory: the one-bit flags and the sequence numbers in network byte order.
   */
  datatype TcpHdr = TcpHdr(syn: bv1, fin: bv1, ack: bv1, seqBe: bv32, ackSeqBe: bv32)

  /** `u32::from_be` on a little-endian host: the four bytes reversed. */
  function FromBe32(x: bv32): (r: bv32)
    ensures r & 0xFF == (x >> 24) & 0xFF
    ensures (r >> 8) & 0xFF == (x >> 16) & 0xFF
    ensures (r >> 16) & 0xFF == (x >> 8) & 0xFF
    ensures (r >> 24) & 0xFF == x & 0xFF
  {
    ((x & 0xFF) << 24) | ((x & 0xFF00) << 8) | ((x >> 8) & 0xFF00) | ((x >> 24) & 0xFF)
  }

  /** Byte reversal undoes itself, so `from_be` and `to_be` agree. */
  lemma FromBe32Involution(x: bv32)
    ensures FromBe32(FromBe32(x)) == x
  {
  }

  /** `Packet::new`: a flag bit is set exactly when the header bit is nonzero. */
  function NewPacket(h: TcpHdr): (p: Packet)
    ensures p.WellFormed()
    ensures p.IsSyn() <==> h.syn != 0
    ensures p.IsFin() <==> h.fin != 0
    ensures p.IsAck() <==> h.ack != 0
    ensures p.seqNum == FromBe32(h.seqBe) && p.ackSeq == FromBe32(h.ackSeqBe)
  {
    var flag := (if h.syn != 0 then SYN else 0)
              | (if h.fin != 0 then FIN else 0)
              | (if h.ack != 0 then ACK else 0);
    Packet.Packet(flag, FromBe32(h.ackSeqBe), FromBe32(h.seqBe))
  }

  /**
   * `From<u128> for Packet`: seqNum from bits 0..31, ack_seq from bits 32..63,
   * the flag set from bits 64..95 with the unknown bits dropped.
   */
  function DecodePacket(v: bv128): (p: Packet)
    ensures p.WellFormed()
    ensures p.seqNum as bv128 == v & 0xFFFF_FFFF
    ensures p.ackSeq as bv128 == (v >> 32) & 0xFFFF_FFFF
    ensures p.flag as bv128 == (v >> 64) & (KNOWN_FLAGS as bv128)
  {
    var ackSeq := (((v & 0xFFFF_FFFF_FFFF_FFFF) >> 32) as bv32);
    var seqNum := (v & 0xFFFF_FFFF) as bv32;
    var flag := (((v >> 64) & 0xFFFF_FFFF) as bv32) & KNOWN_FLAGS;
    Packet.Packet(flag, ackSeq, seqNum)
  }

  /**
   * The 128-bit layout that DecodePacket reads. The source's own
   * `From<&Packet> for u128` only calls itself; this is the layout it is
   * tested against.
   */
  function EncodePacket(p: Packet): (v: bv128)
    ensures v >> 96 == 0
  {
    ((p.flag as bv128) << 64) | ((p.ackSeq as bv128) << 32) | (p.seqNum as bv128)
  }

  /**
   * `From<&Packet> for u128` as written: its body converts the same reference
   * into u128 again, which is this very impl. `depth` bounds the calls the
   * stack allows; each call only makes the next one.
   */
  function EncodePacketAsWritten(p: Packet, depth: nat): Option<bv128>
    decreases depth
  {
    if depth == 0 then None else EncodePacketAsWritten(p, depth - 1)
  }

  /** However deep the stack, the encoder as written never yields a value. */
  lemma {:induction false} AsWrittenEncoderNeverReturns(p: Packet, depth: nat)
    ensures EncodePacketAsWritten(p, depth) == None
    decreases depth
  {
    if depth > 0 {
      AsWrittenEncoderNeverReturns(p, depth - 1);
    }
  }

  /** Decoding an encoded packet gives the packet back. */
  lemma PacketRoundTrip(p: Packet)
    requires p.WellFormed()
    ensures DecodePacket(EncodePacket(p)) == p
  {
    var v := EncodePacket(p);
    var q := DecodePacket(v);
    assert q.seqNum as bv128 == p.seqNum as bv128;
    assert q.ackSeq as bv128 == p.ackSeq as bv128;
    assert q.flag as bv128 == p.flag as bv128;
  }

  /** Encoding a decoded value keeps exactly the bits the layout knows. */
  lemma PacketLayoutRoundTrip(v: bv128)
    ensures EncodePacket(DecodePacket(v)) == v & (((KNOWN_FLAGS as bv128) << 64) | 0xFFFF_FFFF_FFFF_FFFF)
  {
  }

  datatype Event = Packet(packet: Packet) | Udp

  /** `Event::type_id`. */
  function TypeId(e: Event): (id: bv8)
    ensures id == 1 <==> e.Packet?
    ensures id == 2 <==> e.Udp?
  {
    match e
    case Packet(_) => 1
    case Udp => 2
  }

  /** `From<&Event> for u128`: a Packet carries its type id in the top byte; Udp is 0. */
  function EncodeEvent(e: Event): (v: bv128)
    ensures e.Packet? ==> v >> 120 == 1 && v & 0xFFFF_FFFF_FFFF_FFFF_FFFF_FFFF == EncodePacket(e.packet)
    ensures e.Udp? ==> v == 0
  {
    match e
    case Packet(p) => ((TypeId(e) as bv128) << 120) | EncodePacket(p)
    case Udp => 0
  }

  /** `From<u128> for Event`: type id 1 is a Packet; any other id panics (None). */
  function DecodeEvent(v: bv128): (r: Option<Event>)
    ensures r.Some? <==> v >> 120 == 1
    ensures r.Some? ==> r.value == Event.Packet(DecodePacket(v))
  {
    var typeId := (v >> 120) as bv8;
    if typeId == 1 then Some(Event.Packet(DecodePacket(v))) else None
  }

  /** DecodePacket reads only the low 96 bits. */
  lemma DecodePacketLow96(v: bv128)
    ensures DecodePacket(v) == DecodePacket(v & 0xFFFF_FFFF_FFFF_FFFF_FFFF_FFFF)
  {
    var w := v & 0xFFFF_FFFF_FFFF_FFFF_FFFF_FFFF;
    assert v & 0xFFFF_FFFF == w & 0xFFFF_FFFF;
    assert (v >> 32) & 0xFFFF_FFFF == (w >> 32) & 0xFFFF_FFFF;
    assert (v >> 64) & (KNOWN_FLAGS as bv128) == (w >> 64) & (KNOWN_FLAGS as bv128);
  }

  /** A well-formed Packet event survives the 128-bit round trip. */
  lemma EventRoundTrip(p: Packet)
    requires p.WellFormed()
    ensures DecodeEvent(EncodeEvent(Event.Packet(p))) == Some(Event.Packet(p))
  {
    var v := EncodeEvent(Event.Packet(p));
    DecodePacketLow96(v);
    PacketRoundTrip(p);
  }

  /** Udp encodes to 0, which does not decode: the round trip fails for Udp. */
  lemma UdpDoesNotDecode()
    ensures DecodeEvent(EncodeEvent(Udp)) == None
  {
  }

  /**
   * The packet of the round-trip test (ACK and SYN, ack_seq 128, seq 129):
   * the encoder as written yields nothing at any depth, while the layout
   * encoder brings it back through the decoder.
   */
  lemma TestPacketRoundTrip(depth: nat)
    ensures var p := Packet.Packet(ACK | SYN, 128, 129);
      EncodePacketAsWritten(p, depth) == None && DecodePacket(EncodePacket(p)) == p
  {
    var p := Packet.Packet(ACK | SYN, 128, 129);
    AsWrittenEncoderNeverReturns(p, depth);
    PacketRoundTrip(p);
  }
}
