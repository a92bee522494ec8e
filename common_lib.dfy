/**
 * The packed key types shared by the XDP program and user space
 * (folonet-common/src/lib.rs): a port pair in a u32, an endpoint in a u64,
 * a connection as a pair of endpoints, a MAC address in a u64, the
 * Internet-checksum fold, and the Notification record.
 */
module CommonLib {
  import opened CommonEvent

  /** `BiPort(u32)`: source port in the high half, destination in the low half. */
  datatype BiPort = BiPort(value: bv32)

  function NewBiPort(srcPort: bv16, dstPort: bv16): (b: BiPort)
    ensures b.value >> 16 == srcPort as bv32
    ensures b.value & 0xFFFF == dstPort as bv32
  {
    BiPort(((srcPort as bv32) << 16) | (dstPort as bv32))
  }

  /** `split_net`: the two halves, high first. */
  function SplitNet(b: BiPort): (r: (bv16, bv16))
    ensures r.0 as bv32 == b.value >> 16
    ensures r.1 as bv32 == b.value & 0xFFFF
  {
    ((b.value >> 16) as bv16, (b.value & 0xFFFF) as bv16)
  }

  lemma BiPortRoundTrip(s: bv16, d: bv16)
    ensures SplitNet(NewBiPort(s, d)) == (s, d)
  {
    var r := SplitNet(NewBiPort(s, d));
    assert r.0 as bv32 == s as bv32 && r.1 as bv32 == d as bv32;
  }

  lemma BiPortLayoutRoundTrip(b: BiPort)
    ensures NewBiPort(SplitNet(b).0, SplitNet(b).1) == b
  {
  }

  /** `KEndpoint(u64)`: the port above bit 32, the IPv4 address below. */
  datatype KEndpoint = KEndpoint(value: bv64)
  {
    /** `ip()`: the low 32 bits. */
    function Ip(): bv32 { (value & 0xFFFF_FFFF) as bv32 }

    /** `port()`: bits 32..47. */
    function Port(): bv16 { ((value >> 32) & 0xFFFF) as bv16 }
  }

  function NewKEndpoint(ip: bv32, port: bv16): (e: KEndpoint)
    ensures e.value >> 48 == 0
    ensures e.Ip() == ip && e.Port() == port
  {
    var e := KEndpoint(((port as bv64) << 32) | (ip as bv64));
    assert e.Ip() as bv64 == ip as bv64;
    assert e.Port() as bv64 == port as bv64;
    e
  }

  /** Two endpoints built from different addresses or ports differ. */
  lemma KEndpointInjective(ip1: bv32, port1: bv16, ip2: bv32, port2: bv16)
    ensures NewKEndpoint(ip1, port1) == NewKEndpoint(ip2, port2) <==> ip1 == ip2 && port1 == port2
  {
    if NewKEndpoint(ip1, port1) == NewKEndpoint(ip2, port2) {
      assert NewKEndpoint(ip1, port1).Ip() == NewKEndpoint(ip2, port2).Ip();
      assert NewKEndpoint(ip1, port1).Port() == NewKEndpoint(ip2, port2).Port();
    }
  }

  /** Every endpoint below 2^48 is the one built from its own address and port. */
  lemma KEndpointLayoutRoundTrip(e: KEndpoint)
    requires e.value >> 48 == 0
    ensures NewKEndpoint(e.Ip(), e.Port()) == e
  {
  }

  datatype KConnection = KConnection(from: KEndpoint, to: KEndpoint)

  /** `KConnection::reverse`: the same flow seen from the other side. */
  function Reverse(c: KConnection): (r: KConnection)
    ensures r.from == c.to && r.to == c.from
  {
    KConnection(c.to, c.from)
  }

  lemma ReverseInvolution(c: KConnection)
    ensures Reverse(Reverse(c)) == c
  {
  }

  /** `Mac(u64)`. */
  datatype Mac = Mac(value: bv64)

  /** The packing of `Mac::new`: a0..a1 as a big-endian u16 above a2..a5 as a big-endian u32. */
  function MacValue(a0: bv8, a1: bv8, a2: bv8, a3: bv8, a4: bv8, a5: bv8): (v: bv64)
    ensures v >> 48 == 0
  {
    var high: bv16 := ((a0 as bv16) << 8) | (a1 as bv16);
    var low: bv32 := ((a2 as bv32) << 24) | ((a3 as bv32) << 16) | ((a4 as bv32) << 8) | (a5 as bv32);
    ((high as bv64) << 32) | (low as bv64)
  }

  /** `Mac::new` from a 6-byte address. */
  function NewMac(addr: seq<bv8>): (m: Mac)
    requires |addr| == 6
    ensures m.value >> 48 == 0
  {
    Mac(MacValue(addr[0], addr[1], addr[2], addr[3], addr[4], addr[5]))
  }

  /** The byte of `x` at bit offset `shift`. */
  function ByteAt(x: bv64, shift: bv8): bv8
    requires shift <= 56
  {
    ((x >> shift) & 0xFF) as bv8
  }

  /** `BigEndian::write_u64`: the most significant byte first. */
  function BigEndianBytes(x: bv64): (b: seq<bv8>)
    ensures |b| == 8
  {
    [ByteAt(x, 56), ByteAt(x, 48), ByteAt(x, 40), ByteAt(x, 32),
     ByteAt(x, 24), ByteAt(x, 16), ByteAt(x, 8), ByteAt(x, 0)]
  }

  /** `Into<[u8; 6]> for Mac`: the last six of the eight big-endian bytes. */
  function MacBytes(m: Mac): (b: seq<bv8>)
    ensures |b| == 6
  {
    BigEndianBytes(m.value)[2..]
  }

  /** Each byte of the packed value sits at its big-endian offset. */
  lemma MacValueBytes(a0: bv8, a1: bv8, a2: bv8, a3: bv8, a4: bv8, a5: bv8)
    ensures ByteAt(MacValue(a0, a1, a2, a3, a4, a5), 40) == a0
    ensures ByteAt(MacValue(a0, a1, a2, a3, a4, a5), 32) == a1
    ensures ByteAt(MacValue(a0, a1, a2, a3, a4, a5), 24) == a2
    ensures ByteAt(MacValue(a0, a1, a2, a3, a4, a5), 16) == a3
    ensures ByteAt(MacValue(a0, a1, a2, a3, a4, a5), 8) == a4
    ensures ByteAt(MacValue(a0, a1, a2, a3, a4, a5), 0) == a5
  {
  }

  /** The six bytes `Into<[u8; 6]>` keeps, by offset. */
  lemma MacBytesOffsets(v: bv64)
    ensures MacBytes(Mac(v)) == [ByteAt(v, 40), ByteAt(v, 32), ByteAt(v, 24), ByteAt(v, 16), ByteAt(v, 8), ByteAt(v, 0)]
  {
  }

  /** Converting a 6-byte address to a Mac and back returns the same bytes. */
  lemma MacRoundTrip(addr: seq<bv8>)
    requires |addr| == 6
    ensures MacBytes(NewMac(addr)) == addr
  {
    MacBytesOffsets(NewMac(addr).value);
    MacValueBytes(addr[0], addr[1], addr[2], addr[3], addr[4], addr[5]);
    assert addr == [addr[0], addr[1], addr[2], addr[3], addr[4], addr[5]];
  }

  /** A value below 2^48 is the packing of its own six low bytes. */
  lemma MacValueOfBytes(v: bv64)
    requires v >> 48 == 0
    ensures MacValue(ByteAt(v, 40), ByteAt(v, 32), ByteAt(v, 24), ByteAt(v, 16), ByteAt(v, 8), ByteAt(v, 0)) == v
  {
  }

  /** A Mac below 2^48 is rebuilt from its bytes. */
  lemma MacLayoutRoundTrip(m: Mac)
    requires m.value >> 48 == 0
    ensures NewMac(MacBytes(m)) == m
  {
    MacBytesOffsets(m.value);
    MacValueOfBytes(m.value);
  }

  /** One end-around-carry step of RFC 1071, section 2: the high part added to the low 16 bits. */
  function EndAroundCarry(x: nat): nat {
    x % 0x1_0000 + x / 0x1_0000
  }

  /** The carry step keeps the value modulo 0xFFFF (since 0x10000 is 1 modulo 0xFFFF). */
  lemma EndAroundCarryModulo(x: nat)
    ensures EndAroundCarry(x) % 0xFFFF == x % 0xFFFF
    ensures x > 0 ==> EndAroundCarry(x) > 0
    ensures x >= 0x1_0000 ==> EndAroundCarry(x) < x
  {
    var q, r := x / 0x1_0000, x % 0x1_0000;
    assert x == 0xFFFF * q + (q + r);
  }

  /**
   * `csum_fold_helper`: five conditional folds of the high bits into the low
   * 16 bits, then the 16-bit complement. Five folds bring any u64 below 2^16,
   * so the result is the complement of a 16-bit value congruent to the input
   * modulo 0xFFFF, and nonzero input folds to a nonzero sum. The u64 operations
   * never overflow here, so `& 0xFFFF` and `>> 16` are written as `%` and `/`.
   */
  method CsumFoldHelper(csum0: nat) returns (r: nat)
    requires csum0 < 0x1_0000_0000_0000_0000
    ensures r < 0x1_0000
    ensures (0xFFFF - r) % 0xFFFF == csum0 % 0xFFFF
    ensures r == 0xFFFF <==> csum0 == 0
  {
    var csum := csum0;
    EndAroundCarryModulo(csum);
    if csum / 0x1_0000 != 0 {
      csum := EndAroundCarry(csum);
    }
    assert csum < 0x1_0000_0000_0000 + 0x1_0000;
    EndAroundCarryModulo(csum);
    if csum / 0x1_0000 != 0 {
      csum := EndAroundCarry(csum);
    }
    assert csum < 0x2_0000_0000;
    EndAroundCarryModulo(csum);
    if csum / 0x1_0000 != 0 {
      csum := EndAroundCarry(csum);
    }
    assert csum < 0x4_0000;
    EndAroundCarryModulo(csum);
    if csum / 0x1_0000 != 0 {
      csum := EndAroundCarry(csum);
    }
    assert csum <= 0x1_0002;
    EndAroundCarryModulo(csum);
    if csum / 0x1_0000 != 0 {
      csum := EndAroundCarry(csum);
    }
    assert csum < 0x1_0000;
    r := 0xFFFF - csum % 0x1_0000;
  }

  /** `Notification`: what the XDP program reports to user space for a packet. */
  datatype Notification = Notification(
    localInEndpoint: KEndpoint,
    localOutEndpoint: KEndpoint,
    connection: KConnection,
    event: Event)

  /** `Notification::is_tcp`. */
  function IsTcp(n: Notification): (b: bool)
    ensures b <==> n.event.Packet?
  {
    match n.event
    case Packet(_) => true
    case Udp => false
  }
}
