/**
 * The XDP program of folonet-ebpf/src/main.rs: for every frame it decides
 * between XDP_ABORTED, XDP_DROP, XDP_PASS and XDP_TX, learns MAC addresses,
 * sets up NAT connections in the CONNECTION table, asks user space to cold
 * start unknown services and marks endpoints whose door bell rings.
 *
 * The frame is abstracted to its length and the header fields the program
 * reads; the BPF maps are Dafny maps, the SERVICE_PORTS queue a sequence and
 * the two ring buffers the sequences of what was submitted to them.
 */
module Xdp {
  import opened Wrappers
  import opened CommonEvent
  import opened CommonLib

  // Header sizes (`EthHdr::LEN`, `Ipv4Hdr::LEN`, `size_of::<TcpHdr>()`, `size_of::<UdpHdr>()`).
  const ETH_HDR_LEN: nat := 14
  const IPV4_HDR_LEN: nat := 20
  const TCP_HDR_LEN: nat := 20
  const UDP_HDR_LEN: nat := 8

  // `max_entries` of the hash maps the program inserts into with a fallible insert.
  const CONNECTION_CAPACITY: nat := 1024
  const IP_MAC_CAPACITY: nat := 1024

  // Destination ports that are worth a cold start.
  const SERVICE_PORT_MIN: bv16 := 8000
  const SERVICE_PORT_MAX: bv16 := 9999

  /** The verdict; `Tx` carries the way the packet was rewritten to. */
  datatype XdpAction = Aborted | Drop | Pass | Tx(way: KConnection)

  /** `xdp_action` codes of the kernel ABI. */
  function ActionCode(a: XdpAction): (code: bv32)
    ensures a.Aborted? <==> code == 0
    ensures a.Drop? <==> code == 1
    ensures a.Pass? <==> code == 2
    ensures a.Tx? <==> code == 3
  {
    match a
    case Aborted => 0
    case Drop => 1
    case Pass => 2
    case Tx(_) => 3
  }

  /** The IP protocol, with the TCP header when there is one. */
  datatype Proto = TcpProto(hdr: TcpHdr) | UdpProto | OtherProto

  /** What the program reads from a frame: `data_end - data` and the header fields. */
  datatype Frame = Frame(
    len: nat,
    ipv4: bool,
    proto: Proto,
    srcIp: bv32, dstIp: bv32,
    srcPort: bv16, dstPort: bv16,
    srcMac: Mac, dstMac: Mac)

  /** `ptr_at`: a header of `size` bytes at `offset` is readable iff it ends inside the frame. */
  function PtrAt(f: Frame, offset: nat, size: nat): (r: Result<nat, ()>)
    ensures r.Ok? <==> offset + size <= f.len
    ensures r.Ok? ==> r.value == offset
  {
    if offset + size > f.len then Err(()) else Ok(offset)
  }

  function L4HdrLen(p: Proto): nat {
    if p.TcpProto? then TCP_HDR_LEN else UDP_HDR_LEN
  }

  /** All three headers the program parses are inside the frame. */
  predicate HeadersInBounds(f: Frame) {
    f.ipv4 && !f.proto.OtherProto? && ETH_HDR_LEN + IPV4_HDR_LEN + L4HdrLen(f.proto) <= f.len
  }

  /** `L4Hdr::is_fin`: only a TCP header with its FIN bit set. */
  predicate IsFin(f: Frame) {
    f.proto.TcpProto? && f.proto.hdr.fin != 0
  }

  /** The connection as the frame declares it (`extract_way`). */
  function DeclareWay(f: Frame): (c: KConnection)
    ensures c.from.Ip() == f.srcIp && c.from.Port() == f.srcPort
    ensures c.to.Ip() == f.dstIp && c.to.Port() == f.dstPort
  {
    KConnection(NewKEndpoint(f.srcIp, f.srcPort), NewKEndpoint(f.dstIp, f.dstPort))
  }

  /**
   * `HashMap::insert` with flags 0: an existing key is overwritten; a new key
   * is refused once the map holds `capacity` entries.
   */
  function MapInsert<K, V>(m: map<K, V>, k: K, v: V, capacity: nat): (r: Option<map<K, V>>)
    ensures r.None? <==> k !in m && |m| >= capacity
    ensures r.Some? ==> r.value == m[k := v]
  {
    if k !in m && |m| >= capacity then None else Some(m[k := v])
  }

  /** A `u32` map key (IPv4 address or interface index). */
  datatype Key32 = Key32(value: bv32)

  /** The contents of all maps, queues and ring buffers the program touches. */
  datatype Tables = Tables(
    connection: map<KConnection, KConnection>,
    serverMap: map<KEndpoint, KEndpoint>,
    ipMac: map<Key32, Mac>,
    servicePorts: seq<bv16>,
    localIp: map<Key32, bv32>,
    doorBell: map<KEndpoint, bv8>,
    performance: map<KEndpoint, bv8>,
    coldStart: seq<KEndpoint>,
    packetEvents: seq<Notification>)

  /** The verdict together with the tables as the program leaves them. */
  datatype Outcome = Outcome(action: XdpAction, tables: Tables)

  /** Records `mac` for `ip` unless `ip` already has one; `false` when the map is full. */
  function LearnMac(ipMac: map<Key32, Mac>, ip: Key32, mac: Mac): (bool, map<Key32, Mac>) {
    if ip in ipMac then (true, ipMac)
    else match MapInsert(ipMac, ip, mac, IP_MAC_CAPACITY)
      case None => (false, ipMac)
      case Some(m) => (true, m)
  }

  /** The MAC learning of `extract_way`: source first, then destination. */
  function LearnMacs(ipMac: map<Key32, Mac>, f: Frame): (bool, map<Key32, Mac>) {
    var (ok, m) := LearnMac(ipMac, Key32(f.srcIp), f.srcMac);
    if !ok then (false, m) else LearnMac(m, Key32(f.dstIp), f.dstMac)
  }

  /** The endpoint whose performance is marked: `declare.to` first, `output.from` only without an entry for it. */
  function DoorBellTarget(doorBell: map<KEndpoint, bv8>, declareTo: KEndpoint, outputFrom: KEndpoint): Option<KEndpoint> {
    if declareTo in doorBell then
      (if doorBell[declareTo] == 1 then Some(declareTo) else None)
    else if outputFrom in doorBell then
      (if doorBell[outputFrom] == 1 then Some(outputFrom) else None)
    else None
  }

  /** The notification for a FIN packet. */
  function FinNotification(f: Frame, declare: KConnection, output: KConnection): Notification
    requires f.proto.TcpProto?
  {
    Notification(declare.to, output.from, KConnection(declare.from, output.to), Event.Packet(NewPacket(f.proto.hdr)))
  }

  /** Lines 328-403: forward along the stored output way. */
  function Forward(t: Tables, f: Frame, declare: KConnection): Outcome {
    if declare !in t.connection then Outcome(Pass, t)
    else
      var output := t.connection[declare];
      var events := if IsFin(f) then t.packetEvents + [FinNotification(f, declare, output)] else t.packetEvents;
      var perf := match DoorBellTarget(t.doorBell, declare.to, output.from)
        case None => t.performance
        case Some(e) => t.performance[e := 1];
      Outcome(Tx(output), t.(packetEvents := events, performance := perf))
  }

  /** Lines 257-326: a flow without a CONNECTION entry. */
  function NewFlow(t: Tables, f: Frame, declare: KConnection, ifidx: bv32): Outcome {
    if declare.to !in t.serverMap then
      var port := declare.to.Port();
      if port < SERVICE_PORT_MIN || port > SERVICE_PORT_MAX then Outcome(Pass, t)
      else Outcome(Drop, t.(coldStart := t.coldStart + [declare.to]))
    else if |t.servicePorts| == 0 then Outcome(Drop, t)
    else
      var t1 := t.(servicePorts := t.servicePorts[1..]);
      if Key32(ifidx) !in t.localIp then Outcome(Drop, t1)
      else
        var out := KConnection(NewKEndpoint(t.localIp[Key32(ifidx)], t.servicePorts[0]), t.serverMap[declare.to]);
        Connect(t1, f, declare, out)
  }

  /** Lines 313-324: insert the way out and its return way, then forward; a refused insert aborts. */
  function Connect(t: Tables, f: Frame, declare: KConnection, out: KConnection): Outcome {
    match MapInsert(t.connection, declare, out, CONNECTION_CAPACITY)
    case None => Outcome(Aborted, t)
    case Some(c1) =>
      match MapInsert(c1, Reverse(out), Reverse(declare), CONNECTION_CAPACITY)
      case None => Outcome(Aborted, t.(connection := c1))
      case Some(c2) => Forward(t.(connection := c2), f, declare)
  }

  /** `try_xdp_firewall` (and `folonet`, which turns an error into XDP_ABORTED). */
  function Step(t: Tables, f: Frame, ifidx: bv32): Outcome {
    if PtrAt(f, 0, ETH_HDR_LEN).Err? then Outcome(Aborted, t)
    else if !f.ipv4 then Outcome(Pass, t)
    else if PtrAt(f, ETH_HDR_LEN, IPV4_HDR_LEN).Err? then Outcome(Aborted, t)
    else if f.proto.OtherProto? then Outcome(Pass, t)
    else if PtrAt(f, ETH_HDR_LEN + IPV4_HDR_LEN, L4HdrLen(f.proto)).Err? then Outcome(Aborted, t)
    else
      var (learned, ipMac) := LearnMacs(t.ipMac, f);
      var t1 := t.(ipMac := ipMac);
      if !learned then Outcome(Aborted, t1)
      else
        var declare := DeclareWay(f);
        if declare !in t1.connection then NewFlow(t1, f, declare, ifidx)
        else Forward(t1, f, declare)
  }

  /** The tables after `extract_way`'s MAC learning, whatever comes next. */
  function Learned(t: Tables, f: Frame): Tables {
    t.(ipMac := LearnMacs(t.ipMac, f).1)
  }

  /**
   * A frame whose headers do not all fit, or that is not IPv4 TCP/UDP, changes
   * no map: non-IPv4 and other protocols pass, a short frame aborts.
   */
  lemma UnparsedFramesChangeNothing(t: Tables, f: Frame, ifidx: bv32)
    requires !HeadersInBounds(f)
    ensures Step(t, f, ifidx).tables == t
    ensures Step(t, f, ifidx).action.Pass? <==>
              (ETH_HDR_LEN <= f.len && !f.ipv4) ||
              (f.ipv4 && ETH_HDR_LEN + IPV4_HDR_LEN <= f.len && f.proto.OtherProto?)
    ensures !Step(t, f, ifidx).action.Pass? ==> Step(t, f, ifidx).action.Aborted?
  {
  }

  /** A dropped or forwarded frame had all its headers inside the frame. */
  lemma DropOrTxNeedsHeaders(t: Tables, f: Frame, ifidx: bv32)
    requires Step(t, f, ifidx).action.Drop? || Step(t, f, ifidx).action.Tx?
    ensures HeadersInBounds(f)
  {
    if !HeadersInBounds(f) {
      UnparsedFramesChangeNothing(t, f, ifidx);
    }
  }

  /** What `LearnMac` does to IP_MAC_MAP. */
  lemma LearnMacProperties(ipMac: map<Key32, Mac>, ip: Key32, mac: Mac)
    ensures var m := LearnMac(ipMac, ip, mac).1;
      && (forall a :: a in ipMac ==> a in m && m[a] == ipMac[a])
      && m.Keys <= ipMac.Keys + {ip}
      && (LearnMac(ipMac, ip, mac).0 <==> ip in m)
      && (ip !in ipMac && ip in m ==> m[ip] == mac)
  {
  }

  /** What `LearnMacs` does to IP_MAC_MAP. */
  lemma LearnMacsProperties(ipMac: map<Key32, Mac>, f: Frame)
    ensures var m := LearnMacs(ipMac, f).1;
      && (forall ip :: ip in ipMac ==> ip in m && m[ip] == ipMac[ip])
      && m.Keys <= ipMac.Keys + {Key32(f.srcIp), Key32(f.dstIp)}
      && (LearnMacs(ipMac, f).0 <==> Key32(f.srcIp) in m && Key32(f.dstIp) in m)
      && (Key32(f.srcIp) !in ipMac && Key32(f.srcIp) in m ==> m[Key32(f.srcIp)] == f.srcMac)
      && (Key32(f.dstIp) !in ipMac && f.dstIp != f.srcIp && Key32(f.dstIp) in m ==> m[Key32(f.dstIp)] == f.dstMac)
  {
    var first := LearnMac(ipMac, Key32(f.srcIp), f.srcMac);
    LearnMacProperties(ipMac, Key32(f.srcIp), f.srcMac);
    if first.0 {
      LearnMacProperties(first.1, Key32(f.dstIp), f.dstMac);
      assert LearnMacs(ipMac, f) == LearnMac(first.1, Key32(f.dstIp), f.dstMac);
    } else {
      assert LearnMacs(ipMac, f) == (false, first.1);
    }
  }

  /** Forwarding reports and marks, and changes nothing else. */
  lemma ForwardProperties(t: Tables, f: Frame, declare: KConnection)
    ensures var r := Forward(t, f, declare);
      && r.tables == t.(packetEvents := r.tables.packetEvents, performance := r.tables.performance)
      && (r.action.Tx? <==> declare in t.connection)
      && (!r.action.Tx? ==> r.action.Pass? && r.tables == t)
  {
  }

  /** `Forward` rewrites to the stored way. */
  lemma ForwardWay(t: Tables, f: Frame, declare: KConnection)
    requires declare in t.connection
    ensures Forward(t, f, declare).action == Tx(t.connection[declare])
  {
  }

  /** `Forward` reports a FIN, and only a FIN. */
  lemma ForwardReports(t: Tables, f: Frame, declare: KConnection)
    requires declare in t.connection
    ensures var r := Forward(t, f, declare);
      var output := t.connection[declare];
      r.tables.packetEvents == if IsFin(f) then t.packetEvents + [FinNotification(f, declare, output)] else t.packetEvents
  {
  }

  /** `Forward` marks the door-bell target. */
  lemma ForwardMarks(t: Tables, f: Frame, declare: KConnection)
    requires declare in t.connection
    ensures var r := Forward(t, f, declare);
      var output := t.connection[declare];
      r.tables.performance ==
        match DoorBellTarget(t.doorBell, declare.to, output.from)
        case None => t.performance
        case Some(e) => t.performance[e := 1]
  {
  }

  /**
   * Connecting only adds connections; it forwards exactly when both inserts
   * succeed, and then as `Forward` on the grown table, otherwise reporting and
   * marking nothing.
   */
  lemma ConnectProperties(t: Tables, f: Frame, declare: KConnection, out: KConnection)
    ensures var r := Connect(t, f, declare, out);
      && r.tables == t.(connection := r.tables.connection, packetEvents := r.tables.packetEvents, performance := r.tables.performance)
      && t.connection.Keys <= r.tables.connection.Keys
    ensures var r := Connect(t, f, declare, out);
      r.action.Tx? <==> MapInsert(t.connection, declare, out, CONNECTION_CAPACITY).Some? &&
                         MapInsert(t.connection[declare := out], Reverse(out), Reverse(declare), CONNECTION_CAPACITY).Some?
    ensures var r := Connect(t, f, declare, out);
      r.action.Tx? ==> declare in r.tables.connection && r == Forward(t.(connection := r.tables.connection), f, declare)
    ensures var r := Connect(t, f, declare, out);
      !r.action.Tx? ==> r.tables.packetEvents == t.packetEvents && r.tables.performance == t.performance
  {
    match MapInsert(t.connection, declare, out, CONNECTION_CAPACITY)
    case None =>
    case Some(c1) =>
      match MapInsert(c1, Reverse(out), Reverse(declare), CONNECTION_CAPACITY)
      case None =>
      case Some(c2) =>
        assert declare in c2;
        ForwardProperties(t.(connection := c2), f, declare);
  }

  /** A new flow leaves IP_MAC_MAP and the configuration maps alone and removes no connection. */
  lemma NewFlowFrame(t: Tables, f: Frame, declare: KConnection, ifidx: bv32)
    ensures var r := NewFlow(t, f, declare, ifidx);
      && r.tables.ipMac == t.ipMac
      && r.tables.serverMap == t.serverMap && r.tables.localIp == t.localIp && r.tables.doorBell == t.doorBell
      && t.connection.Keys <= r.tables.connection.Keys
  {
    if declare.to !in t.serverMap {
      var port := declare.to.Port();
      if port < SERVICE_PORT_MIN || port > SERVICE_PORT_MAX {
        assert NewFlow(t, f, declare, ifidx) == Outcome(Pass, t);
      } else {
        assert NewFlow(t, f, declare, ifidx) == Outcome(Drop, t.(coldStart := t.coldStart + [declare.to]));
      }
    } else if |t.servicePorts| == 0 {
    } else if Key32(ifidx) !in t.localIp {
    } else {
      var out := KConnection(NewKEndpoint(t.localIp[Key32(ifidx)], t.servicePorts[0]), t.serverMap[declare.to]);
      var t1 := t.(servicePorts := t.servicePorts[1..]);
      assert NewFlow(t, f, declare, ifidx) == Connect(t1, f, declare, out);
      ConnectProperties(t1, f, declare, out);
    }
  }

  /**
   * A new flow that is forwarded is forwarded on the tables as its set-up
   * left them; one that is not reports and marks nothing.
   */
  lemma NewFlowForwards(t: Tables, f: Frame, declare: KConnection, ifidx: bv32)
    ensures var r := NewFlow(t, f, declare, ifidx);
      r.action.Tx? ==>
        && declare in r.tables.connection
        && r == Forward(t.(connection := r.tables.connection, servicePorts := r.tables.servicePorts), f, declare)
    ensures var r := NewFlow(t, f, declare, ifidx);
      !r.action.Tx? ==> r.tables.packetEvents == t.packetEvents && r.tables.performance == t.performance
  {
    if declare.to !in t.serverMap {
      var port := declare.to.Port();
      if port < SERVICE_PORT_MIN || port > SERVICE_PORT_MAX {
        assert NewFlow(t, f, declare, ifidx) == Outcome(Pass, t);
      } else {
        assert NewFlow(t, f, declare, ifidx) == Outcome(Drop, t.(coldStart := t.coldStart + [declare.to]));
      }
    } else if |t.servicePorts| == 0 {
    } else if Key32(ifidx) !in t.localIp {
    } else {
      var out := KConnection(NewKEndpoint(t.localIp[Key32(ifidx)], t.servicePorts[0]), t.serverMap[declare.to]);
      var t1 := t.(servicePorts := t.servicePorts[1..]);
      assert NewFlow(t, f, declare, ifidx) == Connect(t1, f, declare, out);
      ConnectProperties(t1, f, declare, out);
    }
  }

  /** `Step` once the headers are parsed: learn MACs, then a known or a new flow. */
  lemma StepParsed(t: Tables, f: Frame, ifidx: bv32)
    requires HeadersInBounds(f)
    ensures Step(t, f, ifidx) ==
      if !LearnMacs(t.ipMac, f).0 then Outcome(Aborted, Learned(t, f))
      else if DeclareWay(f) !in t.connection then NewFlow(Learned(t, f), f, DeclareWay(f), ifidx)
      else Forward(Learned(t, f), f, DeclareWay(f))
  {
  }

  /**
   * IP_MAC_MAP learns the source and destination MAC only for addresses it
   * does not know yet; an existing entry is never overwritten, and a frame
   * that gets past the learning step leaves both addresses known.
   */
  lemma MacLearning(t: Tables, f: Frame, ifidx: bv32)
    ensures var m := Step(t, f, ifidx).tables.ipMac;
      && (forall ip :: ip in t.ipMac ==> ip in m && m[ip] == t.ipMac[ip])
      && m.Keys <= t.ipMac.Keys + {Key32(f.srcIp), Key32(f.dstIp)}
      && (Key32(f.srcIp) !in t.ipMac && Key32(f.srcIp) in m ==> m[Key32(f.srcIp)] == f.srcMac)
      && (Key32(f.dstIp) !in t.ipMac && f.dstIp != f.srcIp && Key32(f.dstIp) in m ==> m[Key32(f.dstIp)] == f.dstMac)
    ensures Step(t, f, ifidx).action.Drop? || Step(t, f, ifidx).action.Tx? ==>
              Key32(f.srcIp) in Step(t, f, ifidx).tables.ipMac && Key32(f.dstIp) in Step(t, f, ifidx).tables.ipMac
  {
    LearnMacsProperties(t.ipMac, f);
    if HeadersInBounds(f) {
      StepParsed(t, f, ifidx);
      var t1 := Learned(t, f);
      if LearnMacs(t.ipMac, f).0 {
        if DeclareWay(f) !in t1.connection {
          NewFlowFrame(t1, f, DeclareWay(f), ifidx);
          NewFlowForwards(t1, f, DeclareWay(f), ifidx);
        } else {
          ForwardProperties(t1, f, DeclareWay(f));
        }
      }
    } else {
      UnparsedFramesChangeNothing(t, f, ifidx);
    }
  }

  /** SERVER_MAP, LOCAL_IP_MAP and DOOR_BELL_MAP are only read. */
  lemma ConfigurationIsReadOnly(t: Tables, f: Frame, ifidx: bv32)
    ensures var r := Step(t, f, ifidx).tables;
      r.serverMap == t.serverMap && r.localIp == t.localIp && r.doorBell == t.doorBell
  {
    if HeadersInBounds(f) {
      StepParsed(t, f, ifidx);
      var t1 := Learned(t, f);
      if LearnMacs(t.ipMac, f).0 {
        if DeclareWay(f) !in t1.connection {
          NewFlowFrame(t1, f, DeclareWay(f), ifidx);
          NewFlowForwards(t1, f, DeclareWay(f), ifidx);
        } else {
          ForwardProperties(t1, f, DeclareWay(f));
        }
      }
    } else {
      UnparsedFramesChangeNothing(t, f, ifidx);
    }
  }

  /**
   * A new flow to an unknown service outside ports 8000..9999 passes and
   * changes nothing beyond MAC learning; inside that range its destination is
   * queued for a cold start and the frame is dropped.
   */
  lemma UnknownServiceColdStart(t: Tables, f: Frame, ifidx: bv32)
    requires HeadersInBounds(f) && LearnMacs(t.ipMac, f).0
    requires DeclareWay(f) !in t.connection && DeclareWay(f).to !in t.serverMap
    ensures f.dstPort < SERVICE_PORT_MIN || f.dstPort > SERVICE_PORT_MAX ==>
              Step(t, f, ifidx) == Outcome(Pass, Learned(t, f))
    ensures SERVICE_PORT_MIN <= f.dstPort <= SERVICE_PORT_MAX ==>
              Step(t, f, ifidx) == Outcome(Drop, Learned(t, f).(coldStart := t.coldStart + [NewKEndpoint(f.dstIp, f.dstPort)]))
  {
    StepParsed(t, f, ifidx);
  }

  /**
   * A new flow to a known service is dropped when no service port is left, and
   * also when the interface has no local address, in which case the port it
   * popped is lost.
   */
  lemma NewFlowWithoutResources(t: Tables, f: Frame, ifidx: bv32)
    requires HeadersInBounds(f) && LearnMacs(t.ipMac, f).0
    requires DeclareWay(f) !in t.connection && DeclareWay(f).to in t.serverMap
    ensures |t.servicePorts| == 0 ==> Step(t, f, ifidx) == Outcome(Drop, Learned(t, f))
    ensures |t.servicePorts| > 0 && Key32(ifidx) !in t.localIp ==>
              Step(t, f, ifidx) == Outcome(Drop, Learned(t, f).(servicePorts := t.servicePorts[1..]))
  {
    StepParsed(t, f, ifidx);
  }

  /**
   * A new flow to a known service takes the next service port, maps the
   * declared way to `localIP:port -> server` and the reverse of that to the
   * reverse of the declared way, and is forwarded.
   */
  lemma NewFlowInsertsBothWays(t: Tables, f: Frame, ifidx: bv32)
    requires HeadersInBounds(f) && LearnMacs(t.ipMac, f).0
    requires DeclareWay(f) !in t.connection && DeclareWay(f).to in t.serverMap
    requires |t.servicePorts| > 0 && Key32(ifidx) in t.localIp
    requires |t.connection| + 2 <= CONNECTION_CAPACITY
    ensures var declare := DeclareWay(f);
      var out := KConnection(NewKEndpoint(t.localIp[Key32(ifidx)], t.servicePorts[0]), t.serverMap[declare.to]);
      var r := Step(t, f, ifidx);
      && r.tables.connection == t.connection[declare := out][Reverse(out) := Reverse(declare)]
      && r.tables.servicePorts == t.servicePorts[1..]
      && r.tables.coldStart == t.coldStart
      && r.action.Tx?
      && (Reverse(out) != declare ==> r.action.way == out)
  {
    var declare := DeclareWay(f);
    var out := KConnection(NewKEndpoint(t.localIp[Key32(ifidx)], t.servicePorts[0]), t.serverMap[declare.to]);
    var t1 := Learned(t, f);
    StepParsed(t, f, ifidx);
    var c1 := t.connection[declare := out];
    assert |c1| <= |t.connection| + 1;
    var c2 := c1[Reverse(out) := Reverse(declare)];
    assert NewFlow(t1, f, declare, ifidx) == Forward(t1.(servicePorts := t.servicePorts[1..], connection := c2), f, declare);
    ForwardProperties(t1.(servicePorts := t.servicePorts[1..], connection := c2), f, declare);
  }

  /**
   * A full CONNECTION table aborts a new flow after its service port was
   * popped; the port is not returned.
   */
  lemma FullConnectionTableAborts(t: Tables, f: Frame, ifidx: bv32)
    requires HeadersInBounds(f) && LearnMacs(t.ipMac, f).0
    requires DeclareWay(f) !in t.connection && DeclareWay(f).to in t.serverMap
    requires |t.servicePorts| > 0 && Key32(ifidx) in t.localIp
    requires |t.connection| >= CONNECTION_CAPACITY
    ensures Step(t, f, ifidx) == Outcome(Aborted, Learned(t, f).(servicePorts := t.servicePorts[1..]))
  {
    StepParsed(t, f, ifidx);
  }

  /** A flow the table already knows inserts nothing and is forwarded along its stored way. */
  lemma ExistingFlowInsertsNothing(t: Tables, f: Frame, ifidx: bv32)
    requires HeadersInBounds(f) && LearnMacs(t.ipMac, f).0
    requires DeclareWay(f) in t.connection
    ensures var r := Step(t, f, ifidx);
      && r.action == Tx(t.connection[DeclareWay(f)])
      && r.tables.connection == t.connection
      && r.tables.servicePorts == t.servicePorts
      && r.tables.coldStart == t.coldStart
  {
    StepParsed(t, f, ifidx);
    ForwardProperties(Learned(t, f), f, DeclareWay(f));
    ForwardWay(Learned(t, f), f, DeclareWay(f));
  }

  /**
   * `Step` ends in one of three ways: nothing forwarded and nothing reported
   * or marked, or `Forward` on the tables before reporting and marking.
   */
  lemma StepTx(t: Tables, f: Frame, ifidx: bv32)
    ensures var r := Step(t, f, ifidx);
      !r.action.Tx? ==> r.tables.packetEvents == t.packetEvents && r.tables.performance == t.performance
    ensures var r := Step(t, f, ifidx);
      r.action.Tx? ==>
        && HeadersInBounds(f)
        && t.connection.Keys <= r.tables.connection.Keys
        && DeclareWay(f) in r.tables.connection
        && r == Forward(t.(ipMac := r.tables.ipMac, connection := r.tables.connection, servicePorts := r.tables.servicePorts), f, DeclareWay(f))
    ensures t.connection.Keys <= Step(t, f, ifidx).tables.connection.Keys
  {
    if HeadersInBounds(f) {
      StepParsed(t, f, ifidx);
      var t1 := Learned(t, f);
      if LearnMacs(t.ipMac, f).0 {
        if DeclareWay(f) !in t1.connection {
          NewFlowFrame(t1, f, DeclareWay(f), ifidx);
          NewFlowForwards(t1, f, DeclareWay(f), ifidx);
        } else {
          ForwardProperties(t1, f, DeclareWay(f));
        }
      }
    } else {
      UnparsedFramesChangeNothing(t, f, ifidx);
    }
  }

  /**
   * Every forwarded frame is rewritten to the output way the table holds for
   * its declared way after the step; connections are never removed.
   */
  lemma TxFollowsConnectionTable(t: Tables, f: Frame, ifidx: bv32)
    ensures t.connection.Keys <= Step(t, f, ifidx).tables.connection.Keys
    ensures Step(t, f, ifidx).action.Tx? ==>
              && DeclareWay(f) in Step(t, f, ifidx).tables.connection
              && Step(t, f, ifidx).action.way == Step(t, f, ifidx).tables.connection[DeclareWay(f)]
  {
    StepTx(t, f, ifidx);
    var r := Step(t, f, ifidx);
    if r.action.Tx? {
      ForwardWay(t.(ipMac := r.tables.ipMac, connection := r.tables.connection, servicePorts := r.tables.servicePorts), f, DeclareWay(f));
    }
  }

  /**
   * A forwarded TCP FIN is reported to user space with the local endpoints
   * and the client-to-server connection; nothing else is reported.
   */
  lemma FinIsReported(t: Tables, f: Frame, ifidx: bv32)
    ensures var r := Step(t, f, ifidx);
      r.action.Tx? && IsFin(f) ==>
        && |r.tables.packetEvents| == |t.packetEvents| + 1
        && r.tables.packetEvents[..|t.packetEvents|] == t.packetEvents
        && r.tables.packetEvents[|t.packetEvents|].localInEndpoint == DeclareWay(f).to
        && r.tables.packetEvents[|t.packetEvents|].localOutEndpoint == r.action.way.from
        && r.tables.packetEvents[|t.packetEvents|].connection == KConnection(DeclareWay(f).from, r.action.way.to)
        && IsTcp(r.tables.packetEvents[|t.packetEvents|])
        && r.tables.packetEvents[|t.packetEvents|].event.packet.IsFin()
    ensures var r := Step(t, f, ifidx);
      !(r.action.Tx? && IsFin(f)) ==> r.tables.packetEvents == t.packetEvents
  {
    StepTx(t, f, ifidx);
    var r := Step(t, f, ifidx);
    if r.action.Tx? {
      var t0 := t.(ipMac := r.tables.ipMac, connection := r.tables.connection, servicePorts := r.tables.servicePorts);
      ForwardWay(t0, f, DeclareWay(f));
      ForwardReports(t0, f, DeclareWay(f));
    }
  }

  /**
   * PERFORMANCE_MAP is marked with 1 for `declare.to` when its door bell is 1;
   * `output.from` is consulted only when `declare.to` has no door bell at all.
   */
  lemma DoorBellMarking(t: Tables, f: Frame, ifidx: bv32)
    ensures var r := Step(t, f, ifidx);
      !r.action.Tx? ==> r.tables.performance == t.performance
    ensures var r := Step(t, f, ifidx);
      var to := DeclareWay(f).to;
      r.action.Tx? && to in t.doorBell ==>
        r.tables.performance == if t.doorBell[to] == 1 then t.performance[to := 1] else t.performance
    ensures var r := Step(t, f, ifidx);
      var to := DeclareWay(f).to;
      r.action.Tx? && to !in t.doorBell ==>
        r.tables.performance ==
          if r.action.way.from in t.doorBell && t.doorBell[r.action.way.from] == 1
          then t.performance[r.action.way.from := 1] else t.performance
  {
    StepTx(t, f, ifidx);
    var r := Step(t, f, ifidx);
    if r.action.Tx? {
      var t0 := t.(ipMac := r.tables.ipMac, connection := r.tables.connection, servicePorts := r.tables.servicePorts);
      ForwardWay(t0, f, DeclareWay(f));
      ForwardMarks(t0, f, DeclareWay(f));
    }
  }

  /** The program's global maps, updated in place by every invocation. */
  class XdpProgram {
    var connection: map<KConnection, KConnection>
    var serverMap: map<KEndpoint, KEndpoint>
    var ipMac: map<Key32, Mac>
    var servicePorts: seq<bv16>
    var localIp: map<Key32, bv32>
    var doorBell: map<KEndpoint, bv8>
    var performance: map<KEndpoint, bv8>
    var coldStart: seq<KEndpoint>
    var packetEvents: seq<Notification>

    function Snapshot(): Tables
      reads this
    {
      Tables(connection, serverMap, ipMac, servicePorts, localIp, doorBell, performance, coldStart, packetEvents)
    }

    /** Maps as the loader creates them: all empty. */
    constructor()
      ensures Snapshot() == Tables(map[], map[], map[], [], map[], map[], map[], [], [])
    {
      connection := map[];
      serverMap := map[];
      ipMac := map[];
      servicePorts := [];
      localIp := map[];
      doorBell := map[];
      performance := map[];
      coldStart := [];
      packetEvents := [];
    }

    /** `extract_way`'s MAC learning; `ok` is false when IP_MAC_MAP refused an entry. */
    method RecordMacs(f: Frame) returns (ok: bool)
      modifies this
      ensures (ok, ipMac) == LearnMacs(old(ipMac), f)
      ensures Snapshot() == old(Snapshot()).(ipMac := ipMac)
    {
      if Key32(f.srcIp) !in ipMac {
        if |ipMac| >= IP_MAC_CAPACITY {
          return false;
        }
        ipMac := ipMac[Key32(f.srcIp) := f.srcMac];
      }
      if Key32(f.dstIp) !in ipMac {
        if |ipMac| >= IP_MAC_CAPACITY {
          return false;
        }
        ipMac := ipMac[Key32(f.dstIp) := f.dstMac];
      }
      return true;
    }

    /** Lines 328-403 on the maps. */
    method ForwardPacket(f: Frame, declare: KConnection) returns (action: XdpAction)
      modifies this
      ensures Outcome(action, Snapshot()) == Forward(old(Snapshot()), f, declare)
    {
      if declare !in connection {
        return Pass;
      }
      var output := connection[declare];
      if IsFin(f) {
        packetEvents := packetEvents + [FinNotification(f, declare, output)];
      }
      var target: Option<KEndpoint> := None;
      if declare.to in doorBell {
        if doorBell[declare.to] == 1 {
          target := Some(declare.to);
        }
      } else if output.from in doorBell {
        if doorBell[output.from] == 1 {
          target := Some(output.from);
        }
      }
      if target.Some? {
        performance := performance[target.value := 1];
      }
      return Tx(output);
    }

    /** Lines 257-326 on the maps. */
    method SetUpFlow(f: Frame, declare: KConnection, ifidx: bv32) returns (action: XdpAction)
      modifies this
      ensures Outcome(action, Snapshot()) == NewFlow(old(Snapshot()), f, declare, ifidx)
    {
      if declare.to !in serverMap {
        var port := declare.to.Port();
        if port < SERVICE_PORT_MIN || port > SERVICE_PORT_MAX {
          return Pass;
        }
        coldStart := coldStart + [declare.to];
        return Drop;
      }
      var to := serverMap[declare.to];
      if |servicePorts| == 0 {
        return Drop;
      }
      var fromPort := servicePorts[0];
      servicePorts := servicePorts[1..];
      if Key32(ifidx) !in localIp {
        return Drop;
      }
      var out := KConnection(NewKEndpoint(localIp[Key32(ifidx)], fromPort), to);
      action := ConnectFlow(f, declare, out);
    }

    /** The two CONNECTION inserts of a new flow, then forwarding. */
    method ConnectFlow(f: Frame, declare: KConnection, out: KConnection) returns (action: XdpAction)
      modifies this
      ensures Outcome(action, Snapshot()) == Connect(old(Snapshot()), f, declare, out)
    {
      if declare !in connection && |connection| >= CONNECTION_CAPACITY {
        return Aborted;
      }
      connection := connection[declare := out];
      if Reverse(out) !in connection && |connection| >= CONNECTION_CAPACITY {
        return Aborted;
      }
      connection := connection[Reverse(out) := Reverse(declare)];
      action := ForwardPacket(f, declare);
    }

    /** `folonet`: one invocation of the XDP program on frame `f` from interface `ifidx`. */
    method Folonet(f: Frame, ifidx: bv32) returns (action: XdpAction)
      modifies this
      ensures Outcome(action, Snapshot()) == Step(old(Snapshot()), f, ifidx)
    {
      if PtrAt(f, 0, ETH_HDR_LEN).Err? {
        return Aborted;
      }
      if !f.ipv4 {
        return Pass;
      }
      if PtrAt(f, ETH_HDR_LEN, IPV4_HDR_LEN).Err? {
        return Aborted;
      }
      if f.proto.OtherProto? {
        return Pass;
      }
      if PtrAt(f, ETH_HDR_LEN + IPV4_HDR_LEN, L4HdrLen(f.proto)).Err? {
        return Aborted;
      }
      var ok := RecordMacs(f);
      if !ok {
        return Aborted;
      }
      var declare := DeclareWay(f);
      if declare !in connection {
        action := SetUpFlow(f, declare, ifidx);
      } else {
        action := ForwardPacket(f, declare);
      }
    }
  }
}
