/**
 * `ConnectionStateManager` of folonet/src/state/mod.rs: a TCP or a UDP
 * manager, chosen at creation, to which every packet message is handed.
 */
module StateManager {
  import opened CommonLib
  import opened TcpTracking
  import opened StatePacketMsg
  import opened StateTcpFsm

  /** The UDP manager (folonet/src/state/udp.rs) is not part of this model: it holds nothing here. */
  datatype ConnectionStateManager = Tcp(tcp: TcpStateManager) | Udp

  /** `ConnectionStateManager::new`: the TCP variant with an empty map when `is_tcp`, the UDP one otherwise. */
  method NewConnectionStateManager(isTcp: bool) returns (m: ConnectionStateManager)
    ensures m.Tcp? <==> isTcp
    ensures m.Tcp? ==> fresh(m.tcp) && m.tcp.Valid() && m.tcp.stateMap == map[]
  {
    if isTcp {
      var tcp := new TcpStateManager();
      m := Tcp(tcp);
    } else {
      m := Udp;
    }
  }

  /** `handle_packet_msg`: the message goes to the held variant only. */
  method HandlePacketMsg(m: ConnectionStateManager, msg: PacketMsg, isServerSide: KEndpoint -> bool)
    returns (slept: nat)
    requires m.Tcp? ==> m.tcp.Valid()
    modifies if m.Tcp? then {m.tcp as object} + m.tcp.Fsms() else {}
    ensures m.Tcp? ==> m.tcp.Valid() && m.tcp.stateMap.Keys == old(m.tcp.stateMap.Keys) + {ConnectionOf(msg)}
    ensures m.Tcp? ==> forall c :: c in old(m.tcp.stateMap) && c != ConnectionOf(msg) ==>
      m.tcp.Records()[c] == old(m.tcp.Records())[c]
    ensures m.Tcp? ==>
      var c := ConnectionOf(msg);
      var before := if c in old(m.tcp.stateMap) then old(m.tcp.Records())[c]
                    else ConnRecord(InitialRecord(isServerSide(msg.from)), InitialRecord(isServerSide(msg.to)));
      m.tcp.Records()[c] == ConnectionObserve(before, m.tcp.stateMap[c].client.e, m.tcp.stateMap[c].server.e, msg)
    ensures m.Tcp? && ConnectionOf(msg) !in old(m.tcp.stateMap) ==>
      m.tcp.stateMap[ConnectionOf(msg)].client.e == msg.from && m.tcp.stateMap[ConnectionOf(msg)].server.e == msg.to
    ensures m.Udp? ==> slept == 0
  {
    match m
    case Tcp(tcp) => slept := tcp.HandlePacketMsg(msg, isServerSide);
    case Udp => slept := 0;
  }
}
