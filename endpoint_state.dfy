/**
 * `EndpointState` of folonet/src/event.rs: the tracking state of one
 * endpoint, which holds a TCP state machine only for TCP endpoints and
 * hands it every packet notification with the direction it is given.
 */
module EndpointEvents {
  import opened Wrappers
  import opened CommonEvent
  import opened CommonLib
  import opened TcpFsm
  import opened TcpTracking

  /** The TimeWait delay, in seconds. */
  const TIME_WAIT_SECONDS: nat := 60

  class EndpointState {
    const tcp: Option<TcpFsmState>

    /** `EndpointState::new`: TCP state iff `is_tcp`, starting in Listen iff server-side. */
    constructor (e: KEndpoint, isTcp: bool, serverSide: bool)
      ensures tcp.Some? <==> isTcp
      ensures tcp.Some? ==> fresh(tcp.value) && tcp.value.e == e && tcp.value.Snapshot() == InitialRecord(serverSide)
    {
      if isTcp {
        var st := new TcpFsmState(e, serverSide);
        tcp := Some(st);
      } else {
        tcp := None;
      }
    }

    /**
     * `handle_packet_event`: a TCP endpoint tracks the packet and, on
     * reaching TimeWait, waits (`slept` seconds) and consumes TimeExpired; a
     * non-TCP endpoint ignores it.
     */
    method HandlePacketEvent(p: Packet, dir: Direction) returns (slept: nat)
      modifies if tcp.Some? then {tcp.value} else {}
      ensures tcp.Some? ==> tcp.value.Snapshot() == HandlePacket(old(tcp.value.Snapshot()), p, dir)
      ensures tcp.Some? ==> slept == (if Track(old(tcp.value.Snapshot()), p, dir).fsm == TimeWait then TIME_WAIT_SECONDS else 0)
      ensures tcp.None? ==> slept == 0
    {
      slept := 0;
      match tcp
      case None =>
      case Some(st) =>
        st.TrackPacket(p, dir);
        if st.fsm == TimeWait {
          slept := TIME_WAIT_SECONDS;
          st.ExpireTimeWait();
        }
    }

    /** `handle_notification`: the notification's packet, if it carries one, with the given direction. */
    method HandleNotification(n: Notification, dir: Direction) returns (slept: nat)
      modifies if tcp.Some? then {tcp.value} else {}
      ensures tcp.Some? && n.event.Packet? ==>
        tcp.value.Snapshot() == HandlePacket(old(tcp.value.Snapshot()), n.event.packet, dir)
      ensures tcp.Some? && n.event.Udp? ==> tcp.value.Snapshot() == old(tcp.value.Snapshot())
      ensures n.event.Udp? ==> slept == 0
    {
      match n.event
      case Packet(p) => slept := HandlePacketEvent(p, dir);
      case Udp => slept := 0;
    }
  }
}
