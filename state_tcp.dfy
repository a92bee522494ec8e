/**
 * The connection tracking of folonet/src/state/tcp.rs: each connection
 * keeps a client and a server endpoint state, runs every packet message
 * through both, leaves TimeWait at once, and reports the connection on its
 * close channel once both endpoints are Closed.
 */
module StateTcp {
  import opened Wrappers
  import opened CommonEvent
  import opened CommonLib
  import opened TcpFsm
  import opened TcpTracking
  import opened StatePacketMsg

  /** The record posted on the close channel: the connection's two endpoints. */
  datatype CloseMsg = CloseMsg(from: KEndpoint, to: KEndpoint)

  /** What one endpoint makes of a message: messages without a packet change nothing. */
  function Observe(r: FsmRecord, e: KEndpoint, msg: PacketMsg): FsmRecord {
    match PacketOf(msg)
    case None => r
    case Some(p) => HandlePacket(r, p, DirectionOf(msg, e))
  }

  /** `TcpFsmState::handle_packet_event`, with the TimeWait expiry taken without waiting. */
  method HandlePacketEvent(st: TcpFsmState, msg: PacketMsg)
    modifies st
    ensures st.Snapshot() == Observe(old(st.Snapshot()), st.e, msg)
    ensures PacketOf(msg).Some? ==> st.fsm != TimeWait
    ensures PacketOf(msg).None? ==> st.Snapshot() == old(st.Snapshot())
  {
    match PacketOf(msg)
    case None =>
    case Some(p) =>
      st.TrackPacket(p, DirectionOf(msg, st.e));
      st.ExpireTimeWait();
  }

  class ConnectionState {
    const client: TcpFsmState
    const server: TcpFsmState
    /** Whether a close channel has been set. */
    var hasCloseSender: bool
    /** Everything posted on the close channel so far. */
    var closeMsgs: seq<CloseMsg>

    constructor (from: KEndpoint, to: KEndpoint, isServerSide: KEndpoint -> bool)
      ensures fresh(client) && fresh(server) && client != server
      ensures client.e == from && client.Snapshot() == InitialRecord(isServerSide(from))
      ensures server.e == to && server.Snapshot() == InitialRecord(isServerSide(to))
      ensures !hasCloseSender && closeMsgs == []
    {
      client := new TcpFsmState(from, isServerSide(from));
      server := new TcpFsmState(to, isServerSide(to));
      hasCloseSender := false;
      closeMsgs := [];
    }

    method SetCloseEventSender()
      modifies this
      ensures hasCloseSender && closeMsgs == old(closeMsgs)
    {
      hasCloseSender := true;
    }

    /**
     * Client first, then server; a close message for (from, to) is posted
     * exactly when a sender is set and both endpoints end up Closed.
     */
    method HandleMessage(msg: PacketMsg)
      requires client != server
      modifies this, client, server
      ensures client.Snapshot() == Observe(old(client.Snapshot()), client.e, msg)
      ensures server.Snapshot() == Observe(old(server.Snapshot()), server.e, msg)
      ensures hasCloseSender == old(hasCloseSender)
      ensures closeMsgs == old(closeMsgs) +
        (if hasCloseSender && client.fsm == Closed && server.fsm == Closed then [CloseMsg(msg.from, msg.to)] else [])
    {
      HandlePacketEvent(client, msg);
      HandlePacketEvent(server, msg);
      if client.IsClosed() && server.IsClosed() {
        if hasCloseSender {
          closeMsgs := closeMsgs + [CloseMsg(msg.from, msg.to)];
        }
      }
    }
  }

  /**
   * A message on the connection, or on its reverse, reaches each endpoint
   * with the direction the connection-level scenarios use.
   */
  lemma ObserveOnConnection(r: FsmRecord, c: KConnection, p: Packet)
    requires c.from != c.to
    ensures Observe(r, c.from, NewPacketMsg(c, Event.Packet(p))) == HandlePacket(r, p, From)
    ensures Observe(r, c.to, NewPacketMsg(c, Event.Packet(p))) == HandlePacket(r, p, To)
    ensures Observe(r, c.from, NewPacketMsg(Reverse(c), Event.Packet(p))) == HandlePacket(r, p, To)
    ensures Observe(r, c.to, NewPacketMsg(Reverse(c), Event.Packet(p))) == HandlePacket(r, p, From)
  {
    DirectionsOnConnection(c, Event.Packet(p));
  }

  /**
   * After the four-way close the last message leaves both endpoints Closed,
   * so a connection with a close channel posts its close message then.
   */
  lemma CloseMessageAfterFourWayClose(c: KConnection, x: bv32, y: bv32, u: bv32, v: bv32)
    requires c.from != c.to
    ensures var client := FsmRecord(FinWait2ReceiveFin, Some(Fin(v)), Some(Fin(u)));
      var server := FsmRecord(LastAck, Some(Fin(u)), Some(Fin(v)));
      var msg := NewPacketMsg(c, Event.Packet(Packet.Packet(ACK_ONLY, v + 1, u + 1)));
      Observe(client, c.from, msg).fsm == Closed && Observe(server, c.to, msg).fsm == Closed
  {
    var p := Packet.Packet(ACK_ONLY, v + 1, u + 1);
    ObserveOnConnection(FsmRecord(FinWait2ReceiveFin, Some(Fin(v)), Some(Fin(u))), c, p);
    ObserveOnConnection(FsmRecord(LastAck, Some(Fin(u)), Some(Fin(v))), c, p);
    LastAckAtClient(u, v);
    LastAckAtServer(u, v);
  }
}
