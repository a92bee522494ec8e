/**
 * The connection tracking of folonet/src/state/tcp_fsm.rs: a manager keeps
 * one connection state per connection, created on the first message for
 * it; only TCP packet events drive the client and server endpoint states,
 * and an endpoint that reaches TimeWait waits 60 seconds before it
 * consumes TimeExpired.
 */
module StateTcpFsm {
  import opened Wrappers
  import opened CommonEvent
  import opened CommonLib
  import opened TcpFsm
  import opened TcpTracking
  import opened StatePacketMsg

  /** The TimeWait delay, in seconds. */
  const TIME_WAIT_SECONDS: nat := 60

  /** What one endpoint makes of a message: only TCP packet events count. */
  function Observe(r: FsmRecord, e: KEndpoint, msg: PacketMsg): FsmRecord {
    match msg.event
    case Packet(p) => HandlePacket(r, p, DirectionOf(msg, e))
    case Udp => r
  }

  /**
   * `TcpFsmState::handle_packet_event`. The sleep is not modelled as time:
   * `slept` is how long the call waits before consuming TimeExpired.
   */
  method HandlePacketEvent(st: TcpFsmState, msg: PacketMsg) returns (slept: nat)
    modifies st
    ensures st.Snapshot() == Observe(old(st.Snapshot()), st.e, msg)
    ensures slept == (if msg.event.Packet? && Track(old(st.Snapshot()), msg.event.packet, DirectionOf(msg, st.e)).fsm == TimeWait
                      then TIME_WAIT_SECONDS else 0)
    ensures msg.event.Udp? ==> st.Snapshot() == old(st.Snapshot())
  {
    slept := 0;
    match msg.event
    case Udp =>
    case Packet(p) =>
      st.TrackPacket(p, DirectionOf(msg, st.e));
      if st.fsm == TimeWait {
        slept := TIME_WAIT_SECONDS;
        st.ExpireTimeWait();
      }
  }

  class ConnectionState {
    const client: TcpFsmState
    const server: TcpFsmState

    constructor (from: KEndpoint, to: KEndpoint, isServerSide: KEndpoint -> bool)
      ensures fresh(client) && fresh(server) && client != server
      ensures client.e == from && client.Snapshot() == InitialRecord(isServerSide(from))
      ensures server.e == to && server.Snapshot() == InitialRecord(isServerSide(to))
    {
      client := new TcpFsmState(from, isServerSide(from));
      server := new TcpFsmState(to, isServerSide(to));
    }

    /** The pair of endpoint records. */
    function Records(): ConnRecord
      reads client, server
    {
      ConnRecord(client.Snapshot(), server.Snapshot())
    }

    /** Client first, then server; events other than TCP packets change nothing. */
    method HandleMessage(msg: PacketMsg) returns (slept: nat)
      requires client != server
      modifies client, server
      ensures Records() == ConnRecord(Observe(old(client.Snapshot()), client.e, msg),
                                      Observe(old(server.Snapshot()), server.e, msg))
    {
      slept := 0;
      match msg.event
      case Packet(_) =>
        var s1 := HandlePacketEvent(client, msg);
        var s2 := HandlePacketEvent(server, msg);
        slept := s1 + s2;
      case Udp =>
    }
  }

  /** One message applied to a connection's pair of endpoint records. */
  function ConnectionObserve(c: ConnRecord, clientE: KEndpoint, serverE: KEndpoint, msg: PacketMsg): ConnRecord {
    ConnRecord(Observe(c.client, clientE, msg), Observe(c.server, serverE, msg))
  }

  /**
   * For messages on a connection between two distinct endpoints, observing
   * at the connection's ends is the connection step of the shared tracking:
   * client From and server To for the connection, the reverse for replies.
   */
  lemma ObserveIsConnectionStep(c: ConnRecord, conn: KConnection, p: Packet)
    requires conn.from != conn.to
    ensures ConnectionObserve(c, conn.from, conn.to, NewPacketMsg(conn, Event.Packet(p))) == ConnectionStep(c, p, From, To)
    ensures ConnectionObserve(c, conn.from, conn.to, NewPacketMsg(Reverse(conn), Event.Packet(p))) == ConnectionStep(c, p, To, From)
  {
    DirectionsOnConnection(conn, Event.Packet(p));
  }

  /** The manager's connection states, created on first sight and kept. */
  class TcpStateManager {
    var stateMap: map<KConnection, ConnectionState>

    /** All endpoint states the manager owns. */
    ghost function Fsms(): set<object>
      reads this
    {
      (set c | c in stateMap :: stateMap[c].client as object) + (set c | c in stateMap :: stateMap[c].server as object)
    }

    /** Every connection owns two endpoint states of its own, shared with no other connection. */
    ghost predicate Valid()
      reads this
    {
      && (forall c :: c in stateMap ==> stateMap[c].client != stateMap[c].server)
      && (forall c, d :: c in stateMap && d in stateMap && c != d ==>
            && stateMap[c].client != stateMap[d].client && stateMap[c].client != stateMap[d].server
            && stateMap[c].server != stateMap[d].client && stateMap[c].server != stateMap[d].server)
    }

    /** The endpoint records of every tracked connection. */
    function Records(): map<KConnection, ConnRecord>
      reads this, Fsms()
    {
      map c | c in stateMap :: stateMap[c].Records()
    }

    constructor ()
      ensures Valid() && stateMap == map[]
    {
      stateMap := map[];
    }

    /**
     * `handle_packet_msg`: insert a fresh connection state (client from the
     * message's sender, server from its receiver) only when the connection
     * is new, then let it handle the message. No other connection changes.
     */
    method HandlePacketMsg(msg: PacketMsg, isServerSide: KEndpoint -> bool) returns (slept: nat)
      requires Valid()
      modifies this, Fsms()
      ensures Valid()
      ensures stateMap.Keys == old(stateMap.Keys) + {ConnectionOf(msg)}
      ensures forall c :: c in old(stateMap) ==> stateMap[c] == old(stateMap[c])
      ensures var c := ConnectionOf(msg);
        var before := if c in old(stateMap) then old(Records())[c]
                      else ConnRecord(InitialRecord(isServerSide(msg.from)), InitialRecord(isServerSide(msg.to)));
        Records()[c] == ConnectionObserve(before, stateMap[c].client.e, stateMap[c].server.e, msg)
      ensures ConnectionOf(msg) !in old(stateMap) ==>
        stateMap[ConnectionOf(msg)].client.e == msg.from && stateMap[ConnectionOf(msg)].server.e == msg.to
      ensures forall c :: c in old(stateMap) && c != ConnectionOf(msg) ==> Records()[c] == old(Records())[c]
    {
      var cs := Entry(msg, isServerSide);
      slept := cs.HandleMessage(msg);
      forall c | c in old(stateMap) && c != ConnectionOf(msg)
        ensures Records()[c] == old(Records())[c]
      {
        var other := stateMap[c];
        assert other.client !in {cs.client, cs.server} && other.server !in {cs.client, cs.server};
      }
    }

    /** `state_map.entry(..).or_insert_with(..)`: the message's connection state, created when missing. */
    method Entry(msg: PacketMsg, isServerSide: KEndpoint -> bool) returns (cs: ConnectionState)
      requires Valid()
      modifies this
      ensures Valid() && stateMap == old(stateMap)[ConnectionOf(msg) := cs] && cs.client != cs.server
      ensures ConnectionOf(msg) in old(stateMap) ==> cs == old(stateMap[ConnectionOf(msg)])
      ensures ConnectionOf(msg) !in old(stateMap) ==>
        && fresh(cs.client) && fresh(cs.server)
        && cs.client.e == msg.from && cs.client.Snapshot() == InitialRecord(isServerSide(msg.from))
        && cs.server.e == msg.to && cs.server.Snapshot() == InitialRecord(isServerSide(msg.to))
    {
      var c := ConnectionOf(msg);
      if c in stateMap {
        cs := stateMap[c];
      } else {
        cs := new ConnectionState(msg.from, msg.to, isServerSide);
        stateMap := stateMap[c := cs];
      }
    }
  }
}
