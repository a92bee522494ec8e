/**
 * `PacketMsg` of folonet/src/state/mod.rs: a packet event together with the
 * connection it travelled on, and the direction it has for a given endpoint.
 */
module StatePacketMsg {
  import opened Wrappers
  import opened CommonEvent
  import opened CommonLib
  import opened TcpTracking

  datatype PacketMsg = PacketMsg(from: KEndpoint, to: KEndpoint, event: Event)

  function NewPacketMsg(connection: KConnection, event: Event): (m: PacketMsg)
    ensures m.from == connection.from && m.to == connection.to && m.event == event
  {
    PacketMsg(connection.from, connection.to, event)
  }

  /** From for the sender; To for every other endpoint, the receiver and unrelated ones alike. */
  function DirectionOf(m: PacketMsg, e: KEndpoint): (d: Direction)
    ensures d == From <==> e == m.from
  {
    if e == m.from then From else To
  }

  function ConnectionOf(m: PacketMsg): (c: KConnection)
    ensures c.from == m.from && c.to == m.to
  {
    KConnection(m.from, m.to)
  }

  /** The packet a message carries, if its event is a TCP packet. */
  function PacketOf(m: PacketMsg): (p: Option<Packet>)
    ensures p.Some? <==> m.event.Packet?
    ensures p.Some? ==> p.value == m.event.packet
  {
    match m.event
    case Packet(p) => Some(p)
    case Udp => None
  }

  /** Building a message from a connection and reading the connection back are inverse. */
  lemma ConnectionRoundTrip(c: KConnection, ev: Event)
    ensures ConnectionOf(NewPacketMsg(c, ev)) == c
    ensures NewPacketMsg(ConnectionOf(PacketMsg(c.from, c.to, ev)), ev) == PacketMsg(c.from, c.to, ev)
  {
  }

  /**
   * On a connection between two distinct endpoints the sender sees From and
   * the receiver To; on the reversed connection the roles swap.
   */
  lemma DirectionsOnConnection(c: KConnection, ev: Event)
    requires c.from != c.to
    ensures DirectionOf(NewPacketMsg(c, ev), c.from) == From
    ensures DirectionOf(NewPacketMsg(c, ev), c.to) == To
    ensures DirectionOf(NewPacketMsg(Reverse(c), ev), c.from) == To
    ensures DirectionOf(NewPacketMsg(Reverse(c), ev), c.to) == From
  {
  }
}
