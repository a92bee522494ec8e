/**
 * `Message` of folonet/src/message.rs: a data-plane notification restated
 * from the client's point of view. When the packet travelled from the
 * server side, the connection's ends and the two local endpoints swap.
 */
module Message {
  import opened CommonEvent
  import opened CommonLib

  datatype PacketMsgType = Tcp(packet: Packet) | Udp
  datatype MessageType = PacketType(packetType: PacketMsgType) | Close

  /** `UConnection::new(a, b)`: a pair of endpoints (its definition is not part of this model). */
  datatype UConnection = UConnection(a: KEndpoint, b: KEndpoint)

  datatype Message = Message(
    client: KEndpoint,
    server: KEndpoint,
    localIn: KEndpoint,
    localOut: KEndpoint,
    fromClient: bool,
    msgType: MessageType)

  /** The message type of a notification's event: a TCP packet keeps its packet. */
  function MessageTypeOf(e: Event): (t: MessageType)
    ensures t.PacketType?
    ensures t.packetType.Tcp? <==> e.Packet?
    ensures e.Packet? ==> t.packetType.packet == e.packet
  {
    match e
    case Packet(p) => PacketType(Tcp(p))
    case Udp => PacketType(PacketMsgType.Udp)
  }

  /** `Message::from_notification`. */
  function FromNotification(n: Notification, fromClient: bool): (m: Message)
    ensures m.fromClient == fromClient && m.msgType == MessageTypeOf(n.event)
    ensures fromClient ==>
      m.client == n.connection.from && m.server == n.connection.to
      && m.localIn == n.localInEndpoint && m.localOut == n.localOutEndpoint
    ensures !fromClient ==>
      m.client == n.connection.to && m.server == n.connection.from
      && m.localIn == n.localOutEndpoint && m.localOut == n.localInEndpoint
  {
    var t := MessageTypeOf(n.event);
    var c := n.connection;
    if fromClient then Message(c.from, c.to, n.localInEndpoint, n.localOutEndpoint, fromClient, t)
    else Message(c.to, c.from, n.localOutEndpoint, n.localInEndpoint, fromClient, t)
  }

  /** `to_u_connections`: (client, local in) and (server, local out). */
  function ToUConnections(m: Message): (r: (UConnection, UConnection))
    ensures r.0.a == m.client && r.0.b == m.localIn
    ensures r.1.a == m.server && r.1.b == m.localOut
  {
    (UConnection(m.client, m.localIn), UConnection(m.server, m.localOut))
  }

  /** `Message::connection`: from the client to the server. */
  function ConnectionOf(m: Message): (c: KConnection)
    ensures c.from == m.client && c.to == m.server
  {
    KConnection(m.client, m.server)
  }

  /** The same notification seen from the other side: reversed connection, local endpoints swapped. */
  function Mirror(n: Notification): (n': Notification)
    ensures n'.connection == Reverse(n.connection) && n'.event == n.event
    ensures n'.localInEndpoint == n.localOutEndpoint && n'.localOutEndpoint == n.localInEndpoint
  {
    Notification(n.localOutEndpoint, n.localInEndpoint, Reverse(n.connection), n.event)
  }

  /**
   * A notification from the server side is the client-side message of the
   * mirrored notification: both readings name the same client, server and
   * local endpoints, and the message's connection is the reverse of the
   * packet's.
   */
  lemma FromServerIsMirror(n: Notification)
    ensures FromNotification(n, false) == FromNotification(Mirror(n), true).(fromClient := false)
    ensures ConnectionOf(FromNotification(n, false)) == Reverse(n.connection)
    ensures ConnectionOf(FromNotification(n, true)) == n.connection
  {
  }

  /** A server-side notification and its mirror pair up the same endpoints. */
  lemma ToUConnectionsMirror(n: Notification)
    ensures ToUConnections(FromNotification(n, false)) == ToUConnections(FromNotification(Mirror(n), true))
  {
  }
}
