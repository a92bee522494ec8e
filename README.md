# folonet in Dafny

folonet puts idle Kubernetes services to sleep and wakes them on their first
packet. Three parts make up its core, and this project models each of them.

- **Data plane.** An XDP program (folonet-ebpf) rewrites every TCP or UDP
  frame addressed to a service endpoint onto a NAT connection. When a
  connection is new, it picks a local port for it. When the service is not
  running, it asks user space to cold-start it. It reports FIN packets and
  marks endpoints whose door bell rings.
- **User-space tracker.** The folonet daemon tracks every connection with a
  TCP state machine, one per endpoint. The machine is driven by the
  SYN/FIN/ACK packets the data plane reports. When both ends are closed, it
  posts a close message.
- **Control plane.** folonet-server keeps two MySQL tables. `ip_pairs` holds
  virtual IPs, each with a local endpoint and a checkpoint that names the
  service holding it. `server_units` holds the registered services. On top
  of these sit an allocator, the HTTP handlers `registry`, `unregistry` and
  `insertIP`, and the gRPC handlers `StartServer` and `StopServer`. The
  handlers scale deployments up and down.

Layout, one module per file:

| module | file | models |
|---|---|---|
| Wrappers | wrappers.dfy | `Option`/`Result` |
| CommonLib | common_lib.dfy | folonet-common/src/lib.rs: BiPort, KEndpoint, KConnection, Mac, the checksum fold, Notification |
| CommonEvent | common_event.dfy | folonet-common/src/event.rs: packet flags, Packet, Event and their 128-bit wire form |
| CommonQueue | common_queue.dfy | folonet-common/src/queue.rs: the fixed-size ring buffer (a class over an array) |
| TcpFsm | tcp_fsm.dfy | folonet/src/tcp_fsm.rs: the transition table, and how it relates to the state diagram of RFC 793 |
| TcpTracking | tcp_tracking.dfy | the per-endpoint tracking that state/tcp.rs, state/tcp_fsm.rs and event.rs each carry a copy of; the TCP handshake and close scenarios |
| StatePacketMsg | state_packet_msg.dfy | folonet/src/state/mod.rs: `PacketMsg` |
| StateTcp | state_tcp.dfy | folonet/src/state/tcp.rs: connection state with the close message |
| StateTcpFsm | state_tcp_fsm.dfy | folonet/src/state/tcp_fsm.rs: connection state and the per-connection manager |
| StateManager | state_manager.dfy | folonet/src/state/mod.rs: `ConnectionStateManager`, dispatching TCP messages to the manager of state/tcp_fsm.rs (see Left out) |
| EndpointEvents | endpoint_state.dfy | folonet/src/event.rs: `EndpointState` |
| Message | message.dfy | folonet/src/message.rs |
| Xdp | xdp.dfy | folonet-ebpf/src/main.rs: one frame through the program, over the BPF maps (functions plus a class over the maps) |
| ServerModel | server_model.dfy | folonet-server/model.go and the gorm `Save` semantics the handlers rely on |
| KeyOrder | key_order.dfy | the primary-key order that decides which row gorm's `First` returns |
| GoFormat | go_format.dfy | `fmt.Sprintf("%s:%d")` and `net.IP.String()` |
| IpRange | ip_range.dfy | the address bytes, `incrementIP` and the CIDR walk of `insertIP` |
| ServerSeed | server_seed.dfy | the pool seeding of `insertIP` |
| Server | server.dfy | the remaining handlers of folonet-server/main.go, as functions plus a class over the tables |

Modelling choices:

- **Widths.** Rust integers are bit-vectors of their width, so `seq + 1` on a
  u32 wraps, as in a release build.
- **Processes.** The database, the in-process cache `record` and the BPF maps
  are Dafny maps. A handler is a method on a class that holds them, and each
  method is proved equal to a function that specifies the handler.
- **The cluster.** What Kubernetes answers (patch, service lookup, readiness
  wait) is a parameter.
- **Server side.** `Endpoint::is_server_side` is outside these files, so it
  is a parameter.
- **TimeWait.** The 60-second TimeWait sleep is returned as the number of
  seconds slept.

## Model

| member | source | states |
|---|---|---|
| CommonLib.NewBiPort | folonet-common/src/lib.rs:92-94 | the source port fills the high 16 bits and the destination port the low 16 bits |
| CommonLib.SplitNet | folonet-common/src/lib.rs:96-98 | returns the high and low halves of the packed ports |
| CommonLib.BiPortRoundTrip | folonet-common/src/lib.rs:92-98 | `split_net(new(s, d)) == (s, d)` |
| CommonLib.BiPortLayoutRoundTrip | folonet-common/src/lib.rs:92-98 | every packed value is rebuilt by `new` from its split |
| CommonLib.NewKEndpoint | folonet-common/src/lib.rs:150-161 | `ip()` and `port()` read back the ip and port; the bits above 48 are zero |
| CommonLib.KEndpointInjective | folonet-common/src/lib.rs:150-153 | two endpoints are equal exactly when their ips and ports are |
| CommonLib.KEndpointLayoutRoundTrip | folonet-common/src/lib.rs:150-161 | a 48-bit endpoint is rebuilt from its ip and port |
| CommonLib.Reverse | folonet-common/src/lib.rs:114-119 | swaps the two ends |
| CommonLib.ReverseInvolution | folonet-common/src/lib.rs:114-119 | reversing twice gives the connection back |
| CommonLib.MacValue | folonet-common/src/lib.rs:168-172 | the packed address fits in 48 bits |
| CommonLib.MacValueBytes | folonet-common/src/lib.rs:168-172 | each of the six address bytes sits at its big-endian offset of the packed value |
| CommonLib.NewMac | folonet-common/src/lib.rs:168-172 | `Mac::new` packs into 48 bits |
| CommonLib.MacBytesOffsets | folonet-common/src/lib.rs:192-197 | `Into<[u8; 6]>` yields the last six big-endian bytes of the u64 |
| CommonLib.MacBytes | folonet-common/src/lib.rs:192-197 | `Into<[u8; 6]>`: six bytes (specified by MacBytesOffsets and MacRoundTrip) |
| CommonLib.MacRoundTrip | folonet-common/src/lib.rs:168-197 | converting `Mac::new(addr)` back to bytes gives `addr` |
| CommonLib.MacValueOfBytes | folonet-common/src/lib.rs:168-197 | a 48-bit value is repacked from its six bytes |
| CommonLib.MacLayoutRoundTrip | folonet-common/src/lib.rs:168-197 | every 48-bit Mac survives bytes-then-`new` |
| CommonLib.EndAroundCarryModulo | folonet-common/src/lib.rs:127-129 | one carry fold keeps the value modulo 0xFFFF, keeps it positive, and shrinks it once it is above 16 bits |
| CommonLib.EndAroundCarry | folonet-common/src/lib.rs:127-129 | one fold of the high part into the low 16 bits (specified by EndAroundCarryModulo, which proves it keeps the value modulo 0xFFFF) |
| CommonLib.CsumFoldHelper | folonet-common/src/lib.rs:122-144 | for every u64 sum, the five folds leave 16 bits, and the result is the one's-complement checksum: `0xFFFF - r` is the sum modulo 0xFFFF, and the result is 0xFFFF only for a zero sum |
| CommonLib.IsTcp | folonet-common/src/lib.rs:215-220 | true exactly for a Packet event |
| CommonEvent.FromBe32 | folonet-common/src/event.rs:65-66 | `u32::from_be` on a little-endian host reverses the four bytes |
| CommonEvent.FromBe32Involution | folonet-common/src/event.rs:65-66 | byte reversal undoes itself |
| CommonEvent.NewPacket | folonet-common/src/event.rs:52-68 | a flag is set exactly when its header bit is nonzero; no other bit is set; the sequence numbers are converted from network byte order |
| CommonEvent.DecodePacket | folonet-common/src/event.rs:92-99 | seq from bits 0-31, ack_seq from bits 32-63, the flag set from bits 64-95 with unknown bits dropped |
| CommonEvent.EncodePacketAsWritten | folonet-common/src/event.rs:101-105 | (specified by AsWrittenEncoderNeverReturns) |
| CommonEvent.AsWrittenEncoderNeverReturns | folonet-common/src/event.rs:101-105 | the encoder as written calls itself and yields no value at any stack depth |
| CommonEvent.PacketRoundTrip | folonet-common/src/event.rs:92-105 | decoding the encoded well-formed packet gives it back |
| CommonEvent.PacketLayoutRoundTrip | folonet-common/src/event.rs:92-105 | encoding a decoded value keeps exactly the bits the layout knows |
| CommonEvent.TestPacketRoundTrip | folonet-common/src/event.rs:109-123 | the test's packet does not round-trip through the encoder as written, and does through the layout encoder |
| CommonEvent.TypeId | folonet-common/src/event.rs:12-17 | 1 for Packet, 2 for Udp |
| CommonEvent.EncodeEvent | folonet-common/src/event.rs:25-32 | a Packet carries type id 1 in the top byte above its 96-bit packet; Udp is 0 |
| CommonEvent.DecodeEvent | folonet-common/src/event.rs:34-42 | a value decodes exactly when its type id is 1, and then to the packet of its low bits; any other id is the panic |
| CommonEvent.DecodePacketLow96 | folonet-common/src/event.rs:92-99 | decoding reads only the low 96 bits |
| CommonEvent.EventRoundTrip | folonet-common/src/event.rs:25-42 | a well-formed Packet event survives the 128-bit round trip |
| CommonEvent.UdpDoesNotDecode | folonet-common/src/event.rs:25-42 | Udp encodes to 0, which does not decode |
| CommonQueue.Increase | folonet-common/src/queue.rs:24-26 | the next index stays below the capacity, wraps to 0 exactly from the last slot, and otherwise adds one |
| CommonQueue.RingSliceLength | folonet-common/src/queue.rs:4-8 | the contents between head and tail number `(tail - head) mod CAPACITY`, fewer than the capacity |
| CommonQueue.RingSlicePush | folonet-common/src/queue.rs:29-32 | writing at the tail and advancing it appends the item, unless the queue is full |
| CommonQueue.RingSliceOverwrite | folonet-common/src/queue.rs:29-32 | a push into a queue holding CAPACITY - 1 items makes tail meet head: the queue reads as empty |
| CommonQueue.RingSlicePop | folonet-common/src/queue.rs:34-38 | reading at the head and advancing it removes the first item |
| CommonQueue.RingSliceUnderflow | folonet-common/src/queue.rs:34-38 | popping an empty queue moves head past tail, and the queue then reads as CAPACITY - 1 stale items |
| CommonQueue.Queue.constructor | folonet-common/src/queue.rs:15-21 | head and tail start at 0, and the queue is empty |
| CommonQueue.Queue.Push | folonet-common/src/queue.rs:29-32 | the slot at the old tail gets the item and the tail advances; the contents grow by the item, or become empty on overflow |
| CommonQueue.Queue.Pop | folonet-common/src/queue.rs:34-38 | returns the slot at the old head and advances the head; on a non-empty queue that is the first item and the rest remain |
| CommonQueue.PushAll | folonet-common/src/queue.rs:29-32 | pushing items below capacity appends them in order |
| CommonQueue.PopMany | folonet-common/src/queue.rs:34-38 | popping n items returns the first n in order and leaves the rest |
| CommonQueue.FifoRoundTrip | folonet-common/src/queue.rs:15-38 | items pushed into a new queue are popped back in the same order |
| TcpFsm.TableDeterministic | folonet/src/tcp_fsm.rs:3-46 | no two rows of the table share a state and an input |
| TcpFsm.Transition | folonet/src/tcp_fsm.rs:3-46 | the transition table read as a function: it yields a state exactly for the table's rows (specified by TransitionIsTable, TransitionInTable and TableDeterministic, and by TableRefinesRfc793 against RFC 793's diagram) |
| TcpFsm.Run | folonet/src/tcp_fsm.rs:3-46 | inputs consumed in order, failing at the first one with no transition (specified by RunAppend and the open and close path lemmas) |
| TcpFsm.TableRowsAreTransitions | folonet/src/tcp_fsm.rs:3-46 | the transition function takes each row's state and input to the row's target |
| TcpFsm.TransitionInTable | folonet/src/tcp_fsm.rs:3-46 | every transition the function makes is a row of the table |
| TcpFsm.TransitionIsTable | folonet/src/tcp_fsm.rs:3-46 | the transition function and the table agree in both directions |
| TcpFsm.RunAppend | folonet/src/tcp_fsm.rs:3-46 | running two input lists one after the other is running their concatenation |
| TcpFsm.InputTowardClosed | folonet/src/tcp_fsm.rs:3-46 | every state but Closed has an input that takes it one step closer to Closed |
| TcpFsm.ClosedReachableFromEveryState | folonet/src/tcp_fsm.rs:3-46 | from every state some input sequence leads back to Closed |
| TcpFsm.PassiveOpenPath | folonet/src/tcp_fsm.rs:8-28 | Closed, Listen, a received SYN and the SYN-ACK sent back reach SynReceived; the ACK of that SYN reaches Established |
| TcpFsm.ActiveOpenPaths | folonet/src/tcp_fsm.rs:8-23 | SendSyn reaches SynSent; a SYN-ACK and its ACK reach Established; a simultaneous SYN reaches SynReceived |
| TcpFsm.PassiveClosePath | folonet/src/tcp_fsm.rs:25-32 | a received FIN, our FIN and its ACK take Established to Closed |
| TcpFsm.ActiveClosePath | folonet/src/tcp_fsm.rs:25-45 | our FIN, its ACK, their FIN and our ACK reach TimeWait, which expires to Closed |
| TcpFsm.SimultaneousClosePath | folonet/src/tcp_fsm.rs:25-45 | crossing FINs go through Closing to TimeWait |
| TcpFsm.Collapse | folonet/src/tcp_fsm.rs:3-46 | maps every state to a state of RFC 793 and leaves those states unchanged |
| TcpFsm.TableRefinesRfc793 | folonet/src/tcp_fsm.rs:3-46 | each transition either enters an intermediate state without leaving its RFC 793 state, or follows an arc of Figure 6 of RFC 793 |
| TcpTracking.EmitOrderOfParts | folonet/src/state/tcp.rs:214-281 | three parts of at most one input of ranks 0, 1 and 2 form a list in emit order |
| TcpTracking.ReceiveAckInputRules | folonet/src/state/tcp.rs:214-233 | an ACK of the sent FIN gives RecvAckForFin; an ACK of the sent SYN gives ReceiveSynAck with SYN and RecvAckForSyn without; at most one of them |
| TcpTracking.ReceiveAckInput | folonet/src/state/tcp.rs:214-233 | the acknowledgement input of `check_receive_input` (specified by ReceiveAckInputRules) |
| TcpTracking.CheckReceiveInput | folonet/src/state/tcp.rs:214-246 | `check_receive_input` (specified by CheckReceiveInputRules and EmitOrderOfParts) |
| TcpTracking.CheckReceiveInputRules | folonet/src/state/tcp.rs:214-246 | each receive input appears exactly under its rule (both directions); no other input appears; the order is ack, FIN, SYN |
| TcpTracking.SendAckInputRules | folonet/src/state/tcp.rs:249-266 | an ACK of the received FIN or SYN gives SendAckForFin or SendAckForSyn; at most one of them |
| TcpTracking.SendAckInput | folonet/src/state/tcp.rs:249-266 | the acknowledgement input of `check_send_input` (specified by SendAckInputRules) |
| TcpTracking.CheckSendInput | folonet/src/state/tcp.rs:249-281 | `check_send_input` (specified by CheckSendInputRules and EmitOrderOfParts) |
| TcpTracking.CheckInput | folonet/src/state/tcp.rs:206-211 | a sent packet is classified against the received slot and a received packet against the sent slot (specified by the per-packet lemmas SynAtClient to LastAckAtServer) |
| TcpTracking.CheckSendInputRules | folonet/src/state/tcp.rs:249-281 | each send input appears exactly under its rule (both directions); SYN gives SendSynAck with ACK and SendSyn without; no other input; the order is ack, SYN, FIN |
| TcpTracking.InitialRecord | folonet/src/state/tcp.rs:126-137 | a new endpoint is in Listen when server-side and in Closed otherwise, with no special packet remembered |
| TcpTracking.ConsumeAllSnoc | folonet/src/state/tcp.rs:158-170 | consuming one more input continues from where the list left the machine |
| TcpTracking.Consume | folonet/src/state/tcp.rs:158-170 | one `consume` whose error is ignored: the state stays when the table has no transition (specified by ConsumeAllAgreesWithRun) |
| TcpTracking.ConsumeAll | folonet/src/state/tcp.rs:158-170 | the inputs consumed in list order (specified by ConsumeAllSnoc, and by ConsumeAllAgreesWithRun, which ties it to TcpFsm.Run whenever every input has a transition) |
| TcpTracking.ConsumeAllAgreesWithRun | folonet/src/state/tcp.rs:158-170 | when every input has a transition, consuming with ignored errors ends where the strict run does |
| TcpTracking.SpecialOf | folonet/src/state/tcp.rs:172-179 | a packet's special part exists exactly for FIN or SYN, carries its seq, and is a FIN whenever FIN is set |
| TcpTracking.RememberSpecial | folonet/src/state/tcp.rs:172-190 | the packet's FIN or SYN replaces the sent slot when sending and the received slot when receiving; the state machine and the other slot stay |
| TcpTracking.Track | folonet/src/state/tcp.rs:143-190 | classify with the slots as they were, consume, then remember the SYN or FIN (specified, through HandlePacket, by ThreeWayHandshake, FourWayClose and the per-packet lemmas behind them) |
| TcpTracking.Expire | folonet/src/state/tcp.rs:192-196 | TimeWait is left for Closed; any other state and both slots stay |
| TcpTracking.HandlePacket | folonet/src/state/tcp.rs:143-203 | after a packet the endpoint is never left in TimeWait |
| TcpTracking.BarePacketChangesNothing | folonet/src/state/tcp.rs:143-203 | a packet without SYN, FIN or ACK changes nothing |
| TcpTracking.TcpFsmState.constructor | folonet/src/state/tcp.rs:126-137 | the endpoint starts from its initial record |
| TcpTracking.TcpFsmState.IsClosed | folonet/src/state/tcp.rs:139-141 | true exactly in Closed |
| TcpTracking.TcpFsmState.ConsumeInputs | folonet/src/state/tcp.rs:158-170 | the loop consumes the inputs in order, ignoring each without a transition, and keeps both slots |
| TcpTracking.TcpFsmState.TrackPacket | folonet/src/state/tcp.rs:158-190 | classify with the old slots, consume, then remember the packet |
| TcpTracking.TcpFsmState.ExpireTimeWait | folonet/src/state/tcp.rs:192-196 | leaves TimeWait through TimeExpired |
| TcpTracking.SynAtClient | folonet/src/state/tcp.rs:249-281 | the client's SYN takes it from Closed to SynSent and is remembered as sent |
| TcpTracking.SynAtServer | folonet/src/state/tcp.rs:214-246 | the SYN takes the listening server to ListenReceiveSyn and is remembered as received |
| TcpTracking.SynAckAtClient | folonet/src/state/tcp.rs:214-246 | the SYN-ACK acknowledging x takes the client to ReceiveSynAckReceiveSynAck |
| TcpTracking.SynAckAtServer | folonet/src/state/tcp.rs:249-281 | sending the SYN-ACK takes the server to SynReceived |
| TcpTracking.AckAtClient | folonet/src/state/tcp.rs:249-281 | the client's ACK of y takes it to Established |
| TcpTracking.AckAtServer | folonet/src/state/tcp.rs:214-246 | receiving the ACK of y takes the server to Established |
| TcpTracking.ThreeWayHandshake | folonet/src/state/tcp.rs:143-281 | SYN, SYN-ACK, ACK take a fresh client and a fresh server-side endpoint to Established, for every choice of sequence numbers |
| TcpTracking.CloseFinAtClient | folonet/src/state/tcp.rs:249-281 | the client's FIN takes it to FinWait1 |
| TcpTracking.CloseFinAtServer | folonet/src/state/tcp.rs:214-246 | the server receiving that FIN goes to CloseWait |
| TcpTracking.CloseAckAtClient | folonet/src/state/tcp.rs:214-246 | the ACK of its FIN takes the client to FinWait2 |
| TcpTracking.CloseAckAtServer | folonet/src/state/tcp.rs:249-281 | sending that ACK leaves the server in CloseWait |
| TcpTracking.ServerFinAtClient | folonet/src/state/tcp.rs:214-246 | the server's FIN takes the client to FinWait2ReceiveFin |
| TcpTracking.ServerFinAtServer | folonet/src/state/tcp.rs:249-281 | sending its FIN takes the server to LastAck |
| TcpTracking.LastAckAtClient | folonet/src/state/tcp.rs:143-203 | the client's last ACK takes it through TimeWait to Closed |
| TcpTracking.LastAckAtServer | folonet/src/state/tcp.rs:214-246 | that ACK takes the server from LastAck to Closed |
| TcpTracking.FourWayClose | folonet/src/state/tcp.rs:143-281 | FIN, ACK, FIN, ACK bring both endpoints of an established connection back to Closed |
| StatePacketMsg.NewPacketMsg | folonet/src/state/mod.rs:40-46 | the message carries the connection's ends and the event |
| StatePacketMsg.DirectionOf | folonet/src/state/mod.rs:48-54 | From exactly for the sender |
| StatePacketMsg.ConnectionOf | folonet/src/state/mod.rs:56-61 | the connection from sender to receiver |
| StatePacketMsg.PacketOf | folonet/src/state/mod.rs:33-37 | the packet exactly when the event is a Packet |
| StatePacketMsg.ConnectionRoundTrip | folonet/src/state/mod.rs:40-61 | `connection()` of `new(c, ev)` is `c`, and a message is rebuilt from its connection |
| StatePacketMsg.DirectionsOnConnection | folonet/src/state/mod.rs:40-54 | on a connection the sender sees From and the receiver To; on the reverse it is the other way round |
| StateTcp.HandlePacketEvent | folonet/src/state/tcp.rs:143-203 | the endpoint tracks the message's packet and expires TimeWait at once; a message without a packet changes nothing |
| StateTcp.ConnectionState.constructor | folonet/src/state/tcp.rs:74-80 | two distinct fresh endpoints from their initial records, and no close channel |
| StateTcp.ConnectionState.SetCloseEventSender | folonet/src/state/tcp.rs:82-84 | sets the close channel |
| StateTcp.ConnectionState.HandleMessage | folonet/src/state/tcp.rs:90-99 | client then server observe the message; a close message for (from, to) is posted exactly when a channel is set and both ends are Closed |
| StateTcp.ObserveOnConnection | folonet/src/state/tcp.rs:143-203 | a message on the connection or its reverse reaches each end with the direction of the connection scenarios |
| StateTcp.Observe | folonet/src/state/tcp.rs:143-147 | a message without a packet changes nothing, any other goes to the packet handling (specified by ObserveOnConnection) |
| StateTcp.CloseMessageAfterFourWayClose | folonet/src/state/tcp.rs:90-99 | the last ACK of the four-way close leaves both ends Closed, which posts the close message |
| StateTcpFsm.HandlePacketEvent | folonet/src/state/tcp_fsm.rs:145-210 | tracks the packet, sleeps 60 seconds exactly when it reached TimeWait, then expires it; a Udp event changes nothing |
| StateTcpFsm.ConnectionState.constructor | folonet/src/state/tcp_fsm.rs:99-105 | two distinct fresh endpoints from their initial records |
| StateTcpFsm.ConnectionState.HandleMessage | folonet/src/state/tcp_fsm.rs:112-121 | a Packet reaches the client, then the server; Udp changes nothing |
| StateTcpFsm.ObserveIsConnectionStep | folonet/src/state/tcp_fsm.rs:112-121 | a message on the connection, or on its reverse, is the connection step of the scenarios |
| StateTcpFsm.Observe | folonet/src/state/tcp_fsm.rs:114-119 | only a TCP packet event reaches an endpoint's tracking (specified by ObserveIsConnectionStep) |
| StateTcpFsm.ConnectionObserve | folonet/src/state/tcp_fsm.rs:112-121 | one message applied to the client's and then the server's record (specified by ObserveIsConnectionStep and by StateManager.HandlePacketMsg's contract) |
| StateTcpFsm.TcpStateManager.constructor | folonet/src/state/tcp_fsm.rs:75-79 | starts with no connection |
| StateTcpFsm.TcpStateManager.HandlePacketMsg | folonet/src/state/tcp_fsm.rs:81-89 | the message's connection gets a state (new ones from the initial records of its ends) that observes the message; no other connection changes |
| StateTcpFsm.TcpStateManager.Entry | folonet/src/state/tcp_fsm.rs:82-85 | `entry().or_insert_with()`: the existing state, or a fresh one for (from, to) |
| StateManager.NewConnectionStateManager | folonet/src/state/mod.rs:16-22 | a TCP manager with no connection exactly when `is_tcp` |
| StateManager.HandlePacketMsg | folonet/src/state/mod.rs:24-29 | a TCP manager adds the message's connection (a new one with the sender as client and the receiver as server), that connection observes the message from its previous or initial records, and no other connection changes; a UDP manager does not sleep |
| EndpointEvents.EndpointState.constructor | folonet/src/event.rs:62-79 | TCP state exactly when `is_tcp`, in Listen when server-side |
| EndpointEvents.EndpointState.HandlePacketEvent | folonet/src/event.rs:49-60 | a TCP endpoint tracks the packet, sleeping 60 seconds at TimeWait; a non-TCP endpoint ignores it |
| EndpointEvents.EndpointState.HandleNotification | folonet/src/event.rs:37-47 | the notification's packet with the given direction; a Udp event changes nothing |
| Message.MessageTypeOf | folonet/src/message.rs:20-23 | a TCP packet keeps its packet; UDP becomes the UDP type |
| Message.FromNotification | folonet/src/message.rs:19-45 | from the client side the ends are kept; from the server side client and server swap, and so do the local in and out endpoints |
| Message.ToUConnections | folonet/src/message.rs:47-52 | (client, local in) and (server, local out) |
| Message.ConnectionOf | folonet/src/message.rs:54-59 | from client to server |
| Message.Mirror | folonet/src/message.rs:19-45 | the notification seen from the other side: the connection is reversed and the local endpoints are swapped |
| Message.FromServerIsMirror | folonet/src/message.rs:19-59 | a server-side notification gives the client-side message of its mirror, whose connection is the reverse of the packet's |
| Message.ToUConnectionsMirror | folonet/src/message.rs:47-52 | a server-side notification and its mirror pair up the same endpoints |
| Xdp.ActionCode | folonet-ebpf/src/main.rs:36-42 | the four verdicts get the distinct kernel codes 0 to 3 |
| Xdp.PtrAt | folonet-ebpf/src/main.rs:44-53 | a header is readable exactly when it ends inside the frame |
| Xdp.DeclareWay | folonet-ebpf/src/main.rs:88-97 | the connection from the frame's source ip and port to its destination ip and port |
| Xdp.MapInsert | folonet-ebpf/src/main.rs:55-62 | a fallible map insert fails exactly on a new key into a full map; otherwise it stores the value |
| Xdp.UnparsedFramesChangeNothing | folonet-ebpf/src/main.rs:226-251 | a frame whose headers are not all readable changes no map; it passes when it is not IPv4 or not TCP/UDP, and aborts otherwise |
| Xdp.DropOrTxNeedsHeaders | folonet-ebpf/src/main.rs:226-253 | a drop or a transmit implies all three headers were in bounds |
| Xdp.LearnMacProperties | folonet-ebpf/src/main.rs:100-111 | learning keeps every known MAC, adds at most the new ip with its MAC, and succeeds exactly when the ip ends up known |
| Xdp.LearnMac | folonet-ebpf/src/main.rs:100-111 | an ip's first MAC is kept; a full map refuses (specified by LearnMacProperties) |
| Xdp.LearnMacsProperties | folonet-ebpf/src/main.rs:100-111 | source then destination: known MACs are kept; new ones get the frame's MACs; it succeeds exactly when both ips end up known |
| Xdp.LearnMacs | folonet-ebpf/src/main.rs:100-111 | the source's MAC, then the destination's (specified by LearnMacsProperties and MacLearning) |
| Xdp.DoorBellTarget | folonet-ebpf/src/main.rs:374-399 | the endpoint whose performance is marked (specified by ForwardMarks and DoorBellMarking) |
| Xdp.FinNotification | folonet-ebpf/src/main.rs:344-372 | the notification a FIN posts (specified by ForwardReports and FinIsReported) |
| Xdp.ForwardProperties | folonet-ebpf/src/main.rs:328-403 | forwarding changes only the event ring and the performance map; it transmits exactly for a known connection and passes otherwise |
| Xdp.Forward | folonet-ebpf/src/main.rs:328-403 | forwarding along the stored output way (specified by ForwardProperties, ForwardWay, ForwardReports and ForwardMarks) |
| Xdp.ForwardWay | folonet-ebpf/src/main.rs:328-340 | a known connection is transmitted on its output way |
| Xdp.ForwardReports | folonet-ebpf/src/main.rs:344-372 | exactly a FIN adds one notification naming local in, local out and (client, server) |
| Xdp.ForwardMarks | folonet-ebpf/src/main.rs:374-399 | the door bell of `declare.to` decides, or else that of `output.from`; a bell of 1 marks its endpoint |
| Xdp.ConnectProperties | folonet-ebpf/src/main.rs:313-325 | inserting both ways changes only the connection, event and performance maps and never drops a key; it transmits exactly when both inserts succeed, and then forwards |
| Xdp.Connect | folonet-ebpf/src/main.rs:313-325 | both ways inserted, then forwarded; a refused insert aborts (specified by ConnectProperties) |
| Xdp.NewFlow | folonet-ebpf/src/main.rs:257-326 | a flow without a connection entry (specified by NewFlowFrame, NewFlowForwards, UnknownServiceColdStart, NewFlowWithoutResources and NewFlowInsertsBothWays) |
| Xdp.NewFlowFrame | folonet-ebpf/src/main.rs:257-326 | a new flow never changes the MAC, server, local-ip or door-bell maps, and never drops a connection |
| Xdp.NewFlowForwards | folonet-ebpf/src/main.rs:257-403 | a new flow that transmits has inserted its connection and then forwards; otherwise no event and no mark |
| Xdp.StepParsed | folonet-ebpf/src/main.rs:253-257 | with headers in bounds: abort when MAC learning fails, else a new flow or a forward |
| Xdp.Step | folonet-ebpf/src/main.rs:226-404 | `try_xdp_firewall` on one frame (specified by StepParsed, StepTx, ConfigurationIsReadOnly, TxFollowsConnectionTable and the lemmas above) |
| Xdp.MacLearning | folonet-ebpf/src/main.rs:100-111 | for every frame, known MACs are kept and new ones come from the frame; a drop or transmit implies both ips are known |
| Xdp.ConfigurationIsReadOnly | folonet-ebpf/src/main.rs:226-404 | the server map, the local-ip map and the door bells are never written |
| Xdp.UnknownServiceColdStart | folonet-ebpf/src/main.rs:259-282 | a new flow to an unknown service passes outside ports 8000-9999, and inside is dropped with a cold-start request for its destination |
| Xdp.NewFlowWithoutResources | folonet-ebpf/src/main.rs:284-306 | no free service port drops; a missing local ip drops after the port was taken |
| Xdp.NewFlowInsertsBothWays | folonet-ebpf/src/main.rs:309-326 | with room, the way out and its return way are inserted, one service port is used, and the frame is transmitted on the way out |
| Xdp.FullConnectionTableAborts | folonet-ebpf/src/main.rs:313-316 | a full connection table aborts after the service port was taken |
| Xdp.ExistingFlowInsertsNothing | folonet-ebpf/src/main.rs:257-403 | a known flow is transmitted on its way; no connection, port or cold start changes |
| Xdp.StepTx | folonet-ebpf/src/main.rs:226-404 | a non-transmit leaves events and marks alone; a transmit forwards over the learned tables |
| Xdp.TxFollowsConnectionTable | folonet-ebpf/src/main.rs:257-340 | connections are never removed, and a transmitted frame goes out on the way the table holds for it |
| Xdp.FinIsReported | folonet-ebpf/src/main.rs:344-372 | a transmitted FIN appends one TCP notification with the FIN flag, local in `declare.to`, local out `way.from` and connection (client, server); nothing else reports |
| Xdp.DoorBellMarking | folonet-ebpf/src/main.rs:374-399 | only a transmit marks; the door bell of `declare.to` takes precedence over that of `way.from` |
| Xdp.XdpProgram.constructor | folonet-ebpf/src/main.rs:55-80 | every map starts empty |
| Xdp.XdpProgram.RecordMacs | folonet-ebpf/src/main.rs:100-111 | the MAC learning of `extract_way` over the MAC map; nothing else changes |
| Xdp.XdpProgram.ForwardPacket | folonet-ebpf/src/main.rs:328-403 | the maps change as the forward specification says |
| Xdp.XdpProgram.SetUpFlow | folonet-ebpf/src/main.rs:257-326 | the maps change as the new-flow specification says |
| Xdp.XdpProgram.ConnectFlow | folonet-ebpf/src/main.rs:309-326 | the maps change as the insert-both-ways specification says |
| Xdp.XdpProgram.Folonet | folonet-ebpf/src/main.rs:36-42 | one frame: verdict and maps as the step specification says, whose properties are the lemmas above |
| ServerModel.NewIPPair | folonet-server/model.go:12-15 | a pair created with only its key is free and has no endpoint |
| ServerModel.UnitForPair | folonet-server/main.go:147-154 | the unit copies the pair's IP and local endpoint and keeps its own name and deployment |
| ServerModel.SavePair | folonet-server/main.go:93 | `Save` fails exactly for an empty key that already exists (a duplicate Create); otherwise it writes the whole row |
| ServerModel.SaveIgnoringError | folonet-server/main.go:183 | a save whose error is dropped: the row is written, or the table stays |
| ServerModel.KeyedByNameUpdate | folonet-server/model.go:3-10 | storing or deleting a unit under its name keeps the table keyed by name |
| ServerModel.KeyedByIpUpdate | folonet-server/model.go:12-15 | storing a pair under its IP keeps the table keyed by IP |
| KeyOrder.EmptyIsLeast | folonet-server/main.go:86 | the empty key sorts first |
| KeyOrder.LeEmptyIsEmpty | folonet-server/main.go:86 | only the empty key sorts no later than it |
| KeyOrder.LexLeReflexive | folonet-server/main.go:86 | the key order is reflexive |
| KeyOrder.LexLeTotal | folonet-server/main.go:86 | the key order is total |
| KeyOrder.LexLeAntisymmetric | folonet-server/main.go:86 | the key order is antisymmetric |
| KeyOrder.LexLeTransitive | folonet-server/main.go:86 | the key order is transitive |
| KeyOrder.Least | folonet-server/main.go:86 | a non-empty set has a member that sorts no later than every member |
| KeyOrder.LeastUnique | folonet-server/main.go:86 | that member is unique |
| KeyOrder.LeastKey | folonet-server/main.go:86 | one pass over the rows finds the least key |
| GoFormat.DecimalString | folonet-server/main.go:206 | `%d` of a non-negative number is a non-empty string of digits |
| GoFormat.DecimalRoundTrip | folonet-server/main.go:206 | reading the digits back gives the number |
| GoFormat.IntString | folonet-server/main.go:64 | `%d` of a negative number is "-" followed by digits |
| GoFormat.HostPort | folonet-server/main.go:206 | `host:port`: the host, a colon, then the port's digits |
| GoFormat.HostPortRoundTrip | folonet-server/main.go:206 | the port is read back after the colon |
| GoFormat.HostPortInjective | folonet-server/main.go:206 | endpoints on one host are equal exactly when their ports are |
| GoFormat.DottedQuad | folonet-server/main.go:237 | `ip.String()` of four bytes is never empty |
| GoFormat.DottedJoinInjective | folonet-server/main.go:237 | the dot-joined decimals of equally many bytes are equal exactly when the bytes are |
| GoFormat.DottedQuadInjective | folonet-server/main.go:237 | distinct addresses give distinct `ip.String()` keys, so the walk's addresses are distinct rows of `ip_pairs` |
| IpRange.ValueBound | folonet-server/main.go:218-225 | an address of n bytes is below 256^n |
| IpRange.SuccValue | folonet-server/main.go:218-225 | the carry adds one, and only the largest address wraps, to zero |
| IpRange.Succ | folonet-server/main.go:218-225 | `incrementIP` (specified by SuccValue: the value goes up by one modulo 2^(8n)) |
| IpRange.Iterate | folonet-server/main.go:235 | the walk's n-th address (specified by IterateValue) |
| IpRange.IncrementIP | folonet-server/main.go:218-225 | the in-place carry loop turns the bytes into their successor: plus one, or zero after the largest |
| IpRange.IterateValue | folonet-server/main.go:235 | n increments add n while they stay below the limit |
| IpRange.BlockFits | folonet-server/main.go:227-235 | the block of an aligned range lies inside the IPv4 space |
| IpRange.ContainsIsBlock | folonet-server/main.go:235 | `Contains` holds exactly for the block from the network address on |
| IpRange.WalkCoversBlock | folonet-server/main.go:235 | the walk visits network + k for every k below the block size, and leaves the range exactly after the last address |
| IpRange.AddressStringsAt | folonet-server/main.go:235-237 | the k-th address string of the walk is network + k |
| IpRange.AddressStrings | folonet-server/main.go:235-237 | the walk's addresses as `ip.String()` in order (specified by AddressStringsAt) |
| IpRange.AddressStringsNonEmpty | folonet-server/main.go:237 | no address string is empty |
| ServerSeed.Endpoint | folonet-server/main.go:206 | a local endpoint starts with the local IP |
| ServerSeed.UsedEndpointsAreEmpty | folonet-server/main.go:196-201 | the `local_endpoint = ""` query makes the used set at most {""}, and it is {""} exactly when some pair lacks an endpoint |
| ServerSeed.UsedEndpoints | folonet-server/main.go:196-201 | the endpoints of the rows the query returns (specified by UsedEndpointsAreEmpty) |
| ServerSeed.CollectEndpoints | folonet-server/main.go:198-201 | the loop collects the endpoints of the found rows |
| ServerSeed.PickFindsFirstFree | folonet-server/main.go:203-216 | the picker returns the first unused port's endpoint and stays on that port; it returns "" exactly when every port from the current one up to `Max(port + 1, 9999)` (exclusive) is used, and then leaves the captured port at `Max(port + 1, 9999)`; 9999 is not tried by the call that reaches it, but the next call starts there and tries it |
| ServerSeed.Pick | folonet-server/main.go:203-216 | the picker's endpoint and its captured port afterwards (specified by PickFindsFirstFree and PickNeverAdvances) |
| ServerSeed.PickNeverAdvances | folonet-server/main.go:203-216 | with only "" in use, every call returns the endpoint on the current port |
| ServerSeed.LocalEndpointPicker.constructor | folonet-server/main.go:203 | the captured port starts at 8000 |
| ServerSeed.LocalEndpointPicker.Next | folonet-server/main.go:204-216 | the retry loop returns what the picker specification says and leaves the port where it says |
| ServerSeed.SeedAddressAsWritten | folonet-server/main.go:236-249 | (specified by AsWrittenStoresEmptyIp) |
| ServerSeed.AsWrittenStoresEmptyIp | folonet-server/main.go:236-249 | as written, seeding a missing address also stores a free pair under the empty IP |
| ServerSeed.SeedAddress | folonet-server/main.go:236-249 | (specified by SeedAddressFrame and SeedAddressEndpoint) |
| ServerSeed.SeedAddressFrame | folonet-server/main.go:236-249 | a step adds only its address, which starts free; it keeps every checkpoint and every other pair |
| ServerSeed.SeedAddressEndpoint | folonet-server/main.go:236-249 | a pair without an endpoint gets the picked one; a seeded pair and the port stay |
| ServerSeed.SeedWalkStep | folonet-server/main.go:235-249 | one more address of the walk seeds after the earlier ones |
| ServerSeed.SeedAllFrame | folonet-server/main.go:235-249 | seeding adds exactly the listed addresses, all free, and keeps checkpoints and the pairs it does not touch |
| ServerSeed.SeedAll | folonet-server/main.go:235-249 | `insertCIDR`'s loop (specified by SeedAllFrame, SeedAllOneEndpoint, SeedAllGrows and SeedAllSeeds) |
| ServerSeed.SeedAllOneEndpoint | folonet-server/main.go:203-249 | with only "" in use, every address gets the endpoint on port 8000 unless it already had one |
| ServerSeed.GrowsTransitive | folonet-server/main.go:263-270 | growing twice with one endpoint is growing once |
| ServerSeed.SeedAllGrows | folonet-server/main.go:235-249 | seeding a range grows the table with one endpoint |
| ServerSeed.RangeAddresses | folonet-server/main.go:235 | a range lists block-size addresses, none empty |
| ServerSeed.RangeLists | folonet-server/main.go:255-261 | one address list per range, in order |
| ServerSeed.SeedListsSnoc | folonet-server/main.go:263-270 | each range continues from where the earlier ones left the table and the port |
| ServerSeed.SeedLists | folonet-server/main.go:263-270 | the loop over the ranges (specified by SeedListsSnoc and SeedListsCover) |
| ServerSeed.SeedAllSeeds | folonet-server/main.go:235-249 | every address of the range ends with a seeded pair |
| ServerSeed.SeededListsStep | folonet-server/main.go:263-270 | one more range keeps what the earlier ranges established |
| ServerSeed.SeedListsCover | folonet-server/main.go:263-270 | seeding all ranges seeds every listed address and grows the table with one endpoint |
| ServerSeed.SeededAddress | folonet-server/main.go:235-249 | the k-th address of a seeded range has a seeded pair |
| ServerSeed.CidrsWellFormed | folonet-server/main.go:255-261 | the five ranges are aligned /24s of 256 addresses |
| ServerSeed.SeededRangesNonEmpty | folonet-server/main.go:255-261 | a table holding the ranges is not empty |
| ServerSeed.SeedPoolCoversRanges | folonet-server/main.go:194-274 | with the corrected seeding step (see Findings), after `insertIP` all 1280 addresses from 192.168.95.0 to 192.168.99.255 have seeded pairs; new pairs are free with non-empty IPs and the endpoint on port 8000; every checkpoint and every seeded pair is kept |
| ServerSeed.SeedPool | folonet-server/main.go:194-274 | what `insertIP` does to the pair table (specified by SeedPoolCoversRanges, Server.SeedPoolKeepsConsistent and Server.SeededPoolFree) |
| Server.AllocateFirstFree | folonet-server/main.go:81-105 | allocation hands out the least free pair with the checkpoint set and changes no other pair; it fails, changing nothing, exactly when no pair is free (not found) or the empty IP is free |
| Server.Allocate | folonet-server/main.go:81-105 | `getAvailableIP` (specified by AllocateFirstFree, OnePairPerName and EmptyIpBlocksRegistry) |
| Server.RegistryKnownName | folonet-server/main.go:131-137 | a known name gets its stored unit and nothing changes |
| Server.Register | folonet-server/main.go:121-163 | `registry` (specified by RegistryKnownName, RegistryNewName, RegistryIdempotent and RegistryKeepsConsistent) |
| Server.RegistryNewName | folonet-server/main.go:139-162 | a new name gets the least free pair, which records the name; the unit is stored and cached under its endpoint; a 500 answer changes nothing and happens exactly when allocation fails |
| Server.RegistryIdempotent | folonet-server/main.go:121-163 | registering a name again returns the same unit and changes nothing |
| Server.OnePairPerName | folonet-server/main.go:81-105 | in a consistent state no name holds two pairs |
| Server.RegistryKeepsConsistent | folonet-server/main.go:121-163 | registering a non-empty name keeps the tables consistent |
| Server.UnregistryFreesPair | folonet-server/main.go:165-192 | an unknown name changes nothing; a known one is deleted, its pair freed and emptied, its cache entry dropped; consistency is kept |
| Server.Unregister | folonet-server/main.go:165-192 | `unregistry` (specified by UnregistryFreesPair and RegistryThenUnregistry) |
| Server.RegistryThenUnregistry | folonet-server/main.go:121-192 | register then unregister restores the units and frees the pair, which comes back without its endpoint, and drops the cache entry |
| Server.GrowsKeepsConsistent | folonet-server/main.go:194-274 | growing the pool with free pairs keeps the tables consistent |
| Server.SeedPoolKeepsConsistent | folonet-server/main.go:194-274 | with the corrected seeding step (see Findings), `insertIP` keeps the tables consistent and the empty IP out of the pool |
| Server.RegistrySucceedsWhileFree | folonet-server/main.go:81-163 | in a consistent state a new name is registered while some pair is free |
| Server.AllFreeWithoutUnits | folonet-server/main.go:81-105 | without units every consistent pair is free |
| Server.SeededPoolRegisters | folonet-server/main.go:121-274 | after the corrected seeding (see Findings) of a pool no unit holds, the first registration succeeds |
| Server.SeededPoolFree | folonet-server/main.go:194-274 | a pool seeded with the corrected step (see Findings) that no unit holds is consistent and has a free pair |
| Server.EmptyIpBlocksRegistry | folonet-server/main.go:81-105 | a free pair under the empty IP makes every new registration fail with a duplicate key, changing nothing |
| Server.AsWrittenSeedingBlocksRegistry | folonet-server/main.go:236-249 | as written, seeding one address into an empty pool stores the empty-IP pair, after which no registration succeeds |
| Server.StartDeployment | folonet-server/main.go:276-307 | the NodePort exactly when the patch, the lookup and the wait succeed and the first NodePort is nonzero; otherwise the first failure, in source order |
| Server.StartMissIsInactive | folonet-server/main.go:40-55 | a cache miss answers inactive even when a unit is behind the endpoint; it only caches the least such unit |
| Server.Start | folonet-server/main.go:38-67 | `StartServer` (specified by StartMissIsInactive, StartHitReportsNodePort and StartAfterMissIsHit) |
| Server.StartHitReportsNodePort | folonet-server/main.go:53-66 | a hit changes nothing; it is active exactly when the deployment starts, with the unit's name and `remoteIP:NodePort` |
| Server.StartAfterMissIsHit | folonet-server/main.go:38-67 | after a miss that filled the cache, the next request is never inactive |
| Server.Stop | folonet-server/main.go:107-119 | a scale-down exactly for a cached endpoint, of the cached unit's deployment in its namespace |
| Server.StopConsultsOnlyCache | folonet-server/main.go:107-119 | a unit in the database whose endpoint is not cached is not scaled down |
| Server.SharedCacheKey | folonet-server/main.go:147-157 | on a pool whose pairs share one endpoint, every unit is cached under it, a new registration replaces the cached unit, and unregistering an earlier unit drops the later one's entry, so `StopServer` no longer finds it |
| Server.ControlPlane.constructor | folonet-server/main.go:69-79 | the tables as stored, with an empty cache |
| Server.ControlPlane.GetAvailableIP | folonet-server/main.go:81-105 | the table changes as the allocation specification says |
| Server.ControlPlane.Registry | folonet-server/main.go:121-163 | the reply and tables are as the registry specification says |
| Server.ControlPlane.Unregistry | folonet-server/main.go:165-192 | answers 200; the tables are as the unregistry specification says |
| Server.ControlPlane.StartServer | folonet-server/main.go:38-67 | the reply and cache are as the start specification says |
| Server.ControlPlane.StopServer | folonet-server/main.go:107-119 | scales down exactly for a cached endpoint |
| Server.ControlPlane.SeedOne | folonet-server/main.go:236-249 | one seeding step, as intended |
| Server.ControlPlane.InsertCidr | folonet-server/main.go:227-253 | the walk with `incrementIP` over the byte array seeds the range's addresses in order, with the corrected step (see Findings) |
| Server.ControlPlane.InsertRanges | folonet-server/main.go:263-270 | the ranges in order |
| Server.ControlPlane.InsertIP | folonet-server/main.go:194-274 | answers 200; with the corrected seeding step (see Findings) the pool becomes the seeded pool, which covers the five ranges |

## Left out

- Packet rewriting is not modelled. This covers `update_csum` and `update_packet_by_way` (folonet-ebpf/src/main.rs:116-210). The model does not capture the rewritten header bytes, the MAC copy or the `bpf_csum_diff` kernel helper. The verdict and the maps are modelled.
- Xdp.NewFlow: the byte order of ports and addresses is left out. The model keeps one order, so the cold-start range check on `port().to_be()` is a check on the port value.
- Xdp.Forward: a full PACKET_EVENT ring buffer is not modelled, so the FIN notification is always recorded. The COLD_START ring buffer is treated the same way.
- Xdp.Forward: a failing PERFORMANCE_MAP insert would panic; the model treats that insert as always succeeding.
- The ring buffers' byte sizes and the hash-map capacities other than CONNECTION and IP_MAC are not modelled.
- `L4Hdr` accessors and `Notification::from_bytes` are not modelled. They are raw pointer reads.
- CommonEvent.EncodeEvent and CommonEvent.EventRoundTrip are built on `EncodePacket`, the layout that the decoder and the source's test expect. As written, event.rs:28 calls the self-recursive packet encoder, so a Packet event never encodes either (see Findings).
- CommonLib.IsTcp: lib.rs matches on `TcpPacket`/`UdpPacket` variants that event.rs does not declare. The model maps them onto `Packet`/`Udp`. message.rs is treated the same way.
- CommonQueue.Queue.constructor does not state that the array holds default values. Nothing reads a slot before it is written, except after an underflow, and that case is stated through the stale contents.
- StateTcp.HandlePacketEvent: state/tcp.rs reads `msg.packet`, which `PacketMsg` (state/mod.rs) lacks. The model reads the packet of a Packet event. It also reads the TimeWait expiry there, which comes with no sleep, as immediate.
- `state/udp.rs` is not part of this model, so the UDP manager only forwards.
- `MsgWorker` channels and the tokio tasks are not modelled. Each message is handled to completion, in order, so concurrency and interleaving are out of scope.
- The 60-second TimeWait sleep is returned as a number of seconds, not waited for.
- `Endpoint::is_server_side` (folonet/src/endpoint.rs) is not part of this model, so it is a parameter.
- Database errors other than "not found" and the duplicate empty key are not modelled. This includes connection loss, commit failure and the errors that `db.Save(&serverUnit)` at main.go:156 ignores.
- MySQL collation is not modelled. `First` is modelled by comparing character codes.
- `net.ParseCIDR`, `ip.Mask` and the error path at main.go:228-232 are not modelled. The five literal ranges parse, so the model starts from their network addresses.
- The Kubernetes client is not modelled. Its answers are a parameter: the patch result, the NodePorts and the readiness wait, with its 200 ms polling and 60 s timeout.
- `stopServer`'s own result is ignored by the caller, so the model only names the scale-down it asks for.
- `recordMutex` is not modelled. The handlers run one at a time.
- Server.StartDeployment: the int32 NodePort is taken as an unbounded int; the source rejects only 0 (main.go:291), so a negative value is passed on and formatted with a minus sign, as in the model.
- StateManager.HandlePacketMsg: folonet/src/state/mod.rs imports `tcp::TcpStateManager` and declares only the `tcp` and `udp` modules, but state/tcp.rs defines no manager and state/tcp_fsm.rs is not declared; the model dispatches to the manager of state/tcp_fsm.rs (StateTcpFsm.TcpStateManager), the only one the source defines.
- EndpointEvents.EndpointState.HandleNotification: folonet/src/event.rs matches only `Event::Packet`, which does not cover `Event::Udp`; the model gives Udp an arm that changes nothing.
- The HTTP and gRPC plumbing is not modelled, nor is JSON encoding. Replies are datatypes.
- `insertIP` walks every address of a range, network and broadcast included. Its picker returns localIP:8000 every time, because the used set holds at most "". ServerSeed.PickNeverAdvances and ServerSeed.SeedAllOneEndpoint state this, and Server.SharedCacheKey states what it means for the cache.
- Server.ControlPlane.InsertIP: the method and the pool lemmas (ServerSeed.SeedPoolCoversRanges, Server.SeedPoolKeepsConsistent, Server.SeededPoolRegisters, Server.SeededPoolFree) run the corrected seeding step ServerSeed.SeedAddress. As written, the first missing address also stores a free pair under the empty IP (see Findings), and these promises do not hold of that code.
- Server.Unregister follows the code: `Save` with only the IP and the checkpoint set writes every column, so the freed pair also loses its local endpoint. Its next owner gets an empty endpoint until `insertIP` runs again. Server.RegistryThenUnregistry states this.
- Names are taken as given: the handlers do not reject an empty name. Server.RegistryKeepsConsistent assumes a non-empty name, because a unit named "" breaks no table but makes the "checkpoint names its unit" invariant ambiguous.

## Findings

| source | as written | input that shows it | evidently intended | confidence | as-written member | corrected member |
|---|---|---|---|---|---|---|
| folonet-server/main.go:236-249 | after `Create` of a missing address, the loop goes on to the `LocalEndpoint == ""` check with the zero-valued `ipPair` it looked up. It picks a second endpoint and `Save`s that row, whose IP is "", so a free pair under the empty IP is created. That key sorts first, so `getAvailableIP` picks it, and its `Save` is a `Create` that hits the existing key. Every registration then fails with 500 | an empty `ip_pairs` table and one `insertIP`: address 192.168.99.0 is missing, so the pair ("", "", "10.251.254.100:8000") is stored too | create the missing pair with an endpoint and go to the next address (`continue` after `Create`) | not executed | ServerSeed.SeedAddressAsWritten (shown by ServerSeed.AsWrittenStoresEmptyIp and Server.AsWrittenSeedingBlocksRegistry) | ServerSeed.SeedAddress (proved by ServerSeed.SeedPoolCoversRanges, Server.SeedPoolKeepsConsistent and Server.SeededPoolRegisters) |
| folonet-common/src/event.rs:101-105 | `From<&Packet> for u128` is `value.into()`, which resolves to the same impl, so the conversion recurses without end and overflows the stack | the packet of the test at event.rs:109-123 (ACK and SYN, ack_seq 128, seq 129) | the inverse of `From<u128> for Packet`: flags at bits 64-95, ack_seq at 32-63, seq at 0-31 | not executed | CommonEvent.EncodePacketAsWritten (shown by CommonEvent.AsWrittenEncoderNeverReturns and CommonEvent.TestPacketRoundTrip) | CommonEvent.EncodePacket (proved by CommonEvent.PacketRoundTrip and CommonEvent.EventRoundTrip) |
