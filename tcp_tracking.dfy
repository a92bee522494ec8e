/**
 * The per-endpoint TCP tracking that folonet/src/state/tcp.rs,
 * folonet/src/state/tcp_fsm.rs and folonet/src/event.rs each carry a copy
 * of: a packet seen at an endpoint is classified into inputs of the TCP
 * state machine (from its SYN/FIN/ACK flags and the last SYN or FIN seen in
 * the other direction), the inputs are consumed in order, and the packet's
 * own SYN or FIN is remembered for the next classification.
 */
module TcpTracking {
  import opened Wrappers
  import opened CommonEvent
  import opened CommonLib
  import opened TcpFsm

  /** Whether the tracked endpoint sent the packet (From) or is its receiver (To). */
  datatype Direction = From | To

  /** The last SYN or FIN seen in one direction, with its sequence number. */
  datatype SpecialPacket = Syn(seqNum: bv32) | Fin(seqNum: bv32)

  /** `seq + 1 == ack_seq` on u32, wrapping at 2^32. */
  predicate Acknowledges(sp: SpecialPacket, p: Packet) {
    sp.seqNum + 1 == p.ackSeq
  }

  /** Position of an input in the order the classifiers emit them. */
  function Rank(i: TcpInput): nat {
    match i
    case RecvAckForFin | ReceiveSynAck | RecvAckForSyn | SendAckForFin | SendAckForSyn => 0
    case ReceiveFin | SendSyn | SendSynAck => 1
    case ReceiveSyn | SendFin => 2
    case _ => 3
  }

  /** Strictly increasing rank: no input twice, and the acknowledgement first. */
  predicate InEmitOrder(inputs: seq<TcpInput>) {
    forall j, k :: 0 <= j < k < |inputs| ==> Rank(inputs[j]) < Rank(inputs[k])
  }

  /** At most one input, and of the given rank. */
  predicate AtMostOneOfRank(s: seq<TcpInput>, r: nat) {
    |s| <= 1 && forall x :: x in s ==> Rank(x) == r
  }

  /** Three parts of at most one input each, of ranks 0, 1 and 2, are in emit order. */
  lemma EmitOrderOfParts(a: seq<TcpInput>, b: seq<TcpInput>, c: seq<TcpInput>)
    requires AtMostOneOfRank(a, 0) && AtMostOneOfRank(b, 1) && AtMostOneOfRank(c, 2)
    ensures InEmitOrder(a + b + c)
  {
    var s := a + b + c;
    forall i | 0 <= i < |s|
      ensures Rank(s[i]) == (if i < |a| then 0 else if i < |a| + |b| then 1 else 2)
    {
      if i < |a| {
        assert s[i] == a[i] && a[i] in a;
      } else if i < |a| + |b| {
        assert s[i] == b[i - |a|] && b[i - |a|] in b;
      } else {
        assert s[i] == c[i - |a| - |b|] && c[i - |a| - |b|] in c;
      }
    }
  }

  /** The acknowledgement part of the receive rules. */
  function ReceiveAckInput(sent: Option<SpecialPacket>, p: Packet): seq<TcpInput> {
    if p.IsAck() && sent.Some? && Acknowledges(sent.value, p) then
      match sent.value
      case Fin(_) => [RecvAckForFin]
      case Syn(_) => if p.IsSyn() then [ReceiveSynAck] else [RecvAckForSyn]
    else []
  }

  /** Inputs for a packet the endpoint receives, given the SYN or FIN it last sent. */
  function CheckReceiveInput(sent: Option<SpecialPacket>, p: Packet): seq<TcpInput> {
    ReceiveAckInput(sent, p) + (if p.IsFin() then [ReceiveFin] else []) + (if p.IsSyn() then [ReceiveSyn] else [])
  }

  /** The acknowledgement part of the receive rules: at most one input, which one depends on the sent slot. */
  lemma ReceiveAckInputRules(sent: Option<SpecialPacket>, p: Packet)
    ensures var ack := ReceiveAckInput(sent, p);
      && AtMostOneOfRank(ack, 0)
      && (forall x :: x in ack ==> x in {RecvAckForFin, ReceiveSynAck, RecvAckForSyn})
      && (RecvAckForFin in ack <==> p.IsAck() && sent.Some? && sent.value.Fin? && Acknowledges(sent.value, p))
      && (ReceiveSynAck in ack <==> p.IsAck() && p.IsSyn() && sent.Some? && sent.value.Syn? && Acknowledges(sent.value, p))
      && (RecvAckForSyn in ack <==> p.IsAck() && !p.IsSyn() && sent.Some? && sent.value.Syn? && Acknowledges(sent.value, p))
  {
    if p.IsAck() && sent.Some? && Acknowledges(sent.value, p) {
      if sent.value.Fin? {
        assert ReceiveAckInput(sent, p) == [RecvAckForFin];
      } else if p.IsSyn() {
        assert ReceiveAckInput(sent, p) == [ReceiveSynAck];
      } else {
        assert ReceiveAckInput(sent, p) == [RecvAckForSyn];
      }
    } else {
      assert ReceiveAckInput(sent, p) == [];
    }
  }

  /**
   * The receive rules: an ACK of the sent FIN gives RecvAckForFin, an ACK of
   * the sent SYN gives ReceiveSynAck (with SYN) or RecvAckForSyn (without);
   * a FIN gives ReceiveFin and a SYN ReceiveSyn; nothing else, in that order.
   */
  lemma CheckReceiveInputRules(sent: Option<SpecialPacket>, p: Packet)
    ensures var inputs := CheckReceiveInput(sent, p);
      && (RecvAckForFin in inputs <==> p.IsAck() && sent.Some? && sent.value.Fin? && Acknowledges(sent.value, p))
      && (ReceiveSynAck in inputs <==> p.IsAck() && p.IsSyn() && sent.Some? && sent.value.Syn? && Acknowledges(sent.value, p))
      && (RecvAckForSyn in inputs <==> p.IsAck() && !p.IsSyn() && sent.Some? && sent.value.Syn? && Acknowledges(sent.value, p))
      && (ReceiveFin in inputs <==> p.IsFin())
      && (ReceiveSyn in inputs <==> p.IsSyn())
      && (forall x :: x in inputs ==> x in {RecvAckForFin, ReceiveSynAck, RecvAckForSyn, ReceiveFin, ReceiveSyn})
      && InEmitOrder(inputs)
  {
    var ack := ReceiveAckInput(sent, p);
    var fin: seq<TcpInput> := if p.IsFin() then [ReceiveFin] else [];
    var syn: seq<TcpInput> := if p.IsSyn() then [ReceiveSyn] else [];
    ReceiveAckInputRules(sent, p);
    EmitOrderOfParts(ack, fin, syn);
  }

  /** The acknowledgement part of the send rules. */
  function SendAckInput(received: Option<SpecialPacket>, p: Packet): seq<TcpInput> {
    if p.IsAck() && received.Some? && Acknowledges(received.value, p) then
      match received.value
      case Fin(_) => [SendAckForFin]
      case Syn(_) => [SendAckForSyn]
    else []
  }

  /** Inputs for a packet the endpoint sends, given the SYN or FIN it last received. */
  function CheckSendInput(received: Option<SpecialPacket>, p: Packet): seq<TcpInput> {
    SendAckInput(received, p)
      + (if p.IsSyn() then (if p.IsAck() then [SendSynAck] else [SendSyn]) else [])
      + (if p.IsFin() then [SendFin] else [])
  }

  /** The acknowledgement part of the send rules: at most one input, which one depends on the received slot. */
  lemma SendAckInputRules(received: Option<SpecialPacket>, p: Packet)
    ensures var ack := SendAckInput(received, p);
      && AtMostOneOfRank(ack, 0)
      && (forall x :: x in ack ==> x in {SendAckForFin, SendAckForSyn})
      && (SendAckForFin in ack <==> p.IsAck() && received.Some? && received.value.Fin? && Acknowledges(received.value, p))
      && (SendAckForSyn in ack <==> p.IsAck() && received.Some? && received.value.Syn? && Acknowledges(received.value, p))
  {
    if p.IsAck() && received.Some? && Acknowledges(received.value, p) {
      if received.value.Fin? {
        assert SendAckInput(received, p) == [SendAckForFin];
      } else {
        assert SendAckInput(received, p) == [SendAckForSyn];
      }
    } else {
      assert SendAckInput(received, p) == [];
    }
  }

  /**
   * The send rules: an ACK of the received FIN or SYN gives SendAckForFin or
   * SendAckForSyn; a SYN gives SendSynAck (with ACK) or SendSyn (without);
   * a FIN gives SendFin; nothing else, in that order.
   */
  lemma CheckSendInputRules(received: Option<SpecialPacket>, p: Packet)
    ensures var inputs := CheckSendInput(received, p);
      && (SendAckForFin in inputs <==> p.IsAck() && received.Some? && received.value.Fin? && Acknowledges(received.value, p))
      && (SendAckForSyn in inputs <==> p.IsAck() && received.Some? && received.value.Syn? && Acknowledges(received.value, p))
      && (SendSynAck in inputs <==> p.IsSyn() && p.IsAck())
      && (SendSyn in inputs <==> p.IsSyn() && !p.IsAck())
      && (SendFin in inputs <==> p.IsFin())
      && (forall x :: x in inputs ==> x in {SendAckForFin, SendAckForSyn, SendSynAck, SendSyn, SendFin})
      && InEmitOrder(inputs)
  {
    var ack := SendAckInput(received, p);
    var syn: seq<TcpInput> := if p.IsSyn() then (if p.IsAck() then [SendSynAck] else [SendSyn]) else [];
    var fin: seq<TcpInput> := if p.IsFin() then [SendFin] else [];
    SendAckInputRules(received, p);
    EmitOrderOfParts(ack, syn, fin);
  }

  /** The machine's state and the two remembered special packets of one endpoint. */
  datatype FsmRecord = FsmRecord(fsm: TcpState, received: Option<SpecialPacket>, sent: Option<SpecialPacket>)

  /** A fresh endpoint: Listen when server-side (Closed, then PassiveOpen), Closed otherwise. */
  function InitialRecord(serverSide: bool): (r: FsmRecord)
    ensures r.fsm == (if serverSide then Listen else Closed)
    ensures r.received == None && r.sent == None
  {
    FsmRecord(if serverSide then Consume(INITIAL, PassiveOpen) else INITIAL, None, None)
  }

  /** The classifier for the packet's direction, reading the slot of the opposite direction. */
  function CheckInput(r: FsmRecord, p: Packet, dir: Direction): seq<TcpInput> {
    match dir
    case From => CheckSendInput(r.received, p)
    case To => CheckReceiveInput(r.sent, p)
  }

  /** One `consume`: an input with no transition is an error the caller ignores, so the state stays. */
  function Consume(s: TcpState, i: TcpInput): TcpState {
    match Transition(s, i)
    case Some(t) => t
    case None => s
  }

  /** Consuming inputs in list order, each one ignored when it has no transition. */
  function ConsumeAll(s: TcpState, inputs: seq<TcpInput>): TcpState
    decreases |inputs|
  {
    if inputs == [] then s else ConsumeAll(Consume(s, inputs[0]), inputs[1..])
  }

  lemma {:induction false} ConsumeAllSnoc(s: TcpState, inputs: seq<TcpInput>, i: TcpInput)
    ensures ConsumeAll(s, inputs + [i]) == Consume(ConsumeAll(s, inputs), i)
    decreases |inputs|
  {
    if inputs == [] {
      assert inputs + [i] == [i];
    } else {
      assert (inputs + [i])[0] == inputs[0] && (inputs + [i])[1..] == inputs[1..] + [i];
      ConsumeAllSnoc(Consume(s, inputs[0]), inputs[1..], i);
    }
  }

  /** When every input has a transition, tolerant consumption ends where the strict run does. */
  lemma {:induction false} ConsumeAllAgreesWithRun(s: TcpState, inputs: seq<TcpInput>)
    requires Run(s, inputs).Some?
    ensures ConsumeAll(s, inputs) == Run(s, inputs).value
    decreases |inputs|
  {
    if inputs != [] {
      ConsumeAllAgreesWithRun(Transition(s, inputs[0]).value, inputs[1..]);
    }
  }

  /** A packet's special part: its FIN if set (FIN takes precedence), else its SYN, else nothing. */
  function SpecialOf(p: Packet): (sp: Option<SpecialPacket>)
    ensures sp.Some? <==> p.IsFin() || p.IsSyn()
    ensures sp.Some? ==> sp.value.seqNum == p.seqNum && (sp.value.Fin? <==> p.IsFin())
  {
    if p.IsFin() then Some(Fin(p.seqNum))
    else if p.IsSyn() then Some(Syn(p.seqNum))
    else None
  }

  /** Remembering the packet's SYN or FIN: in the sent slot when sending, in the received slot otherwise. */
  function RememberSpecial(r: FsmRecord, p: Packet, dir: Direction): (r': FsmRecord)
    ensures r'.fsm == r.fsm
    ensures !p.IsFin() && !p.IsSyn() ==> r' == r
    ensures dir == From ==> r'.received == r.received && (SpecialOf(p).Some? ==> r'.sent == SpecialOf(p))
    ensures dir == To ==> r'.sent == r.sent && (SpecialOf(p).Some? ==> r'.received == SpecialOf(p))
  {
    match SpecialOf(p)
    case None => r
    case Some(sp) =>
      match dir
      case From => r.(sent := Some(sp))
      case To => r.(received := Some(sp))
  }

  /** Classify with the slots as they were, consume the inputs, then remember the packet. */
  function Track(r: FsmRecord, p: Packet, dir: Direction): FsmRecord {
    RememberSpecial(r.(fsm := ConsumeAll(r.fsm, CheckInput(r, p, dir))), p, dir)
  }

  /** Leaving TimeWait through TimeExpired; any other state stays. */
  function Expire(r: FsmRecord): (r': FsmRecord)
    ensures r'.fsm != TimeWait
    ensures r.fsm == TimeWait ==> r'.fsm == Closed
    ensures r'.received == r.received && r'.sent == r.sent
    ensures r.fsm != TimeWait ==> r' == r
  {
    if r.fsm == TimeWait then r.(fsm := Consume(TimeWait, TimeExpired)) else r
  }

  /** Everything an endpoint does with one packet, the TimeWait expiry included. */
  function HandlePacket(r: FsmRecord, p: Packet, dir: Direction): (r': FsmRecord)
    ensures r'.fsm != TimeWait
  {
    Expire(Track(r, p, dir))
  }

  /** A packet with no flags set leaves an endpoint untouched in every state but TimeWait. */
  lemma BarePacketChangesNothing(r: FsmRecord, p: Packet, dir: Direction)
    requires !p.IsSyn() && !p.IsFin() && !p.IsAck()
    requires r.fsm != TimeWait
    ensures HandlePacket(r, p, dir) == r
  {
    assert CheckInput(r, p, dir) == [];
  }

  /** The endpoint's tracking state as folonet keeps it, updated in place. */
  class TcpFsmState {
    const e: KEndpoint
    var fsm: TcpState
    var received: Option<SpecialPacket>
    var sent: Option<SpecialPacket>

    function Snapshot(): FsmRecord
      reads this
    {
      FsmRecord(fsm, received, sent)
    }

    constructor (e: KEndpoint, serverSide: bool)
      ensures this.e == e
      ensures Snapshot() == InitialRecord(serverSide)
    {
      this.e := e;
      var s := INITIAL;
      if serverSide {
        s := Consume(s, PassiveOpen);
      }
      fsm := s;
      received := None;
      sent := None;
    }

    predicate IsClosed()
      reads this
      ensures IsClosed() <==> Snapshot().fsm == Closed
    {
      fsm == Closed
    }

    /** Consume the inputs one by one, in order. */
    method ConsumeInputs(inputs: seq<TcpInput>)
      modifies this
      ensures fsm == ConsumeAll(old(fsm), inputs)
      ensures received == old(received) && sent == old(sent)
    {
      for k := 0 to |inputs|
        invariant fsm == ConsumeAll(old(fsm), inputs[..k])
        invariant received == old(received) && sent == old(sent)
      {
        ConsumeAllSnoc(old(fsm), inputs[..k], inputs[k]);
        assert inputs[..k + 1] == inputs[..k] + [inputs[k]];
        match Transition(fsm, inputs[k])
        case Some(t) => fsm := t;
        case None =>
      }
      assert inputs[..|inputs|] == inputs;
    }

    /** Classify, consume and remember one packet; TimeWait is left to the caller. */
    method TrackPacket(p: Packet, dir: Direction)
      modifies this
      ensures Snapshot() == Track(old(Snapshot()), p, dir)
    {
      var inputs := CheckInput(Snapshot(), p, dir);
      ConsumeInputs(inputs);
      match SpecialOf(p)
      case None =>
      case Some(sp) =>
        match dir
        case From => sent := Some(sp);
        case To => received := Some(sp);
    }

    /** Consume TimeExpired when resting in TimeWait. */
    method ExpireTimeWait()
      modifies this
      ensures Snapshot() == Expire(old(Snapshot()))
    {
      if fsm == TimeWait {
        fsm := Consume(fsm, TimeExpired);
      }
    }
  }

  /** Both endpoints of one connection. */
  datatype ConnRecord = ConnRecord(client: FsmRecord, server: FsmRecord)

  /** One packet seen by both endpoints, client first. */
  function ConnectionStep(c: ConnRecord, p: Packet, clientDir: Direction, serverDir: Direction): ConnRecord {
    ConnRecord(HandlePacket(c.client, p, clientDir), HandlePacket(c.server, p, serverDir))
  }

  const SYN_ONLY: bv32 := SYN
  const SYN_ACK: bv32 := SYN | ACK
  const ACK_ONLY: bv32 := ACK
  const FIN_ACK: bv32 := FIN | ACK

  /** The client sends its SYN: SendSyn takes Closed to SynSent. */
  lemma SynAtClient(x: bv32, a: bv32)
    ensures HandlePacket(InitialRecord(false), Packet.Packet(SYN_ONLY, a, x), From)
      == FsmRecord(SynSent, None, Some(Syn(x)))
  {
    var p := Packet.Packet(SYN_ONLY, a, x);
    assert p.IsSyn() && !p.IsFin() && !p.IsAck();
    assert CheckInput(InitialRecord(false), p, From) == [SendSyn];
    assert ConsumeAll(Closed, [SendSyn]) == SynSent;
  }

  /** The listening server receives the SYN: ReceiveSyn takes Listen to ListenReceiveSyn. */
  lemma SynAtServer(x: bv32, a: bv32)
    ensures HandlePacket(InitialRecord(true), Packet.Packet(SYN_ONLY, a, x), To)
      == FsmRecord(ListenReceiveSyn, Some(Syn(x)), None)
  {
    var p := Packet.Packet(SYN_ONLY, a, x);
    assert p.IsSyn() && !p.IsFin() && !p.IsAck();
    assert CheckInput(InitialRecord(true), p, To) == [ReceiveSyn];
    assert ConsumeAll(Listen, [ReceiveSyn]) == ListenReceiveSyn;
  }

  /** The client receives the server's SYN-ACK acknowledging x: ReceiveSynAck, then an ignored ReceiveSyn. */
  lemma SynAckAtClient(x: bv32, y: bv32)
    ensures HandlePacket(FsmRecord(SynSent, None, Some(Syn(x))), Packet.Packet(SYN_ACK, x + 1, y), To)
      == FsmRecord(ReceiveSynAckReceiveSynAck, Some(Syn(y)), Some(Syn(x)))
  {
    var r := FsmRecord(SynSent, None, Some(Syn(x)));
    var p := Packet.Packet(SYN_ACK, x + 1, y);
    assert p.IsSyn() && !p.IsFin() && p.IsAck() && Acknowledges(Syn(x), p);
    assert CheckInput(r, p, To) == [ReceiveSynAck, ReceiveSyn];
    assert ConsumeAll(SynSent, [ReceiveSynAck, ReceiveSyn]) == ReceiveSynAckReceiveSynAck;
    assert Track(r, p, To) == FsmRecord(ReceiveSynAckReceiveSynAck, Some(Syn(y)), Some(Syn(x)));
  }

  /** The server sends its SYN-ACK: an ignored SendAckForSyn, then SendSynAck. */
  lemma SynAckAtServer(x: bv32, y: bv32)
    ensures HandlePacket(FsmRecord(ListenReceiveSyn, Some(Syn(x)), None), Packet.Packet(SYN_ACK, x + 1, y), From)
      == FsmRecord(SynReceived, Some(Syn(x)), Some(Syn(y)))
  {
    var r := FsmRecord(ListenReceiveSyn, Some(Syn(x)), None);
    var p := Packet.Packet(SYN_ACK, x + 1, y);
    assert p.IsSyn() && !p.IsFin() && p.IsAck() && Acknowledges(Syn(x), p);
    assert CheckInput(r, p, From) == [SendAckForSyn, SendSynAck];
    assert ConsumeAll(ListenReceiveSyn, [SendAckForSyn, SendSynAck]) == SynReceived;
    assert Track(r, p, From) == FsmRecord(SynReceived, Some(Syn(x)), Some(Syn(y)));
  }

  /** The client sends the ACK of y: SendAckForSyn completes its open. */
  lemma AckAtClient(x: bv32, y: bv32)
    ensures HandlePacket(FsmRecord(ReceiveSynAckReceiveSynAck, Some(Syn(y)), Some(Syn(x))),
                         Packet.Packet(ACK_ONLY, y + 1, x + 1), From)
      == FsmRecord(Established, Some(Syn(y)), Some(Syn(x)))
  {
    var r := FsmRecord(ReceiveSynAckReceiveSynAck, Some(Syn(y)), Some(Syn(x)));
    var p := Packet.Packet(ACK_ONLY, y + 1, x + 1);
    assert !p.IsSyn() && !p.IsFin() && p.IsAck() && Acknowledges(Syn(y), p);
    assert CheckInput(r, p, From) == [SendAckForSyn];
    assert ConsumeAll(ReceiveSynAckReceiveSynAck, [SendAckForSyn]) == Established;
  }

  /** The server receives the ACK of y: RecvAckForSyn takes SynReceived to Established. */
  lemma AckAtServer(x: bv32, y: bv32)
    ensures HandlePacket(FsmRecord(SynReceived, Some(Syn(x)), Some(Syn(y))),
                         Packet.Packet(ACK_ONLY, y + 1, x + 1), To)
      == FsmRecord(Established, Some(Syn(x)), Some(Syn(y)))
  {
    var r := FsmRecord(SynReceived, Some(Syn(x)), Some(Syn(y)));
    var p := Packet.Packet(ACK_ONLY, y + 1, x + 1);
    assert !p.IsSyn() && !p.IsFin() && p.IsAck() && Acknowledges(Syn(y), p);
    assert CheckInput(r, p, To) == [RecvAckForSyn];
    assert ConsumeAll(SynReceived, [RecvAckForSyn]) == Established;
  }

  /**
   * The three-way handshake: a client SYN (seq x), the server's SYN-ACK
   * (seq y, acknowledging x), the client's ACK of y take a fresh client
   * (Closed) and a fresh server-side endpoint (Listen) to Established.
   */
  lemma ThreeWayHandshake(x: bv32, y: bv32, a: bv32)
    ensures var c0 := ConnRecord(InitialRecord(false), InitialRecord(true));
      var c1 := ConnectionStep(c0, Packet.Packet(SYN_ONLY, a, x), From, To);
      var c2 := ConnectionStep(c1, Packet.Packet(SYN_ACK, x + 1, y), To, From);
      var c3 := ConnectionStep(c2, Packet.Packet(ACK_ONLY, y + 1, x + 1), From, To);
      c3.client.fsm == Established && c3.server.fsm == Established
  {
    SynAtClient(x, a);
    SynAtServer(x, a);
    SynAckAtClient(x, y);
    SynAckAtServer(x, y);
    AckAtClient(x, y);
    AckAtServer(x, y);
  }

  /** Client endpoint, state after the handshake, sending FIN|ACK (seq u): SendFin. */
  lemma CloseFinAtClient(x: bv32, y: bv32, u: bv32)
    ensures HandlePacket(FsmRecord(Established, Some(Syn(y)), Some(Syn(x))), Packet.Packet(FIN_ACK, y + 1, u), From)
      == FsmRecord(FinWait1, Some(Syn(y)), Some(Fin(u)))
  {
    var r := FsmRecord(Established, Some(Syn(y)), Some(Syn(x)));
    var p := Packet.Packet(FIN_ACK, y + 1, u);
    assert !p.IsSyn() && p.IsFin() && p.IsAck() && Acknowledges(Syn(y), p);
    assert CheckInput(r, p, From) == [SendAckForSyn, SendFin];
    assert ConsumeAll(Established, [SendAckForSyn, SendFin]) == FinWait1;
    assert Track(r, p, From) == FsmRecord(FinWait1, Some(Syn(y)), Some(Fin(u)));
  }

  /** Server endpoint receiving the client's FIN|ACK: ReceiveFin. */
  lemma CloseFinAtServer(x: bv32, y: bv32, u: bv32)
    ensures HandlePacket(FsmRecord(Established, Some(Syn(x)), Some(Syn(y))), Packet.Packet(FIN_ACK, y + 1, u), To)
      == FsmRecord(CloseWait, Some(Fin(u)), Some(Syn(y)))
  {
    var r := FsmRecord(Established, Some(Syn(x)), Some(Syn(y)));
    var p := Packet.Packet(FIN_ACK, y + 1, u);
    assert !p.IsSyn() && p.IsFin() && p.IsAck() && Acknowledges(Syn(y), p);
    assert CheckInput(r, p, To) == [RecvAckForSyn, ReceiveFin];
    assert ConsumeAll(Established, [RecvAckForSyn, ReceiveFin]) == CloseWait;
    assert Track(r, p, To) == FsmRecord(CloseWait, Some(Fin(u)), Some(Syn(y)));
  }

  /** Client endpoint receiving the server's ACK of its FIN: RecvAckForFin. */
  lemma CloseAckAtClient(y: bv32, u: bv32, v: bv32)
    ensures HandlePacket(FsmRecord(FinWait1, Some(Syn(y)), Some(Fin(u))), Packet.Packet(ACK_ONLY, u + 1, v), To)
      == FsmRecord(FinWait2, Some(Syn(y)), Some(Fin(u)))
  {
    var r := FsmRecord(FinWait1, Some(Syn(y)), Some(Fin(u)));
    var p := Packet.Packet(ACK_ONLY, u + 1, v);
    assert !p.IsSyn() && !p.IsFin() && p.IsAck() && Acknowledges(Fin(u), p);
    assert CheckInput(r, p, To) == [RecvAckForFin];
    assert ConsumeAll(FinWait1, [RecvAckForFin]) == FinWait2;
  }

  /** Server endpoint sending the ACK of the client's FIN: SendAckForFin, which CloseWait ignores. */
  lemma CloseAckAtServer(y: bv32, u: bv32, v: bv32)
    ensures HandlePacket(FsmRecord(CloseWait, Some(Fin(u)), Some(Syn(y))), Packet.Packet(ACK_ONLY, u + 1, v), From)
      == FsmRecord(CloseWait, Some(Fin(u)), Some(Syn(y)))
  {
    var r := FsmRecord(CloseWait, Some(Fin(u)), Some(Syn(y)));
    var p := Packet.Packet(ACK_ONLY, u + 1, v);
    assert !p.IsSyn() && !p.IsFin() && p.IsAck() && Acknowledges(Fin(u), p);
    assert CheckInput(r, p, From) == [SendAckForFin];
    assert ConsumeAll(CloseWait, [SendAckForFin]) == CloseWait;
  }

  /** Client endpoint receiving the server's FIN|ACK (seq v): ReceiveFin. */
  lemma ServerFinAtClient(y: bv32, u: bv32, v: bv32)
    ensures HandlePacket(FsmRecord(FinWait2, Some(Syn(y)), Some(Fin(u))), Packet.Packet(FIN_ACK, u + 1, v), To)
      == FsmRecord(FinWait2ReceiveFin, Some(Fin(v)), Some(Fin(u)))
  {
    var r := FsmRecord(FinWait2, Some(Syn(y)), Some(Fin(u)));
    var p := Packet.Packet(FIN_ACK, u + 1, v);
    assert !p.IsSyn() && p.IsFin() && p.IsAck() && Acknowledges(Fin(u), p);
    assert CheckInput(r, p, To) == [RecvAckForFin, ReceiveFin];
    assert ConsumeAll(FinWait2, [RecvAckForFin, ReceiveFin]) == FinWait2ReceiveFin;
    assert Track(r, p, To) == FsmRecord(FinWait2ReceiveFin, Some(Fin(v)), Some(Fin(u)));
  }

  /** Server endpoint sending its own FIN|ACK: SendFin. */
  lemma ServerFinAtServer(y: bv32, u: bv32, v: bv32)
    ensures HandlePacket(FsmRecord(CloseWait, Some(Fin(u)), Some(Syn(y))), Packet.Packet(FIN_ACK, u + 1, v), From)
      == FsmRecord(LastAck, Some(Fin(u)), Some(Fin(v)))
  {
    var r := FsmRecord(CloseWait, Some(Fin(u)), Some(Syn(y)));
    var p := Packet.Packet(FIN_ACK, u + 1, v);
    assert !p.IsSyn() && p.IsFin() && p.IsAck() && Acknowledges(Fin(u), p);
    assert CheckInput(r, p, From) == [SendAckForFin, SendFin];
    assert ConsumeAll(CloseWait, [SendAckForFin, SendFin]) == LastAck;
    assert Track(r, p, From) == FsmRecord(LastAck, Some(Fin(u)), Some(Fin(v)));
  }

  /** Client endpoint sending the last ACK: TimeWait, left at once through TimeExpired. */
  lemma LastAckAtClient(u: bv32, v: bv32)
    ensures HandlePacket(FsmRecord(FinWait2ReceiveFin, Some(Fin(v)), Some(Fin(u))), Packet.Packet(ACK_ONLY, v + 1, u + 1), From)
      == FsmRecord(Closed, Some(Fin(v)), Some(Fin(u)))
  {
    var r := FsmRecord(FinWait2ReceiveFin, Some(Fin(v)), Some(Fin(u)));
    var p := Packet.Packet(ACK_ONLY, v + 1, u + 1);
    assert !p.IsSyn() && !p.IsFin() && p.IsAck() && Acknowledges(Fin(v), p);
    assert CheckInput(r, p, From) == [SendAckForFin];
    assert ConsumeAll(FinWait2ReceiveFin, [SendAckForFin]) == TimeWait;
  }

  /** Server endpoint receiving the last ACK: RecvAckForFin takes LastAck to Closed. */
  lemma LastAckAtServer(u: bv32, v: bv32)
    ensures HandlePacket(FsmRecord(LastAck, Some(Fin(u)), Some(Fin(v))), Packet.Packet(ACK_ONLY, v + 1, u + 1), To)
      == FsmRecord(Closed, Some(Fin(u)), Some(Fin(v)))
  {
    var r := FsmRecord(LastAck, Some(Fin(u)), Some(Fin(v)));
    var p := Packet.Packet(ACK_ONLY, v + 1, u + 1);
    assert !p.IsSyn() && !p.IsFin() && p.IsAck() && Acknowledges(Fin(v), p);
    assert CheckInput(r, p, To) == [RecvAckForFin];
    assert ConsumeAll(LastAck, [RecvAckForFin]) == Closed;
  }

  /**
   * The four-way close after the handshake: the client's FIN (seq u), the
   * server's ACK of it, the server's FIN (seq v), the client's ACK of that
   * bring both endpoints back to Closed.
   */
  lemma FourWayClose(x: bv32, y: bv32, u: bv32, v: bv32)
    ensures var c0 := ConnRecord(FsmRecord(Established, Some(Syn(y)), Some(Syn(x))),
                                 FsmRecord(Established, Some(Syn(x)), Some(Syn(y))));
      var c1 := ConnectionStep(c0, Packet.Packet(FIN_ACK, y + 1, u), From, To);
      var c2 := ConnectionStep(c1, Packet.Packet(ACK_ONLY, u + 1, v), To, From);
      var c3 := ConnectionStep(c2, Packet.Packet(FIN_ACK, u + 1, v), To, From);
      var c4 := ConnectionStep(c3, Packet.Packet(ACK_ONLY, v + 1, u + 1), From, To);
      c4.client.fsm == Closed && c4.server.fsm == Closed
  {
    CloseFinAtClient(x, y, u);
    CloseFinAtServer(x, y, u);
    CloseAckAtClient(y, u, v);
    CloseAckAtServer(y, u, v);
    ServerFinAtClient(y, u, v);
    ServerFinAtServer(y, u, v);
    LastAckAtClient(u, v);
    LastAckAtServer(u, v);
  }
}
