/**
 * The TCP connection-tracking state machine of folonet/src/tcp_fsm.rs: the
 * connection state diagram of RFC 793, section 3.2 (Figure 6), with extra
 * intermediate states where one arc of the diagram is observed as two
 * separate packets (a received SYN, then the SYN-ACK sent in reply).
 */
module TcpFsm {
  import opened Wrappers

  datatype TcpState =
    | Closed | Listen | ListenReceiveSyn | SynSent | SynSentReceiveSyn
    | ReceiveSynAckReceiveSynAck | SynReceived | Established | CloseWait
    | LastAck | FinWait1 | FinWait1ReceiveFin | FinWait2 | FinWait2ReceiveFin
    | Closing | TimeWait

  datatype TcpInput =
    | PassiveOpen | SendSyn | ReceiveSyn | SendSynAck | ReceiveSynAck
    | SendAckForSyn | RecvAckForSyn | SendFin | ReceiveFin | RecvAckForFin
    | SendAckForFin | TimeExpired

  /** `TCP(Closed)`: the machine starts in Closed. */
  const INITIAL: TcpState := Closed

  datatype Row = Row(from: TcpState, input: TcpInput, to: TcpState)

  /** The transition table, one row per arc, in the order it is declared. */
  const TABLE: seq<Row> := [
    Row(Closed, PassiveOpen, Listen),
    Row(Closed, SendSyn, SynSent),
    Row(Listen, ReceiveSyn, ListenReceiveSyn),
    Row(ListenReceiveSyn, SendSynAck, SynReceived),
    Row(SynSent, ReceiveSyn, SynSentReceiveSyn),
    Row(SynSent, ReceiveSynAck, ReceiveSynAckReceiveSynAck),
    Row(SynSentReceiveSyn, SendAckForSyn, SynReceived),
    Row(ReceiveSynAckReceiveSynAck, SendAckForSyn, Established),
    Row(SynReceived, RecvAckForSyn, Established),
    Row(Established, SendFin, FinWait1),
    Row(Established, ReceiveFin, CloseWait),
    Row(CloseWait, SendFin, LastAck),
    Row(LastAck, RecvAckForFin, Closed),
    Row(FinWait1, RecvAckForFin, FinWait2),
    Row(FinWait1, ReceiveFin, FinWait1ReceiveFin),
    Row(FinWait1ReceiveFin, SendAckForFin, Closing),
    Row(FinWait2, ReceiveFin, FinWait2ReceiveFin),
    Row(FinWait2ReceiveFin, SendAckForFin, TimeWait),
    Row(Closing, RecvAckForFin, TimeWait),
    Row(TimeWait, TimeExpired, Closed)
  ]

  /** The transition function the state machine consumes inputs with; None: no transition. */
  function Transition(s: TcpState, i: TcpInput): Option<TcpState> {
    match s
    case Closed =>
      if i == PassiveOpen then Some(Listen) else if i == SendSyn then Some(SynSent) else None
    case Listen => if i == ReceiveSyn then Some(ListenReceiveSyn) else None
    case ListenReceiveSyn => if i == SendSynAck then Some(SynReceived) else None
    case SynSent =>
      if i == ReceiveSyn then Some(SynSentReceiveSyn)
      else if i == ReceiveSynAck then Some(ReceiveSynAckReceiveSynAck)
      else None
    case SynSentReceiveSyn => if i == SendAckForSyn then Some(SynReceived) else None
    case ReceiveSynAckReceiveSynAck => if i == SendAckForSyn then Some(Established) else None
    case SynReceived => if i == RecvAckForSyn then Some(Established) else None
    case Established =>
      if i == SendFin then Some(FinWait1) else if i == ReceiveFin then Some(CloseWait) else None
    case CloseWait => if i == SendFin then Some(LastAck) else None
    case LastAck => if i == RecvAckForFin then Some(Closed) else None
    case FinWait1 =>
      if i == RecvAckForFin then Some(FinWait2)
      else if i == ReceiveFin then Some(FinWait1ReceiveFin)
      else None
    case FinWait1ReceiveFin => if i == SendAckForFin then Some(Closing) else None
    case FinWait2 => if i == ReceiveFin then Some(FinWait2ReceiveFin) else None
    case FinWait2ReceiveFin => if i == SendAckForFin then Some(TimeWait) else None
    case Closing => if i == RecvAckForFin then Some(TimeWait) else None
    case TimeWait => if i == TimeExpired then Some(Closed) else None
  }

  /** No (state, input) pair is declared twice: the table is deterministic. */
  lemma TableDeterministic()
    ensures forall j, k :: 0 <= j < k < |TABLE| ==>
      (TABLE[j].from, TABLE[j].input) != (TABLE[k].from, TABLE[k].input)
  {
  }

  /** Every declared row is a transition of the machine. */
  lemma TableRowsAreTransitions()
    ensures forall k :: 0 <= k < |TABLE| ==> Transition(TABLE[k].from, TABLE[k].input) == Some(TABLE[k].to)
  {
  }

  /** Every transition of the machine is a declared row. */
  lemma TransitionInTable(s: TcpState, i: TcpInput, t: TcpState)
    requires Transition(s, i) == Some(t)
    ensures Row(s, i, t) in TABLE
  {
    match s
    case Closed =>
      assert TABLE[0] == Row(s, i, t) || TABLE[1] == Row(s, i, t);
    case Listen =>
      assert TABLE[2] == Row(s, i, t);
    case ListenReceiveSyn =>
      assert TABLE[3] == Row(s, i, t);
    case SynSent =>
      assert TABLE[4] == Row(s, i, t) || TABLE[5] == Row(s, i, t);
    case SynSentReceiveSyn =>
      assert TABLE[6] == Row(s, i, t);
    case ReceiveSynAckReceiveSynAck =>
      assert TABLE[7] == Row(s, i, t);
    case SynReceived =>
      assert TABLE[8] == Row(s, i, t);
    case Established =>
      assert TABLE[9] == Row(s, i, t) || TABLE[10] == Row(s, i, t);
    case CloseWait =>
      assert TABLE[11] == Row(s, i, t);
    case LastAck =>
      assert TABLE[12] == Row(s, i, t);
    case FinWait1 =>
      assert TABLE[13] == Row(s, i, t) || TABLE[14] == Row(s, i, t);
    case FinWait1ReceiveFin =>
      assert TABLE[15] == Row(s, i, t);
    case FinWait2 =>
      assert TABLE[16] == Row(s, i, t);
    case FinWait2ReceiveFin =>
      assert TABLE[17] == Row(s, i, t);
    case Closing =>
      assert TABLE[18] == Row(s, i, t);
    case TimeWait =>
      assert TABLE[19] == Row(s, i, t);
  }

  /** The transition function follows exactly the declared rows; unlisted pairs have no transition. */
  lemma TransitionIsTable(s: TcpState, i: TcpInput, t: TcpState)
    ensures Transition(s, i) == Some(t) <==> Row(s, i, t) in TABLE
  {
    if Row(s, i, t) in TABLE {
      var k :| 0 <= k < |TABLE| && TABLE[k] == Row(s, i, t);
      TableRowsAreTransitions();
      assert Transition(TABLE[k].from, TABLE[k].input) == Some(TABLE[k].to);
    }
    if Transition(s, i) == Some(t) {
      TransitionInTable(s, i, t);
    }
  }

  /** Consuming a sequence of inputs, failing at the first input with no transition. */
  function Run(s: TcpState, inputs: seq<TcpInput>): Option<TcpState>
    decreases |inputs|
  {
    if inputs == [] then Some(s)
    else match Transition(s, inputs[0])
      case None => None
      case Some(t) => Run(t, inputs[1..])
  }

  /** Running `a` then `b` is running `a + b`. */
  lemma {:induction false} RunAppend(s: TcpState, a: seq<TcpInput>, b: seq<TcpInput>)
    ensures Run(s, a + b) == (match Run(s, a) case None => None case Some(t) => Run(t, b))
    decreases |a|
  {
    if a == [] {
      assert a + b == b;
    } else {
      assert (a + b)[0] == a[0] && (a + b)[1..] == a[1..] + b;
      match Transition(s, a[0])
      case None =>
      case Some(t) => RunAppend(t, a[1..], b);
    }
  }

  /** Number of transitions between a state and Closed along the way back chosen below. */
  function DistanceToClosed(s: TcpState): nat {
    match s
    case Closed => 0
    case LastAck | TimeWait => 1
    case CloseWait | FinWait2ReceiveFin | Closing => 2
    case Established | FinWait2 | FinWait1ReceiveFin => 3
    case SynReceived | ReceiveSynAckReceiveSynAck | FinWait1 => 4
    case SynSentReceiveSyn | ListenReceiveSyn => 5
    case SynSent | Listen => 6
  }

  /** The input that takes a state one step closer to Closed. */
  function InputTowardClosed(s: TcpState): (x: TcpInput)
    requires s != Closed
    ensures Transition(s, x).Some?
    ensures DistanceToClosed(Transition(s, x).value) + 1 == DistanceToClosed(s)
  {
    match s
    case Listen => ReceiveSyn
    case ListenReceiveSyn => SendSynAck
    case SynSent => ReceiveSyn
    case SynSentReceiveSyn | ReceiveSynAckReceiveSynAck => SendAckForSyn
    case SynReceived => RecvAckForSyn
    case Established => ReceiveFin
    case CloseWait => SendFin
    case LastAck | FinWait1 | Closing => RecvAckForFin
    case FinWait2 => ReceiveFin
    case FinWait1ReceiveFin | FinWait2ReceiveFin => SendAckForFin
    case TimeWait => TimeExpired
  }

  /** A way back to Closed from each state. */
  function PathToClosed(s: TcpState): seq<TcpInput>
    decreases DistanceToClosed(s)
  {
    if s == Closed then []
    else [InputTowardClosed(s)] + PathToClosed(Transition(s, InputTowardClosed(s)).value)
  }

  /** From every state some input sequence leads back to Closed. */
  lemma {:induction false} ClosedReachableFromEveryState(s: TcpState)
    ensures Run(s, PathToClosed(s)) == Some(Closed)
    decreases DistanceToClosed(s)
  {
    if s != Closed {
      var x := InputTowardClosed(s);
      var t := Transition(s, x).value;
      var p := PathToClosed(s);
      assert p == [x] + PathToClosed(t);
      assert p[0] == x && p[1..] == PathToClosed(t);
      ClosedReachableFromEveryState(t);
    }
  }

  /** Passive open: Listen, a received SYN, the SYN-ACK sent back, the ACK of that SYN. */
  lemma PassiveOpenPath()
    ensures Run(Closed, [PassiveOpen]) == Some(Listen)
    ensures Run(Listen, [ReceiveSyn]) == Some(ListenReceiveSyn)
    ensures Run(ListenReceiveSyn, [SendSynAck]) == Some(SynReceived)
    ensures Run(SynReceived, [RecvAckForSyn]) == Some(Established)
  {
  }

  /** Active open and simultaneous open. */
  lemma ActiveOpenPaths()
    ensures Run(Closed, [SendSyn]) == Some(SynSent)
    ensures Run(SynSent, [ReceiveSynAck, SendAckForSyn]) == Some(Established)
    ensures Run(SynSent, [ReceiveSyn, SendAckForSyn]) == Some(SynReceived)
  {
  }

  /** Passive close. */
  lemma PassiveClosePath()
    ensures Run(Established, [ReceiveFin, SendFin, RecvAckForFin]) == Some(Closed)
  {
    assert Run(CloseWait, [SendFin, RecvAckForFin]) == Some(Closed);
  }

  /** Active close through FinWait2, then the TimeWait expiry. */
  lemma ActiveClosePath()
    ensures Run(Established, [SendFin, RecvAckForFin, ReceiveFin, SendAckForFin]) == Some(TimeWait)
    ensures Run(TimeWait, [TimeExpired]) == Some(Closed)
  {
    var path := [SendFin, RecvAckForFin, ReceiveFin, SendAckForFin];
    assert Run(FinWait2ReceiveFin, path[3..]) == Some(TimeWait);
    assert Run(FinWait2, path[2..]) == Some(TimeWait);
    assert Run(FinWait1, path[1..]) == Some(TimeWait);
  }

  /** Simultaneous close, through Closing. */
  lemma SimultaneousClosePath()
    ensures Run(Established, [SendFin, ReceiveFin, SendAckForFin, RecvAckForFin]) == Some(TimeWait)
  {
    var path := [SendFin, ReceiveFin, SendAckForFin, RecvAckForFin];
    assert Run(Closing, path[3..]) == Some(TimeWait);
    assert Run(FinWait1ReceiveFin, path[2..]) == Some(TimeWait);
    assert Run(FinWait1, path[1..]) == Some(TimeWait);
  }

  /** The states that stand for half of a split arc of the RFC 793 diagram. */
  predicate Intermediate(s: TcpState) {
    s in {ListenReceiveSyn, SynSentReceiveSyn, ReceiveSynAckReceiveSynAck, FinWait1ReceiveFin, FinWait2ReceiveFin}
  }

  /** The RFC 793 state an intermediate state is on its way out of. */
  function Collapse(s: TcpState): (r: TcpState)
    ensures !Intermediate(r)
    ensures !Intermediate(s) ==> r == s
  {
    match s
    case ListenReceiveSyn => Listen
    case SynSentReceiveSyn => SynSent
    case ReceiveSynAckReceiveSynAck => SynSent
    case FinWait1ReceiveFin => FinWait1
    case FinWait2ReceiveFin => FinWait2
    case _ => s
  }

  /** The arcs of Figure 6 of RFC 793 between the states that appear in the table. */
  predicate Rfc793Arc(a: TcpState, b: TcpState) {
    (a, b) in {
      (Closed, Listen), (Closed, SynSent), (Listen, SynReceived), (Listen, SynSent),
      (Listen, Closed), (SynSent, SynReceived), (SynSent, Established), (SynSent, Closed),
      (SynReceived, Established), (SynReceived, FinWait1),
      (Established, FinWait1), (Established, CloseWait), (FinWait1, FinWait2),
      (FinWait1, Closing), (FinWait2, TimeWait), (Closing, TimeWait), (TimeWait, Closed),
      (CloseWait, LastAck), (LastAck, Closed)
    }
  }

  /**
   * Every transition of the table either enters an intermediate state (the
   * first half of a split arc, which stays at the same RFC 793 state) or
   * follows an arc of Figure 6.
   */
  lemma TableRefinesRfc793(s: TcpState, i: TcpInput)
    requires Transition(s, i).Some?
    ensures var t := Transition(s, i).value;
      if Intermediate(t) then Collapse(t) == Collapse(s) else Rfc793Arc(Collapse(s), t)
  {
  }
}
