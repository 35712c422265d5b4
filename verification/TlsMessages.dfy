/**
 The shared TLS channel at message level: a connection is a list of requests, a list
 of replies and the number of replies already read. No bytes.
 */
module TlsMessages {
  import opened Wrappers
  import opened Framing
  import opened TlsMachine

  datatype MPhase =
    | MWaiting(attempt: nat)
    | MConnecting(attempt: nat)
    | MSending(attempt: nat)
    | MAwaiting(attempt: nat)
    | MDone(outcome: Outcome)
    | MDropped

  datatype MCall = MCall(payload: Payload, phase: MPhase)

  datatype Ask = Ask(call: nat, payload: Payload)

  datatype MConn = MConn(requests: seq<Ask>, replies: seq<Payload>, read: nat, log: seq<Exchange>)

  datatype MState = MState(calls: seq<MCall>, holder: Option<nat>, slot: Option<nat>, conns: seq<MConn>)

  datatype MEvent =
    | MStart(payload: Payload)
    | MGrant(c: nat)
    | MConnected(c: nat)
    | MConnectFailed(c: nat)
    | MSend(c: nat)
    | MReceive(c: nat)
    | MFail(c: nat)
    | MCancel(c: nat)
    | MAnswer(g: nat, reply: Payload)

  function MInit(): MState { MState([], None, None, []) }

  predicate MHasConn(m: MState) { m.slot.Some? && m.slot.value < |m.conns| }

  predicate MEnabled(m: MState, e: MEvent) {
    match e
    case MStart(p) => |p| <= MAX_REQUEST_BYTES
    case MGrant(c) => c < |m.calls| && m.calls[c].phase.MWaiting? && m.holder == None
    case MConnected(c) => c < |m.calls| && m.calls[c].phase.MConnecting?
    case MConnectFailed(c) => c < |m.calls| && m.calls[c].phase.MConnecting?
    case MSend(c) => c < |m.calls| && m.calls[c].phase.MSending? && MHasConn(m)
    case MReceive(c) =>
      c < |m.calls| && m.calls[c].phase.MAwaiting? && MHasConn(m)
      && m.conns[m.slot.value].read < |m.conns[m.slot.value].replies|
      && |m.conns[m.slot.value].replies[m.conns[m.slot.value].read]| <= MAX_RESPONSE_BYTES
    case MFail(c) => c < |m.calls| && (m.calls[c].phase.MSending? || m.calls[c].phase.MAwaiting?)
    case MCancel(c) => c < |m.calls| && !m.calls[c].phase.MDone? && !m.calls[c].phase.MDropped?
    case MAnswer(g, _) => g < |m.conns| && |m.conns[g].replies| < |m.conns[g].requests|
  }

  function MSetPhase(m: MState, c: nat, phase: MPhase): MState
    requires c < |m.calls|
  {
    m.(calls := m.calls[c := m.calls[c].(phase := phase)])
  }

  function MApply(m: MState, e: MEvent): MState
    requires MEnabled(m, e)
  {
    match e
    case MStart(p) => m.(calls := m.calls + [MCall(p, MWaiting(0))])
    case MGrant(c) =>
      var a := m.calls[c].phase.attempt;
      MSetPhase(m, c, if m.slot.Some? then MSending(a) else MConnecting(a)).(holder := Some(c))
    case MConnected(c) =>
      MSetPhase(m, c, MSending(m.calls[c].phase.attempt))
      .(slot := Some(|m.conns|), conns := m.conns + [MConn([], [], 0, [])])
    case MConnectFailed(c) => MSetPhase(m, c, MDone(Unavailable)).(holder := None)
    case MSend(c) =>
      var g := m.slot.value;
      MSetPhase(m, c, MAwaiting(m.calls[c].phase.attempt))
      .(conns := m.conns[g := m.conns[g].(requests := m.conns[g].requests + [Ask(c, m.calls[c].payload)])])
    case MReceive(c) =>
      var g := m.slot.value;
      var conn := m.conns[g];
      var reply := conn.replies[conn.read];
      MSetPhase(m, c, MDone(Reply(reply)))
      .(holder := None,
        conns := m.conns[g := conn.(read := conn.read + 1,
                                   log := conn.log + [Exchange(c, m.calls[c].payload, reply)])])
    case MFail(c) =>
      var a := m.calls[c].phase.attempt;
      MSetPhase(m, c, if a == 1 then MDone(Unavailable) else MWaiting(a + 1)).(holder := None, slot := None)
    case MCancel(c) =>
      MSetPhase(m, c, MDropped).(holder := if m.holder == Some(c) then None else m.holder)
    case MAnswer(g, reply) =>
      m.(conns := m.conns[g := m.conns[g].(replies := m.conns[g].replies + [reply])])
  }

  predicate MValidRun(m: MState, es: seq<MEvent>)
    decreases |es|
  {
    es == [] || (MEnabled(m, es[0]) && MValidRun(MApply(m, es[0]), es[1..]))
  }

  function MExec(m: MState, es: seq<MEvent>): MState
    requires MValidRun(m, es)
    decreases |es|
  {
    if es == [] then m else MExec(MApply(m, es[0]), es[1..])
  }

  lemma {:induction false} MRunConcat(m: MState, a: seq<MEvent>, b: seq<MEvent>)
    ensures MValidRun(m, a + b) <==> MValidRun(m, a) && MValidRun(MExec(m, a), b)
    ensures MValidRun(m, a + b) ==> MExec(m, a + b) == MExec(MExec(m, a), b)
    decreases |a|
  {
    if a == [] {
      assert a + b == b;
    } else {
      assert (a + b)[0] == a[0] && (a + b)[1..] == a[1..] + b;
      if MEnabled(m, a[0]) { MRunConcat(MApply(m, a[0]), a[1..], b); }
    }
  }
}
