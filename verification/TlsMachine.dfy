/**
 The shared TLS channel at byte level: any number of concurrent calls, one lock, one
 slot that may hold a connection, and two byte streams on every connection.
 Connections are numbered by generation, their index in `conns`; a connection that
 leaves the slot stays in `conns`, where its peer may still answer on it.
 */
module TlsMachine {
  import opened Wrappers
  import opened Framing

  datatype Outcome = Reply(bytes: Payload) | Unavailable

  // Where a call is suspended. `attempt` is the loop counter of the two attempts.
  datatype Phase =
    | Waiting(attempt: nat)
    | Connecting(attempt: nat)
    | Writing(attempt: nat, written: nat)
    | Reading(attempt: nat, got: Bytes)
    | Done(outcome: Outcome)
    | Dropped
  {
    predicate Holding() { Connecting? || Writing? || Reading? }
    predicate Ended() { Done? || Dropped? }
  }

  // `grants` counts lock grants; `used` lists the generations written to, oldest first.
  datatype Call = Call(payload: Payload, phase: Phase, grants: nat, used: seq<nat>)

  datatype Exchange = Exchange(call: nat, request: Payload, reply: Payload)

  datatype Answer = Answer(request: Payload, reply: Payload)

  // `sent` and `inbound` are the streams to and from the peer; the peer has consumed
  // `heard` bytes of the first and the calls `taken` bytes of the second. `answers`
  // is what the peer answered to what it heard, `log` the completed exchanges.
  datatype Conn = Conn(sent: Bytes, heard: nat, inbound: Bytes, taken: nat,
                       answers: seq<Answer>, log: seq<Exchange>)

  datatype State = State(calls: seq<Call>, holder: Option<nat>, slot: Option<nat>, conns: seq<Conn>)

  function Init(): State { State([], None, None, []) }

  function NewConn(): Conn { Conn([], 0, [], 0, [], []) }

  // --- Partial reads --------------------------------------------------------

  function Announced(got: Bytes): nat
    requires |got| >= 4
  {
    FromBe32(got[..4])
  }

  predicate Oversized(got: Bytes) { |got| >= 4 && Announced(got) > MAX_RESPONSE_BYTES }

  predicate Complete(got: Bytes) {
    |got| >= 4 && Announced(got) <= MAX_RESPONSE_BYTES && |got| == 4 + Announced(got)
  }

  // How many bytes the current exact read still lacks.
  function Lacking(got: Bytes): nat {
    if |got| < 4 then 4 - |got|
    else if Oversized(got) || |got| > 4 + Announced(got) then 0
    else 4 + Announced(got) - |got|
  }

  // --- Events ---------------------------------------------------------------

  datatype Event =
    | Start(payload: Payload)
    | Grant(c: nat)
    | Connected(c: nat)
    | ConnectFailed(c: nat)
    | Wrote(c: nat, n: nat)
    | Flushed(c: nat)
    | Received(c: nat, n: nat)
    | Finished(c: nat)
    | Failed(c: nat)       // an error, an end of stream, a timeout or an oversized reply
    | Cancelled(c: nat)    // the caller's future is dropped at an await
    | Answered(g: nat, reply: Payload)

  predicate HasConn(s: State) { s.slot.Some? && s.slot.value < |s.conns| }

  predicate Enabled(s: State, e: Event) {
    match e
    case Start(p) => |p| <= MAX_REQUEST_BYTES
    case Grant(c) => c < |s.calls| && s.calls[c].phase.Waiting? && s.holder == None
    case Connected(c) => c < |s.calls| && s.calls[c].phase.Connecting?
    case ConnectFailed(c) => c < |s.calls| && s.calls[c].phase.Connecting?
    case Wrote(c, n) =>
      c < |s.calls| && s.calls[c].phase.Writing? && HasConn(s)
      && 1 <= n && s.calls[c].phase.written + n <= |Frame(s.calls[c].payload)|
    case Flushed(c) =>
      c < |s.calls| && s.calls[c].phase.Writing? && HasConn(s)
      && s.calls[c].phase.written == |Frame(s.calls[c].payload)|
    case Received(c, n) =>
      c < |s.calls| && s.calls[c].phase.Reading? && HasConn(s)
      && 1 <= n <= Lacking(s.calls[c].phase.got)
      && s.conns[s.slot.value].taken + n <= |s.conns[s.slot.value].inbound|
    case Finished(c) =>
      c < |s.calls| && s.calls[c].phase.Reading? && HasConn(s) && Complete(s.calls[c].phase.got)
    case Failed(c) =>
      c < |s.calls| && (s.calls[c].phase.Writing?
                        || (s.calls[c].phase.Reading? && !Complete(s.calls[c].phase.got)))
    case Cancelled(c) =>
      c < |s.calls| && !s.calls[c].phase.Ended()
      && (s.calls[c].phase.Reading? ==> !Complete(s.calls[c].phase.got) && !Oversized(s.calls[c].phase.got))
    case Answered(g, reply) =>
      g < |s.conns| && s.conns[g].heard <= |s.conns[g].sent|
      && NextFrame(s.conns[g].sent[s.conns[g].heard..]).Some?
  }

  function SetPhase(s: State, c: nat, phase: Phase): State
    requires c < |s.calls|
  {
    s.(calls := s.calls[c := s.calls[c].(phase := phase)])
  }

  // The guard goes out of scope and the lock is free again.
  function Leave(s: State, c: nat, phase: Phase): State
    requires c < |s.calls|
  {
    SetPhase(s, c, phase).(holder := None)
  }

  // The holder starts an exchange on generation `g`.
  function Begin(s: State, c: nat, g: nat): State
    requires c < |s.calls| && s.calls[c].phase.Connecting?
  {
    var k := s.calls[c];
    s.(calls := s.calls[c := k.(phase := Writing(k.phase.attempt, 0), used := k.used + [g])])
  }

  function Attempt(p: Phase): nat
    requires !p.Ended()
  {
    p.attempt
  }

  function Apply(s: State, e: Event): State
    requires Enabled(s, e)
  {
    match e
    case Start(p) => s.(calls := s.calls + [Call(p, Waiting(0), 0, [])])
    case Grant(c) =>
      var k := s.calls[c];
      var locked := s.(calls := s.calls[c := k.(phase := Connecting(k.phase.attempt), grants := k.grants + 1)],
                       holder := Some(c));
      if s.slot.Some? then Begin(locked, c, s.slot.value) else locked
    case Connected(c) =>
      Begin(s, c, |s.conns|).(slot := Some(|s.conns|), conns := s.conns + [NewConn()])
    case ConnectFailed(c) => Leave(s, c, Done(Unavailable))
    case Wrote(c, n) =>
      var k, g := s.calls[c], s.slot.value;
      var chunk := Frame(k.payload)[k.phase.written..k.phase.written + n];
      SetPhase(s, c, k.phase.(written := k.phase.written + n))
      .(conns := s.conns[g := s.conns[g].(sent := s.conns[g].sent + chunk)])
    case Flushed(c) => SetPhase(s, c, Reading(s.calls[c].phase.attempt, []))
    case Received(c, n) =>
      var k, g := s.calls[c], s.slot.value;
      var conn := s.conns[g];
      SetPhase(s, c, k.phase.(got := k.phase.got + conn.inbound[conn.taken..conn.taken + n]))
      .(conns := s.conns[g := conn.(taken := conn.taken + n)])
    case Finished(c) =>
      var k, g := s.calls[c], s.slot.value;
      var reply := k.phase.got[4..];
      Leave(s, c, Done(Reply(reply)))
      .(conns := s.conns[g := s.conns[g].(log := s.conns[g].log + [Exchange(c, k.payload, reply)])])
    case Failed(c) =>
      var a := Attempt(s.calls[c].phase);
      Leave(s, c, if a == 1 then Done(Unavailable) else Waiting(a + 1)).(slot := None)
    case Cancelled(c) =>
      if s.holder == Some(c) then Leave(s, c, Dropped) else SetPhase(s, c, Dropped)
    case Answered(g, reply) =>
      var conn := s.conns[g];
      var request := NextFrame(conn.sent[conn.heard..]).value;
      s.(conns := s.conns[g := conn.(heard := conn.heard + 4 + |request|,
                                     inbound := conn.inbound + Frame(reply),
                                     answers := conn.answers + [Answer(request, reply)])])
  }

  // --- Runs -----------------------------------------------------------------

  predicate ValidRun(s: State, es: seq<Event>)
    decreases |es|
  {
    es == [] || (Enabled(s, es[0]) && ValidRun(Apply(s, es[0]), es[1..]))
  }

  function Exec(s: State, es: seq<Event>): State
    requires ValidRun(s, es)
    decreases |es|
  {
    if es == [] then s else Exec(Apply(s, es[0]), es[1..])
  }

  lemma {:induction false} RunConcat(s: State, a: seq<Event>, b: seq<Event>)
    ensures ValidRun(s, a + b) <==> ValidRun(s, a) && ValidRun(Exec(s, a), b)
    ensures ValidRun(s, a + b) ==> Exec(s, a + b) == Exec(Exec(s, a), b)
    decreases |a|
  {
    if a == [] {
      assert a + b == b;
    } else {
      assert (a + b)[0] == a[0] && (a + b)[1..] == a[1..] + b;
      if Enabled(s, a[0]) { RunConcat(Apply(s, a[0]), a[1..], b); }
    }
  }

  lemma RunSnoc(s: State, es: seq<Event>, e: Event)
    requires ValidRun(s, es) && Enabled(Exec(s, es), e)
    ensures ValidRun(s, es + [e]) && Exec(s, es + [e]) == Apply(Exec(s, es), e)
  {
    RunConcat(s, es, [e]);
    assert [e][1..] == [];
    assert ValidRun(Exec(s, es), [e]);
  }

  // --- What every run keeps -------------------------------------------------

  predicate Increasing(gs: seq<nat>) { forall i, j :: 0 <= i < j < |gs| ==> gs[i] < gs[j] }

  predicate GotOk(got: Bytes) { |got| <= 4 || (!Oversized(got) && |got| <= 4 + Announced(got)) }

  // One call: at most two attempts, one grant and at most one generation for each,
  // and a pending second attempt never meets the generation of the first in the slot.
  ghost predicate CallOk(s: State, k: Call, holds: bool) {
    && |k.payload| <= MAX_REQUEST_BYTES
    && Increasing(k.used)
    && (forall i :: 0 <= i < |k.used| ==> k.used[i] < |s.conns|)
    && (k.phase.Holding() <==> holds)
    && match k.phase
       case Waiting(a) => a <= 1 && k.grants == a && |k.used| == a
                          && (a == 1 && s.slot.Some? ==> k.used[0] < s.slot.value)
       case Connecting(a) => a <= 1 && k.grants == a + 1 && |k.used| == a && s.slot == None
       case Writing(a, w) => a <= 1 && k.grants == a + 1 && |k.used| == a + 1 && s.slot == Some(k.used[a])
                             && w <= |Frame(k.payload)|
       case Reading(a, got) => a <= 1 && k.grants == a + 1 && |k.used| == a + 1 && s.slot == Some(k.used[a])
                               && GotOk(got)
       case Done(_) => k.grants <= 2 && |k.used| <= k.grants
       case Dropped => k.grants <= 2 && |k.used| <= k.grants
  }

  ghost predicate ConnOk(n: Conn) { n.heard <= |n.sent| && n.taken <= |n.inbound| }

  ghost predicate Inv(s: State) {
    && (s.holder.Some? ==> s.holder.value < |s.calls|)
    && (s.slot.Some? ==> s.slot.value + 1 == |s.conns|)
    && (forall i :: 0 <= i < |s.calls| ==> CallOk(s, s.calls[i], s.holder == Some(i)))
    && (forall g :: 0 <= g < |s.conns| ==> ConnOk(s.conns[g]))
  }

  // The call an event belongs to.
  function Actor(e: Event): Option<nat> {
    match e
    case Start(_) => None
    case Answered(_, _) => None
    case Grant(c) => Some(c)
    case Connected(c) => Some(c)
    case ConnectFailed(c) => Some(c)
    case Wrote(c, _) => Some(c)
    case Flushed(c) => Some(c)
    case Received(c, _) => Some(c)
    case Finished(c) => Some(c)
    case Failed(c) => Some(c)
    case Cancelled(c) => Some(c)
  }

  lemma GotExtends(got: Bytes, chunk: Bytes)
    requires GotOk(got) && |chunk| <= Lacking(got)
    ensures GotOk(got + chunk)
  {
    if |got| >= 4 { assert (got + chunk)[..4] == got[..4]; }
  }

  lemma InvReceived(s: State, c: nat, n: nat)
    requires Inv(s) && Enabled(s, Received(c, n))
    ensures var t := Apply(s, Received(c, n)); CallOk(t, t.calls[c], t.holder == Some(c))
  {
    assert CallOk(s, s.calls[c], s.holder == Some(c));
    var conn := s.conns[s.slot.value];
    GotExtends(s.calls[c].phase.got, conn.inbound[conn.taken..conn.taken + n]);
  }

  // A call that begins an exchange uses a generation later than any it used before.
  lemma InvBegins(s: State, e: Event, c: nat)
    requires Inv(s) && Enabled(s, e) && (e == Grant(c) || e == Connected(c))
    ensures var t := Apply(s, e); CallOk(t, t.calls[c], t.holder == Some(c))
  {
    assert CallOk(s, s.calls[c], s.holder == Some(c));
    var (k, k') := (s.calls[c], Apply(s, e).calls[c]);
    assert k'.phase.Holding();
    assert |k.used| <= 1;
  }

  lemma InvActor(s: State, e: Event, c: nat)
    requires Inv(s) && Enabled(s, e) && Actor(e) == Some(c)
    ensures c < |s.calls| && CallOk(Apply(s, e), Apply(s, e).calls[c], Apply(s, e).holder == Some(c))
  {
    match e
    case Grant(_) => InvBegins(s, e, c);
    case Connected(_) => InvBegins(s, e, c);
    case Received(_, n) => InvReceived(s, c, n);
    case _ => InvActorPlain(s, e, c);
  }

  lemma InvActorPlain(s: State, e: Event, c: nat)
    requires Inv(s) && Enabled(s, e) && Actor(e) == Some(c)
    requires !e.Grant? && !e.Connected? && !e.Received?
    ensures c < |s.calls| && CallOk(Apply(s, e), Apply(s, e).calls[c], Apply(s, e).holder == Some(c))
  {
    assert CallOk(s, s.calls[c], s.holder == Some(c));
  }

  // A call keeps its part of the invariant while others move the slot on.
  lemma OtherCallOk(s: State, t: State, k: Call, holds: bool)
    requires CallOk(s, k, holds) && |s.conns| <= |t.conns|
    requires t.slot == s.slot || (!holds && (t.slot == None || t.slot == Some(|s.conns|)))
    ensures CallOk(t, k, holds)
  {}

  lemma OthersKeepHolder(s: State, e: Event, i: nat)
    requires Inv(s) && Enabled(s, e) && i < |s.calls| && Actor(e) != Some(i)
    ensures s.holder == Some(i) <==> Apply(s, e).holder == Some(i)
    ensures s.holder == Some(i) ==> Apply(s, e).slot == s.slot
  {
    if Actor(e).Some? {
      var c := Actor(e).value;
      assert CallOk(s, s.calls[c], s.holder == Some(c));
    }
  }

  lemma SlotMoves(s: State, e: Event)
    requires Enabled(s, e)
    ensures var t := Apply(s, e);
            |s.conns| <= |t.conns| && (t.slot == s.slot || t.slot == None || t.slot == Some(|s.conns|))
    ensures forall i :: 0 <= i < |s.calls| && Actor(e) != Some(i) ==>
              i < |Apply(s, e).calls| && Apply(s, e).calls[i] == s.calls[i]
  {}

  lemma InvOthers(s: State, e: Event, i: nat)
    requires Inv(s) && Enabled(s, e) && i < |Apply(s, e).calls| && Actor(e) != Some(i)
    ensures CallOk(Apply(s, e), Apply(s, e).calls[i], Apply(s, e).holder == Some(i))
  {
    if i < |s.calls| {
      SlotMoves(s, e);
      OthersKeepHolder(s, e, i);
      OtherCallOk(s, Apply(s, e), s.calls[i], s.holder == Some(i));
    }
  }

  lemma InvConns(s: State, e: Event)
    requires Inv(s) && Enabled(s, e)
    ensures forall g :: 0 <= g < |Apply(s, e).conns| ==> ConnOk(Apply(s, e).conns[g])
  {}

  lemma InvStep(s: State, e: Event)
    requires Inv(s) && Enabled(s, e)
    ensures Inv(Apply(s, e))
  {
    var t := Apply(s, e);
    if Actor(e).Some? { InvActor(s, e, Actor(e).value); }
    forall i | 0 <= i < |t.calls| && Actor(e) != Some(i) ensures CallOk(t, t.calls[i], t.holder == Some(i)) {
      InvOthers(s, e, i);
    }
    InvConns(s, e);
  }

  lemma {:induction false} InvRun(s: State, es: seq<Event>)
    requires Inv(s) && ValidRun(s, es)
    ensures Inv(Exec(s, es))
    decreases |es|
  {
    if es != [] {
      InvStep(s, es[0]);
      InvRun(Apply(s, es[0]), es[1..]);
    }
  }

  ghost predicate Run(es: seq<Event>) { ValidRun(Init(), es) }

  ghost function After(es: seq<Event>): State
    requires Run(es)
  {
    Exec(Init(), es)
  }

  lemma Reachable(es: seq<Event>)
    requires Run(es)
    ensures Inv(After(es))
  {
    InvRun(Init(), es);
  }
}
