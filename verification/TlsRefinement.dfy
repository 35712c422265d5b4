/**
 The byte level refines the message level, for any number of interleaved calls, as
 long as no call is cancelled inside a frame.
 */
module TlsRefinement {
  import opened Wrappers
  import opened Framing
  import opened TlsMachine
  import opened TlsMessages

  // --- Frame boundaries -----------------------------------------------------

  // A call suspended between whole frames.
  predicate AtBoundary(k: Call) {
    match k.phase
    case Writing(_, w) => w == 0 || w == |Frame(k.payload)|
    case Reading(_, got) => got == []
    case _ => true
  }

  // Cancellations happen between whole frames.
  predicate CleanEvent(s: State, e: Event) {
    e.Cancelled? && e.c < |s.calls| ==> AtBoundary(s.calls[e.c])
  }

  predicate CleanRun(s: State, es: seq<Event>)
    requires ValidRun(s, es)
    decreases |es|
  {
    es == [] || (CleanEvent(s, es[0]) && CleanRun(Apply(s, es[0]), es[1..]))
  }

  // --- Abstraction ----------------------------------------------------------

  function AbsPhase(k: Call): MPhase {
    match k.phase
    case Waiting(a) => MWaiting(a)
    case Connecting(a) => MConnecting(a)
    case Writing(a, w) => if w < |Frame(k.payload)| then MSending(a) else MAwaiting(a)
    case Reading(a, _) => MAwaiting(a)
    case Done(o) => MDone(o)
    case Dropped => MDropped
  }

  function AbsCall(k: Call): MCall { MCall(k.payload, AbsPhase(k)) }

  function Payloads(asks: seq<Ask>): (ps: seq<Payload>)
    ensures |ps| == |asks| && forall i :: 0 <= i < |ps| ==> ps[i] == asks[i].payload
  {
    seq(|asks|, i requires 0 <= i < |asks| => asks[i].payload)
  }

  function SentFrames(m: MConn): Bytes { Frames(Payloads(m.requests)) }

  ghost predicate ConnSim(n: Conn, m: MConn) {
    && m.read <= |m.replies| <= |m.requests|
    && n.inbound == Frames(m.replies)
    && n.heard == |Frames(Payloads(m.requests)[..|m.replies|])|
    && SentFrames(m) <= n.sent
    && NextFrame(n.sent[|SentFrames(m)|..]) == None
    && n.log == m.log
    && |n.answers| == |m.replies|
    && (forall j :: 0 <= j < |n.answers| ==> n.answers[j] == Answer(m.requests[j].payload, m.replies[j]))
  }

  // Of the frames of `replies`, the first `read` and then the bytes `got` were taken.
  ghost predicate ReadSim(inbound: Bytes, taken: nat, replies: seq<Payload>, read: nat, got: Bytes) {
    && read <= |replies| && inbound == Frames(replies)
    && taken == |Frames(replies[..read])| + |got| <= |inbound|
    && got == inbound[|Frames(replies[..read])|..taken]
  }

  // The connection in the slot: `tail` of a request is written, `got` of a reply is read.
  ghost predicate LiveSim(n: Conn, m: MConn, tail: Bytes, got: Bytes) {
    && ConnSim(n, m)
    && n.sent == SentFrames(m) + tail
    && ReadSim(n.inbound, n.taken, m.replies, m.read, got)
  }

  function Tail(k: Call): Bytes {
    if k.phase.Writing? && k.phase.written < |Frame(k.payload)| then Frame(k.payload)[..k.phase.written] else []
  }

  function Got(k: Call): Bytes { if k.phase.Reading? then k.phase.got else [] }

  function HolderTail(s: State): Bytes {
    if s.holder.Some? && s.holder.value < |s.calls| then Tail(s.calls[s.holder.value]) else []
  }

  function HolderGot(s: State): Bytes {
    if s.holder.Some? && s.holder.value < |s.calls| then Got(s.calls[s.holder.value]) else []
  }

  ghost predicate Sim(s: State, m: MState) {
    && |s.calls| == |m.calls| && |s.conns| == |m.conns| && s.holder == m.holder && s.slot == m.slot
    && (forall i :: 0 <= i < |s.calls| ==> m.calls[i] == AbsCall(s.calls[i]))
    && (forall g :: 0 <= g < |s.conns| ==> ConnSim(s.conns[g], m.conns[g]))
    && (HasConn(s) ==> LiveSim(s.conns[s.slot.value], m.conns[s.slot.value], HolderTail(s), HolderGot(s)))
  }

  function Lift(s: State, e: Event): seq<MEvent>
    requires Enabled(s, e)
  {
    match e
    case Start(p) => [MStart(p)]
    case Grant(c) => [MGrant(c)]
    case Connected(c) => [MConnected(c)]
    case ConnectFailed(c) => [MConnectFailed(c)]
    case Wrote(c, n) =>
      if s.calls[c].phase.written + n == |Frame(s.calls[c].payload)| then [MSend(c)] else []
    case Flushed(_) => []
    case Received(_, _) => []
    case Finished(c) => [MReceive(c)]
    case Failed(c) => [MFail(c)]
    case Cancelled(c) => [MCancel(c)]
    case Answered(g, reply) => [MAnswer(g, reply)]
  }

  function LiftRun(s: State, es: seq<Event>): seq<MEvent>
    requires ValidRun(s, es)
    decreases |es|
  {
    if es == [] then [] else Lift(s, es[0]) + LiftRun(Apply(s, es[0]), es[1..])
  }

  // --- One connection -------------------------------------------------------

  lemma PayloadsAppend(asks: seq<Ask>, a: Ask)
    ensures Payloads(asks + [a]) == Payloads(asks) + [a.payload]
  {}

  lemma WritePart(n: Conn, m: MConn, p: Payload, w: nat, k: nat)
    requires w + k < |Frame(p)| && LiveSim(n, m, Frame(p)[..w], [])
    ensures LiveSim(n.(sent := n.sent + Frame(p)[w..w + k]), m, Frame(p)[..w + k], [])
  {
    PartialFrame(p, w + k);
    var sent := n.sent + Frame(p)[w..w + k];
    assert Frame(p)[..w] + Frame(p)[w..w + k] == Frame(p)[..w + k];
    assert sent == SentFrames(m) + Frame(p)[..w + k];
    assert sent[|SentFrames(m)|..] == Frame(p)[..w + k];
  }

  // With its last bytes a request joins the frames sent.
  lemma LastPartSent(asks: seq<Ask>, p: Payload, w: nat, c: nat)
    requires w <= |Frame(p)|
    ensures Frames(Payloads(asks + [Ask(c, p)])) == Frames(Payloads(asks)) + Frame(p)[..w] + Frame(p)[w..]
    ensures forall k: nat :: k <= |asks| ==> Payloads(asks + [Ask(c, p)])[..k] == Payloads(asks)[..k]
  {
    PayloadsAppend(asks, Ask(c, p));
    FramesSnoc(Payloads(asks), p);
    assert Frames(Payloads(asks)) + Frame(p)[..w] + Frame(p)[w..] == Frames(Payloads(asks)) + Frame(p);
  }

  lemma WriteLast(n: Conn, m: MConn, p: Payload, w: nat, c: nat)
    requires w <= |Frame(p)| && LiveSim(n, m, Frame(p)[..w], [])
    ensures LiveSim(n.(sent := n.sent + Frame(p)[w..]), m.(requests := m.requests + [Ask(c, p)]), [], [])
  {
    var n', m' := n.(sent := n.sent + Frame(p)[w..]), m.(requests := m.requests + [Ask(c, p)]);
    LastPartSent(m.requests, p, w, c);
    assert n'.sent == SentFrames(m') && n'.sent[|SentFrames(m')|..] == [];
  }

  // The peer hears exactly the first request it has not answered, if there is one.
  lemma PeerHears(n: Conn, m: MConn)
    requires ConnSim(n, m)
    ensures n.heard <= |n.sent|
    ensures NextFrame(n.sent[n.heard..])
            == if |m.replies| < |m.requests| then Some(m.requests[|m.replies|].payload) else None
  {
    var ps, k := Payloads(m.requests), |m.replies|;
    var rest := n.sent[|Frames(ps)|..];
    assert n.sent == Frames(ps) + rest;
    FramesSplit(ps, k);
    assert n.sent[n.heard..] == Frames(ps[k..]) + rest;
    if k < |ps| {
      FramesFrom(ps, k);
      assert Frames(ps[k..]) + rest == Frame(ps[k]) + (Frames(ps[k + 1..]) + rest);
      NextOfFrame(ps[k], Frames(ps[k + 1..]) + rest);
    } else {
      assert n.sent[n.heard..] == rest;
    }
  }

  lemma PeerAnswers(n: Conn, m: MConn, reply: Payload)
    requires ConnSim(n, m) && |m.replies| < |m.requests|
    ensures var p := m.requests[|m.replies|].payload;
            var n' := n.(heard := n.heard + 4 + |p|, inbound := n.inbound + Frame(reply),
                         answers := n.answers + [Answer(p, reply)]);
            var m' := m.(replies := m.replies + [reply]);
            ConnSim(n', m')
            && (forall tail, got :: LiveSim(n, m, tail, got) ==> LiveSim(n', m', tail, got))
  {
    var ps, k := Payloads(m.requests), |m.replies|;
    FramesSnoc(m.replies, reply);
    FramesSnoc(ps[..k], ps[k]);
    assert ps[..k] + [ps[k]] == ps[..k + 1];
    assert (m.replies + [reply])[..m.read] == m.replies[..m.read];
  }

  lemma ReadMore(inbound: Bytes, taken: nat, replies: seq<Payload>, read: nat, got: Bytes, k: nat)
    requires ReadSim(inbound, taken, replies, read, got) && taken + k <= |inbound|
    ensures ReadSim(inbound, taken + k, replies, read, got + inbound[taken..taken + k])
  {
    assert got + inbound[taken..taken + k] == inbound[|Frames(replies[..read])|..taken + k];
  }

  // What is read so far is the start of the first reply not yet read.
  lemma UnreadPart(inbound: Bytes, taken: nat, replies: seq<Payload>, read: nat, got: Bytes)
    requires ReadSim(inbound, taken, replies, read, got) && got != []
    ensures read < |replies| && got <= Frame(replies[read]) + Frames(replies[read + 1..])
  {
    FramesSplit(replies, read);
    var b := |Frames(replies[..read])|;
    assert inbound[b..] == Frames(replies[read..]);
    assert |Frames(replies[read..])| >= |got| > 0;
    assert read < |replies|;
    FramesFrom(replies, read);
    assert got == inbound[b..][..|got|];
  }

  // A complete read is the frame of that reply, and the next read starts after it.
  lemma WholeRead(inbound: Bytes, taken: nat, replies: seq<Payload>, read: nat, got: Bytes)
    requires ReadSim(inbound, taken, replies, read, got) && Complete(got)
    ensures read < |replies| && got == Frame(replies[read]) && got[4..] == replies[read]
    ensures |replies[read]| <= MAX_RESPONSE_BYTES
    ensures ReadSim(inbound, taken, replies, read + 1, [])
  {
    UnreadPart(inbound, taken, replies, read, got);
    FrameAgrees(got, replies[read], Frames(replies[read + 1..]));
    FramesSnoc(replies[..read], replies[read]);
    assert replies[..read] + [replies[read]] == replies[..read + 1];
  }

  function TakenConn(conn: Conn, n: nat): Conn { conn.(taken := conn.taken + n) }

  lemma ReadPart(n: Conn, m: MConn, got: Bytes, k: nat)
    requires LiveSim(n, m, [], got) && n.taken + k <= |n.inbound|
    ensures LiveSim(TakenConn(n, k), m, [], got + n.inbound[n.taken..n.taken + k])
  {
    ReadMore(n.inbound, n.taken, m.replies, m.read, got, k);
  }

  lemma UnreadReply(n: Conn, m: MConn, got: Bytes)
    requires LiveSim(n, m, [], got) && got != []
    ensures m.read < |m.replies|
    ensures got <= Frame(m.replies[m.read]) + Frames(m.replies[m.read + 1..])
  {
    UnreadPart(n.inbound, n.taken, m.replies, m.read, got);
  }

  lemma ReadWhole(n: Conn, m: MConn, got: Bytes)
    requires LiveSim(n, m, [], got) && Complete(got)
    ensures m.read < |m.replies| && got == Frame(m.replies[m.read]) && got[4..] == m.replies[m.read]
    ensures |m.replies[m.read]| <= MAX_RESPONSE_BYTES
  {
    WholeRead(n.inbound, n.taken, m.replies, m.read, got);
  }

  lemma ReadDone(n: Conn, m: MConn, got: Bytes, x: Exchange)
    requires LiveSim(n, m, [], got) && Complete(got)
    ensures m.read < |m.replies|
    ensures LiveSim(n.(log := n.log + [x]), m.(read := m.read + 1, log := m.log + [x]), [], [])
  {
    WholeRead(n.inbound, n.taken, m.replies, m.read, got);
  }

  // --- One event ------------------------------------------------------------

  // The holder changes its own phase and the connection in the slot, nothing else.
  function Moved(s: State, c: nat, k: Call, n: Conn): State
    requires c < |s.calls| && HasConn(s)
  {
    s.(calls := s.calls[c := k], conns := s.conns[s.slot.value := n])
  }

  function MMoved(m: MState, c: nat, k: MCall, n: MConn): MState
    requires c < |m.calls| && MHasConn(m)
  {
    m.(calls := m.calls[c := k], conns := m.conns[m.slot.value := n])
  }

  lemma SimHolder(s: State, m: MState, c: nat, k: Call, n: Conn, mn: MConn)
    requires Sim(s, m) && HasConn(s) && s.holder == Some(c) && c < |s.calls|
    requires LiveSim(n, mn, Tail(k), Got(k))
    ensures MHasConn(m) && Sim(Moved(s, c, k, n), MMoved(m, c, AbsCall(k), mn))
  {}

  // A step that the message level does not see.
  lemma SimSilent(s: State, m: MState, c: nat, k: Call, n: Conn)
    requires Sim(s, m) && HasConn(s) && s.holder == Some(c) && c < |s.calls|
    requires AbsCall(k) == AbsCall(s.calls[c]) && LiveSim(n, m.conns[s.slot.value], Tail(k), Got(k))
    ensures Sim(Moved(s, c, k, n), m)
  {
    SimHolder(s, m, c, k, n, m.conns[s.slot.value]);
    assert m.calls[c] == AbsCall(s.calls[c]);
    assert MMoved(m, c, AbsCall(k), m.conns[s.slot.value]) == m;
  }

  // A step by which the holder lets the lock go.
  lemma SimRelease(s: State, m: MState, c: nat, k: Call, n: Conn, mn: MConn)
    requires Sim(s, m) && HasConn(s) && s.holder == Some(c) && c < |s.calls|
    requires LiveSim(n, mn, [], []) && Tail(k) == [] && Got(k) == []
    ensures MHasConn(m) && Sim(Moved(s, c, k, n).(holder := None), MMoved(m, c, AbsCall(k), mn).(holder := None))
  {
    SimHolder(s, m, c, k, n, mn);
  }

  // What the invariant says about the call an event belongs to.
  ghost predicate Acts(s: State, e: Event, c: nat) {
    Enabled(s, e) && Actor(e) == Some(c) && c < |s.calls| && CallOk(s, s.calls[c], s.holder == Some(c))
  }

  // The connection of a call that writes or reads is the one in the slot.
  lemma HolderLive(s: State, m: MState, e: Event, c: nat)
    requires Sim(s, m) && Acts(s, e, c) && (s.calls[c].phase.Writing? || s.calls[c].phase.Reading?) && HasConn(s)
    ensures s.holder == Some(c) && MHasConn(m) && m.calls[c] == AbsCall(s.calls[c])
    ensures LiveSim(s.conns[s.slot.value], m.conns[s.slot.value], Tail(s.calls[c]), Got(s.calls[c]))
  {}

  function WroteCall(k: Call, n: nat): Call
    requires k.phase.Writing?
  {
    k.(phase := k.phase.(written := k.phase.written + n))
  }

  function WroteConn(k: Call, conn: Conn, n: nat): Conn
    requires k.phase.Writing? && k.phase.written + n <= |Frame(k.payload)|
  {
    conn.(sent := conn.sent + Frame(k.payload)[k.phase.written..k.phase.written + n])
  }

  function ReceivedCall(k: Call, conn: Conn, n: nat): Call
    requires k.phase.Reading? && conn.taken + n <= |conn.inbound|
  {
    k.(phase := k.phase.(got := k.phase.got + conn.inbound[conn.taken..conn.taken + n]))
  }

  function FinishedConn(k: Call, conn: Conn, c: nat): Conn
    requires k.phase.Reading? && Complete(k.phase.got)
  {
    conn.(log := conn.log + [Exchange(c, k.payload, k.phase.got[4..])])
  }

  function FinishedMConn(k: Call, m: MConn, c: nat): MConn
    requires k.phase.Reading? && Complete(k.phase.got)
  {
    m.(read := m.read + 1, log := m.log + [Exchange(c, k.payload, k.phase.got[4..])])
  }

  lemma WroteLive(conn: Conn, m: MConn, k: Call, n: nat)
    requires k.phase.Writing? && k.phase.written + n < |Frame(k.payload)| && LiveSim(conn, m, Tail(k), Got(k))
    ensures LiveSim(WroteConn(k, conn, n), m, Tail(WroteCall(k, n)), Got(WroteCall(k, n)))
  {
    WritePart(conn, m, k.payload, k.phase.written, n);
  }

  lemma WroteLastLive(conn: Conn, m: MConn, k: Call, n: nat, c: nat)
    requires k.phase.Writing? && k.phase.written + n == |Frame(k.payload)| && LiveSim(conn, m, Tail(k), Got(k)) && n > 0
    ensures LiveSim(WroteConn(k, conn, n), m.(requests := m.requests + [Ask(c, k.payload)]),
                    Tail(WroteCall(k, n)), Got(WroteCall(k, n)))
  {
    var w := k.phase.written;
    WriteLast(conn, m, k.payload, w, c);
    assert Frame(k.payload)[w..w + n] == Frame(k.payload)[w..];
  }

  lemma ReceivedLive(conn: Conn, m: MConn, k: Call, n: nat)
    requires k.phase.Reading? && LiveSim(conn, m, Tail(k), Got(k)) && conn.taken + n <= |conn.inbound|
    ensures LiveSim(TakenConn(conn, n), m,
                    Tail(ReceivedCall(k, conn, n)), Got(ReceivedCall(k, conn, n)))
  {
    assert Tail(k) == [] && Got(k) == k.phase.got && Tail(ReceivedCall(k, conn, n)) == [];
    ReadPart(conn, m, k.phase.got, n);
  }

  lemma FinishedLive(conn: Conn, m: MConn, k: Call, c: nat)
    requires k.phase.Reading? && LiveSim(conn, m, Tail(k), Got(k)) && Complete(k.phase.got)
    ensures m.read < |m.replies| && k.phase.got[4..] == m.replies[m.read] && |m.replies[m.read]| <= MAX_RESPONSE_BYTES
    ensures LiveSim(FinishedConn(k, conn, c), FinishedMConn(k, m, c), [], [])
  {
    ReadWhole(conn, m, k.phase.got);
    ReadDone(conn, m, k.phase.got, Exchange(c, k.payload, k.phase.got[4..]));
  }

  lemma SimWrotePart(s: State, m: MState, c: nat, n: nat)
    requires Sim(s, m) && Acts(s, Wrote(c, n), c)
    requires s.calls[c].phase.written + n < |Frame(s.calls[c].payload)|
    ensures Sim(Apply(s, Wrote(c, n)), m)
  {
    var k, g := s.calls[c], s.slot.value;
    HolderLive(s, m, Wrote(c, n), c);
    WroteLive(s.conns[g], m.conns[g], k, n);
    SimSilent(s, m, c, WroteCall(k, n), WroteConn(k, s.conns[g], n));
  }

  lemma SimWroteLast(s: State, m: MState, c: nat, n: nat)
    requires Sim(s, m) && Acts(s, Wrote(c, n), c)
    requires s.calls[c].phase.written + n == |Frame(s.calls[c].payload)|
    ensures MEnabled(m, MSend(c)) && Sim(Apply(s, Wrote(c, n)), MApply(m, MSend(c)))
  {
    var k, g := s.calls[c], s.slot.value;
    HolderLive(s, m, Wrote(c, n), c);
    WroteLastLive(s.conns[g], m.conns[g], k, n, c);
    SimHolder(s, m, c, WroteCall(k, n), WroteConn(k, s.conns[g], n),
              m.conns[g].(requests := m.conns[g].requests + [Ask(c, k.payload)]));
  }

  lemma ReceivedMoves(s: State, c: nat, n: nat)
    requires Enabled(s, Received(c, n))
    ensures var (k, conn) := (s.calls[c], s.conns[s.slot.value]);
            Apply(s, Received(c, n)) == Moved(s, c, ReceivedCall(k, conn, n), TakenConn(conn, n))
  {}

  lemma ReceivedGot(s: State, c: nat, n: nat)
    requires Enabled(s, Received(c, n)) && s.holder == Some(c)
    ensures var (t, conn) := (Apply(s, Received(c, n)), s.conns[s.slot.value]);
            && s.slot.value < |t.conns| && t.conns[s.slot.value] == TakenConn(conn, n)
            && HolderGot(t) == HolderGot(s) + conn.inbound[conn.taken..conn.taken + n]
  {}

  lemma ReceivedKeepsLive(s: State, m: MState, c: nat, n: nat)
    requires Sim(s, m) && Acts(s, Received(c, n), c)
    ensures var (k, conn) := (s.calls[c], s.conns[s.slot.value]);
            var k' := ReceivedCall(k, conn, n);
            && s.holder == Some(c) && AbsCall(k') == AbsCall(k) && s.slot.value < |m.conns|
            && LiveSim(TakenConn(conn, n), m.conns[s.slot.value], Tail(k'), Got(k'))
  {
    HolderLive(s, m, Received(c, n), c);
    ReceivedLive(s.conns[s.slot.value], m.conns[s.slot.value], s.calls[c], n);
  }

  lemma SimReceived(s: State, m: MState, c: nat, n: nat)
    requires Sim(s, m) && Acts(s, Received(c, n), c)
    ensures var (k, conn) := (s.calls[c], s.conns[s.slot.value]);
            Sim(Moved(s, c, ReceivedCall(k, conn, n), TakenConn(conn, n)), m)
  {
    var k, conn := s.calls[c], s.conns[s.slot.value];
    ReceivedKeepsLive(s, m, c, n);
    SimSilent(s, m, c, ReceivedCall(k, conn, n), TakenConn(conn, n));
  }

  lemma SimFinished(s: State, m: MState, c: nat)
    requires Sim(s, m) && Acts(s, Finished(c), c)
    ensures MEnabled(m, MReceive(c)) && Sim(Apply(s, Finished(c)), MApply(m, MReceive(c)))
  {
    var k, g := s.calls[c], s.slot.value;
    HolderLive(s, m, Finished(c), c);
    FinishedLive(s.conns[g], m.conns[g], k, c);
    SimRelease(s, m, c, k.(phase := Done(Reply(k.phase.got[4..]))),
               FinishedConn(k, s.conns[g], c), FinishedMConn(k, m.conns[g], c));
  }

  lemma SimAnswered(s: State, m: MState, g: nat, reply: Payload)
    requires Sim(s, m) && Enabled(s, Answered(g, reply))
    ensures MEnabled(m, MAnswer(g, reply)) && Sim(Apply(s, Answered(g, reply)), MApply(m, MAnswer(g, reply)))
  {
    PeerHears(s.conns[g], m.conns[g]);
    PeerAnswers(s.conns[g], m.conns[g], reply);
  }

  lemma SimGrant(s: State, m: MState, c: nat)
    requires Sim(s, m) && Acts(s, Grant(c), c)
    ensures MEnabled(m, MGrant(c)) && Sim(Apply(s, Grant(c)), MApply(m, MGrant(c)))
  {
    assert m.calls[c] == AbsCall(s.calls[c]);
    assert Frame(s.calls[c].payload)[..0] == [];
  }

  lemma SimConnected(s: State, m: MState, c: nat)
    requires Sim(s, m) && Acts(s, Connected(c), c)
    ensures MEnabled(m, MConnected(c)) && Sim(Apply(s, Connected(c)), MApply(m, MConnected(c)))
  {
    assert m.calls[c] == AbsCall(s.calls[c]);
    assert Frame(s.calls[c].payload)[..0] == [];
    assert LiveSim(NewConn(), MConn([], [], 0, []), [], []);
  }

  lemma SimCancelled(s: State, m: MState, c: nat)
    requires Sim(s, m) && Acts(s, Cancelled(c), c) && AtBoundary(s.calls[c])
    ensures MEnabled(m, MCancel(c)) && Sim(Apply(s, Cancelled(c)), MApply(m, MCancel(c)))
  {
    assert m.calls[c] == AbsCall(s.calls[c]);
    assert Frame(s.calls[c].payload)[..0] == [];
  }

  // The slot is cleared and the lock let go.
  lemma SimForget(s: State, m: MState, c: nat, k: Call)
    requires Sim(s, m) && c < |s.calls|
    ensures Sim(s.(calls := s.calls[c := k], holder := None, slot := None),
                m.(calls := m.calls[c := AbsCall(k)], holder := None, slot := None))
  {}

  lemma SimFailed(s: State, m: MState, c: nat)
    requires Sim(s, m) && Acts(s, Failed(c), c)
    ensures MEnabled(m, MFail(c)) && Sim(Apply(s, Failed(c)), MApply(m, MFail(c)))
  {
    assert m.calls[c] == AbsCall(s.calls[c]);
    SimForget(s, m, c, Apply(s, Failed(c)).calls[c]);
  }

  lemma SimConnectFailed(s: State, m: MState, c: nat)
    requires Sim(s, m) && Acts(s, ConnectFailed(c), c)
    ensures MEnabled(m, MConnectFailed(c)) && Sim(Apply(s, ConnectFailed(c)), MApply(m, MConnectFailed(c)))
  {
    assert m.calls[c] == AbsCall(s.calls[c]);
  }

  lemma SimFlushed(s: State, m: MState, c: nat)
    requires Sim(s, m) && Acts(s, Flushed(c), c)
    ensures Sim(Apply(s, Flushed(c)), m)
  {
    var g := s.slot.value;
    SimSilent(s, m, c, Apply(s, Flushed(c)).calls[c], s.conns[g]);
    assert s.conns[g := s.conns[g]] == s.conns;
  }

  lemma SimStart(s: State, m: MState, p: Payload)
    requires Sim(s, m) && Enabled(s, Start(p)) && (s.holder.Some? ==> s.holder.value < |s.calls|)
    ensures MEnabled(m, MStart(p)) && Sim(Apply(s, Start(p)), MApply(m, MStart(p)))
  {
    var t := Apply(s, Start(p));
    assert HolderTail(t) == HolderTail(s) && HolderGot(t) == HolderGot(s);
  }

  lemma SimSilentEvent(s: State, m: MState, e: Event, c: nat)
    requires Sim(s, m) && Acts(s, e, c) && Lift(s, e) == []
    ensures Sim(Apply(s, e), m)
  {
    match e
    case Wrote(_, n) => SimWrotePart(s, m, c, n);
    case Received(_, n) =>
      ReceivedMoves(s, c, n);
      SimReceived(s, m, c, n);
    case Flushed(_) => SimFlushed(s, m, c);
  }

  lemma SimSeenEvent(s: State, m: MState, e: Event, c: nat)
    requires Sim(s, m) && Acts(s, e, c) && CleanEvent(s, e) && Lift(s, e) != []
    ensures MEnabled(m, Lift(s, e)[0]) && Sim(Apply(s, e), MApply(m, Lift(s, e)[0]))
  {
    match e
    case Wrote(_, n) => SimWroteLast(s, m, c, n);
    case Finished(_) => SimFinished(s, m, c);
    case Grant(_) => SimGrant(s, m, c);
    case Connected(_) => SimConnected(s, m, c);
    case ConnectFailed(_) => SimConnectFailed(s, m, c);
    case Failed(_) => SimFailed(s, m, c);
    case Cancelled(_) => SimCancelled(s, m, c);
  }

  lemma SimActor(s: State, m: MState, e: Event, c: nat)
    requires Sim(s, m) && Acts(s, e, c) && CleanEvent(s, e)
    ensures MValidRun(m, Lift(s, e)) && Sim(Apply(s, e), MExec(m, Lift(s, e)))
  {
    if Lift(s, e) == [] {
      SimSilentEvent(s, m, e, c);
    } else {
      SimSeenEvent(s, m, e, c);
      assert Lift(s, e)[1..] == [];
    }
  }

  lemma SimStep(s: State, m: MState, e: Event)
    requires Inv(s) && Sim(s, m) && Enabled(s, e) && CleanEvent(s, e)
    ensures MValidRun(m, Lift(s, e)) && Sim(Apply(s, e), MExec(m, Lift(s, e)))
  {
    match Actor(e)
    case Some(c) =>
      assert CallOk(s, s.calls[c], s.holder == Some(c));
      SimActor(s, m, e, c);
    case None =>
      assert Lift(s, e)[1..] == [];
      if e.Start? { SimStart(s, m, e.payload); } else { SimAnswered(s, m, e.g, e.reply); }
  }

  lemma {:induction false} SimRun(s: State, m: MState, es: seq<Event>)
    requires Inv(s) && Sim(s, m) && ValidRun(s, es) && CleanRun(s, es)
    ensures MValidRun(m, LiftRun(s, es)) && Sim(Exec(s, es), MExec(m, LiftRun(s, es)))
    decreases |es|
  {
    if es != [] {
      SimStep(s, m, es[0]);
      InvStep(s, es[0]);
      var s', m' := Apply(s, es[0]), MExec(m, Lift(s, es[0]));
      SimRun(s', m', es[1..]);
      MRunConcat(m, Lift(s, es[0]), LiftRun(s', es[1..]));
    }
  }

  // Every byte-level run in which calls are cancelled between whole frames only is a
  // message-level run: same calls, same lock, same slot, and on every connection the
  // bytes are the frames of the messages.
  lemma BytesRefineMessages(es: seq<Event>)
    requires Run(es) && CleanRun(Init(), es)
    ensures MValidRun(MInit(), LiftRun(Init(), es))
    ensures Sim(After(es), MExec(MInit(), LiftRun(Init(), es)))
  {
    assert Sim(Init(), MInit());
    SimRun(Init(), MInit(), es);
  }
}
