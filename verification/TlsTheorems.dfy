/** The guarantees of the shared channel for calls cancelled between frames, in terms of bytes and answers. */
module TlsTheorems {
  import opened Wrappers
  import opened Framing
  import opened TlsMachine
  import opened TlsMessages
  import opened TlsRefinement
  import opened TlsSafety

  // --- Runs without cancellation --------------------------------------------

  predicate NoCancel(es: seq<Event>) { forall i :: 0 <= i < |es| ==> !es[i].Cancelled? }

  predicate MNoCancel(es: seq<MEvent>) { forall i :: 0 <= i < |es| ==> !es[i].MCancel? }

  lemma {:induction false} NoCancelIsClean(s: State, es: seq<Event>)
    requires ValidRun(s, es) && NoCancel(es)
    ensures CleanRun(s, es) && MNoCancel(LiftRun(s, es))
    decreases |es|
  {
    if es != [] { NoCancelIsClean(Apply(s, es[0]), es[1..]); }
  }

  predicate Awaited(m: MState) {
    m.holder.Some? && m.holder.value < |m.calls| && m.calls[m.holder.value].phase.MAwaiting?
  }

  // Exchange i is that of the call that sent request i, and at most the request of
  // the call that now awaits its reply is unanswered.
  ghost predicate InStep(m: MState) {
    && (forall g, i :: 0 <= g < |m.conns| && 0 <= i < |m.conns[g].log| ==> Own(m.conns[g], i, i))
    && (MHasConn(m) ==> |m.conns[m.slot.value].requests|
                        == |m.conns[m.slot.value].log| + if Awaited(m) then 1 else 0)
  }

  lemma InStepStep(m: MState, e: MEvent)
    requires MInv(m) && InStep(m) && MEnabled(m, e) && !e.MCancel?
    ensures InStep(MApply(m, e))
  {
    var u := MApply(m, e);
    if MHasConn(m) { assert ConnInv(m, m.conns[m.slot.value]); }
    forall g, i | 0 <= g < |u.conns| && 0 <= i < |u.conns[g].log| ensures Own(u.conns[g], i, i) {
      if g < |m.conns| && i < |m.conns[g].log| { assert Own(m.conns[g], i, i); }
    }
  }

  lemma {:induction false} InStepRun(m: MState, es: seq<MEvent>)
    requires MInv(m) && InStep(m) && MValidRun(m, es) && MNoCancel(es)
    ensures InStep(MExec(m, es))
    decreases |es|
  {
    if es != [] {
      MInvStep(m, es[0]);
      InStepStep(m, es[0]);
      InStepRun(MApply(m, es[0]), es[1..]);
    }
  }

  function Requests(log: seq<Exchange>): (ps: seq<Payload>)
    ensures |ps| == |log| && forall i :: 0 <= i < |ps| ==> ps[i] == log[i].request
  {
    seq(|log|, i requires 0 <= i < |log| => log[i].request)
  }

  function Replies(log: seq<Exchange>): (ps: seq<Payload>)
    ensures |ps| == |log| && forall i :: 0 <= i < |ps| ==> ps[i] == log[i].reply
  {
    seq(|log|, i requires 0 <= i < |log| => log[i].reply)
  }

  // The bytes of a connection are those of its completed exchanges in lock order,
  // nothing is in flight, and reply i answers request i.
  ghost predicate Settled(n: Conn) {
    && n.sent == Frames(Requests(n.log)) && n.heard == |n.sent|
    && n.inbound == Frames(Replies(n.log)) && n.taken == |n.inbound|
    && |n.answers| == |n.log|
    && forall i :: 0 <= i < |n.log| ==> n.answers[i] == Answer(n.log[i].request, n.log[i].reply)
  }

  lemma LogAgrees(m: MState, n: MConn)
    requires ConnInv(m, n) && |n.requests| == |n.log|
    requires forall i :: 0 <= i < |n.log| ==> Own(n, i, i)
    ensures Payloads(n.requests) == Requests(n.log) && n.replies == Replies(n.log)
  {
    forall i | 0 <= i < |n.log|
      ensures n.requests[i].payload == n.log[i].request && n.replies[i] == n.log[i].reply
    {
      assert LogOk(m, n, i) && Own(n, i, i);
    }
  }

  lemma SettledWhenUnlocked(es: seq<Event>)
    requires Run(es) && NoCancel(es) && After(es).holder == None && After(es).slot.Some?
    ensures HasConn(After(es)) && Settled(After(es).conns[After(es).slot.value])
  {
    NoCancelIsClean(Init(), es);
    CleanRunFacts(es);
    BytesRefineMessages(es);
    InStepRun(MInit(), LiftRun(Init(), es));
    var s, m := After(es), Messages(es);
    var g := s.slot.value;
    var n, mn := s.conns[g], m.conns[g];
    assert ConnInv(m, mn) && LiveSim(n, mn, [], []);
    forall i | 0 <= i < |mn.log| ensures Own(mn, i, i) {}
    LogAgrees(m, mn);
    assert Payloads(mn.requests)[..|mn.replies|] == Payloads(mn.requests);
    assert mn.replies[..mn.read] == mn.replies;
    forall i | 0 <= i < |n.log| ensures n.answers[i] == Answer(n.log[i].request, n.log[i].reply) {
      assert LogOk(m, mn, i) && Own(mn, i, i);
    }
  }

  // --- Cancellation between frames ------------------------------------------

  // Payloads of distinct calls differ, as they do when operation ids are fresh.
  predicate FreshCalls(s: State) {
    forall c, d :: 0 <= c < d < |s.calls| ==> s.calls[c].payload != s.calls[d].payload
  }

  // Exchange i read the answer to another call's request.
  predicate Stale(n: Conn, i: nat) {
    i < |n.log| && i < |n.answers| && n.answers[i].request != n.log[i].request
  }

  lemma StaleMeansNotOwn(s: State, m: MState, g: nat, i: nat)
    requires Sim(s, m) && MInv(m) && FreshCalls(s) && g < |s.conns| && i < |s.conns[g].log|
    ensures i < |s.conns[g].answers| && (Stale(s.conns[g], i) <==> !Own(m.conns[g], i, i))
  {
    assert ConnInv(m, m.conns[g]) && ConnSim(s.conns[g], m.conns[g]) && LogOk(m, m.conns[g], i);
    var a, x := m.conns[g].requests[i], m.conns[g].log[i];
    assert m.calls[a.call] == AbsCall(s.calls[a.call]) && m.calls[x.call] == AbsCall(s.calls[x.call]);
  }

  // A call's own request lies ever further behind the reply it reads.
  lemma {:induction false} OwnStaysBehind(m: MState, n: MConn, i: nat, j: nat)
    requires ConnInv(m, n) && i <= j < |n.log| && !Own(n, i, i)
    ensures exists q :: j < q && Own(n, j, q)
    decreases j
  {
    assert LogOk(m, n, j);
    var q :| j <= q && Own(n, j, q);
    if i < j {
      OwnStaysBehind(m, n, i, j - 1);
      var p :| j - 1 < p && Own(n, j - 1, p);
      assert p < q;
    }
  }

  // Once one exchange on a connection has read a stale reply, every later one does.
  lemma OnceStaleAlwaysStale(es: seq<Event>, g: nat, i: nat, j: nat)
    requires Run(es) && CleanRun(Init(), es) && FreshCalls(After(es))
    requires g < |After(es).conns| && i <= j < |After(es).conns[g].log| && Stale(After(es).conns[g], i)
    ensures Stale(After(es).conns[g], j)
  {
    CleanRunFacts(es);
    var s, m := After(es), Messages(es);
    StaleMeansNotOwn(s, m, g, i);
    StaleMeansNotOwn(s, m, g, j);
    var n := m.conns[g];
    assert ConnInv(m, n);
    OwnStaysBehind(m, n, i, j);
    var q :| j < q && Own(n, j, q);
    assert n.requests[j].call != n.requests[q].call;
  }

  // A call about to finish has read the answer to its own request exactly when its
  // request is the only whole one on the connection without a completed exchange,
  // that is, when no call was cancelled there between its request and its reply.
  lemma OwnReplyExactly(es: seq<Event>, c: nat)
    requires Run(es) && CleanRun(Init(), es) && FreshCalls(After(es)) && Enabled(After(es), Finished(c))
    ensures var s := After(es);
            var n := s.conns[s.slot.value];
            |n.log| < |n.answers|
            && n.answers[|n.log|].reply == s.calls[c].phase.got[4..]
            && (n.answers[|n.log|].request == s.calls[c].payload <==> |Deframe(n.sent).0| == |n.log| + 1)
  {
    CleanRunFacts(es);
    var s, m := After(es), Messages(es);
    var n, mn := s.conns[s.slot.value], m.conns[s.slot.value];
    assert CallOk(s, s.calls[c], s.holder == Some(c));
    assert m.calls[c] == AbsCall(s.calls[c]);
    assert LiveSim(n, mn, [], s.calls[c].phase.got);
    ReadWhole(n, mn, s.calls[c].phase.got);
    assert n.sent == SentFrames(mn) + [];
    DeframeInvertsFrames(Payloads(mn.requests), []);
    LastRequestIsOwn(s, m, c);
  }

  lemma RequestIsOfCall(s: State, m: MState, g: nat, i: nat)
    requires Sim(s, m) && MInv(m) && g < |m.conns| && i < |m.conns[g].requests|
    ensures var a := m.conns[g].requests[i];
            a.call < |s.calls| && a.payload == s.calls[a.call].payload
  {
    assert ConnInv(m, m.conns[g]);
    var d := m.conns[g].requests[i].call;
    assert m.calls[d] == AbsCall(s.calls[d]);
  }

  lemma LastRequestIsOwn(s: State, m: MState, c: nat)
    requires Sim(s, m) && MInv(m) && FreshCalls(s) && HasConn(s) && c < |s.calls|
    requires m.holder == Some(c) && m.calls[c].phase.MAwaiting?
    ensures var mn := m.conns[s.slot.value];
            var i := |mn.log|;
            i < |mn.requests| && (mn.requests[i].payload == s.calls[c].payload <==> |mn.requests| == i + 1)
  {
    var g := s.slot.value;
    var mn := m.conns[g];
    assert ConnInv(m, mn);
    var i, last := |mn.log|, |mn.requests| - 1;
    assert mn.requests[last].call == c;
    RequestIsOfCall(s, m, g, i);
    RequestIsOfCall(s, m, g, last);
    if i < last { assert mn.requests[i].call != c; }
  }

  // --- Cancellation inside a frame ------------------------------------------

  // Whole requests were written and whole answers read.
  ghost predicate Aligned(n: Conn) {
    (exists ps: seq<Payload> :: n.sent == Frames(ps))
    && exists k: nat :: k <= |n.answers| && n.taken == AnswerBytes(n, k)
  }

  // The length of the first k answers as frames.
  function AnswerBytes(n: Conn, k: nat): nat
    requires k <= |n.answers|
  {
    if k == 0 then 0 else AnswerBytes(n, k - 1) + |Frame(n.answers[k - 1].reply)|
  }

  lemma {:induction false} AnswerBytesAreFrames(n: Conn, m: MConn, k: nat)
    requires ConnSim(n, m) && k <= |m.replies|
    ensures AnswerBytes(n, k) == |Frames(m.replies[..k])|
    decreases k
  {
    if k > 0 {
      AnswerBytesAreFrames(n, m, k - 1);
      FramesSnoc(m.replies[..k - 1], m.replies[k - 1]);
      assert m.replies[..k - 1] + [m.replies[k - 1]] == m.replies[..k];
    }
  }

  lemma {:induction false} AnswerBytesGrow(n: Conn, j: nat, k: nat)
    requires j <= k <= |n.answers|
    ensures AnswerBytes(n, k) >= AnswerBytes(n, j) + 4 * (k - j)
    decreases k
  {
    if j < k { AnswerBytesGrow(n, j, k - 1); }
  }

  lemma PartialWriteMisaligns(n: Conn, m: MConn, p: Payload, w: nat, ps: seq<Payload>)
    requires 0 < w < |Frame(p)| && LiveSim(n, m, Frame(p)[..w], [])
    ensures n.sent != Frames(ps)
  {
    PartialFrame(p, w);
    DeframeInvertsFrames(Payloads(m.requests), Frame(p)[..w]);
    DeframeInvertsFrames(ps, []);
    assert Frames(ps) + [] == Frames(ps);
  }

  lemma PartialReadMisaligns(n: Conn, m: MConn, got: Bytes, k: nat)
    requires LiveSim(n, m, [], got) && got != [] && GotOk(got) && !Complete(got) && !Oversized(got)
    requires k <= |n.answers|
    ensures n.taken != AnswerBytes(n, k)
  {
    UnreadReply(n, m, got);
    var p, tail := m.replies[m.read], Frames(m.replies[m.read + 1..]);
    if |got| >= 4 { FrameAgrees(got, p, tail); }
    assert |got| < |Frame(p)|;
    AnswerBytesAreFrames(n, m, m.read);
    assert AnswerBytes(n, m.read + 1) == |Frames(m.replies[..m.read])| + |Frame(p)|;
    if k <= m.read { AnswerBytesGrow(n, k, m.read); } else { AnswerBytesGrow(n, m.read + 1, k); }
  }

  lemma BoundaryAligns(n: Conn, m: MConn)
    requires LiveSim(n, m, [], [])
    ensures Aligned(n)
  {
    AnswerBytesAreFrames(n, m, m.read);
    assert n.sent == Frames(Payloads(m.requests));
  }

  // A cancelled exchange leaves its connection in the slot; it leaves it aligned
  // exactly when the call was suspended between whole frames.
  lemma CancellationAlignsExactly(es: seq<Event>, c: nat)
    requires Run(es) && CleanRun(Init(), es) && Enabled(After(es), Cancelled(c))
    requires After(es).holder == Some(c) && After(es).slot.Some?
    ensures var s := After(es);
            var t := Apply(s, Cancelled(c));
            t.holder == None && t.slot == s.slot && HasConn(t)
            && (Aligned(t.conns[t.slot.value]) <==> AtBoundary(s.calls[c]))
  {
    CleanRunFacts(es);
    var s, m := After(es), Messages(es);
    var g, k := s.slot.value, s.calls[c];
    var n, mn := s.conns[g], m.conns[g];
    assert CallOk(s, k, s.holder == Some(c));
    assert LiveSim(n, mn, Tail(k), Got(k));
    if AtBoundary(k) {
      assert Frame(k.payload)[..0] == [];
      BoundaryAligns(n, mn);
    } else if k.phase.Writing? {
      forall ps: seq<Payload> ensures n.sent != Frames(ps) {
        PartialWriteMisaligns(n, mn, k.payload, k.phase.written, ps);
      }
    } else {
      forall j: nat | j <= |n.answers| ensures n.taken != AnswerBytes(n, j) {
        PartialReadMisaligns(n, mn, k.phase.got, j);
      }
    }
  }
}
