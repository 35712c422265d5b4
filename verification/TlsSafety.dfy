/** What the message level keeps, and what that means for the bytes and the callers. */
module TlsSafety {
  import opened Wrappers
  import opened Framing
  import opened TlsMachine
  import opened TlsMessages
  import opened TlsRefinement

  // --- Invariants of the message level --------------------------------------

  predicate MHolding(p: MPhase) { p.MConnecting? || p.MSending? || p.MAwaiting? }

  // Not yet sent in the current attempt.
  predicate Unsent(p: MPhase) { p.MWaiting? || p.MConnecting? || p.MSending? }

  ghost predicate LockInv(m: MState) {
    && (m.holder.Some? ==> m.holder.value < |m.calls|)
    && (m.slot.Some? ==> m.slot.value + 1 == |m.conns|)
    && (forall c :: 0 <= c < |m.calls| ==> (MHolding(m.calls[c].phase) <==> m.holder == Some(c)))
    && (forall c :: 0 <= c < |m.calls| ==>
          match m.calls[c].phase
          case MConnecting(_) => m.slot == None
          case MSending(_) => m.slot.Some?
          case MAwaiting(_) => m.slot.Some?
          case _ => true)
  }

  // Requests are those of calls, one a call; the log pairs a finished call with the
  // reply it read, whose position never passes that of the call's own request.
  ghost predicate ConnInv(m: MState, n: MConn) {
    && n.read == |n.log| <= |n.replies| <= |n.requests|
    && (forall j :: 0 <= j < |n.requests| ==>
          n.requests[j].call < |m.calls| && n.requests[j].payload == m.calls[n.requests[j].call].payload)
    && (forall j, k :: 0 <= j < k < |n.requests| ==> n.requests[j].call != n.requests[k].call)
    && (forall i :: 0 <= i < |n.log| ==> LogOk(m, n, i))
    && (forall i, j, p, q :: 0 <= i < j < |n.log| && Own(n, i, p) && Own(n, j, q) ==> p < q)
  }

  // Request `p` is that of the call that completed exchange `i`.
  predicate Own(n: MConn, i: int, p: int) {
    0 <= i < |n.log| && 0 <= p < |n.requests| && n.requests[p].call == n.log[i].call
  }

  ghost predicate LogOk(m: MState, n: MConn, i: nat) {
    && i < |n.log| <= |n.replies|
    && n.log[i].call < |m.calls| && m.calls[n.log[i].call].phase.MDone?
    && n.log[i].request == m.calls[n.log[i].call].payload
    && n.log[i].reply == n.replies[i]
    && exists p :: i <= p && Own(n, i, p)
  }

  // A call that is to send again has sent nothing on the connection in the slot;
  // the request of a call that awaits its reply is the last one there.
  ghost predicate SlotInv(m: MState) {
    && (MHasConn(m) ==> forall a :: a in m.conns[m.slot.value].requests && a.call < |m.calls| ==>
          !Unsent(m.calls[a.call].phase))
    && (m.holder.Some? && m.holder.value < |m.calls| && m.calls[m.holder.value].phase.MAwaiting? && MHasConn(m) ==>
          var asks := m.conns[m.slot.value].requests;
          |asks| > m.conns[m.slot.value].read && asks[|asks| - 1].call == m.holder.value)
  }

  ghost predicate DoneInv(m: MState) {
    forall c :: 0 <= c < |m.calls| && m.calls[c].phase.MDone? && m.calls[c].phase.outcome.Reply? ==>
      exists g, i :: Delivered(m, c, g, i)
  }

  predicate Delivered(m: MState, c: nat, g: nat, i: nat) {
    c < |m.calls| && g < |m.conns| && i < |m.conns[g].log|
    && m.conns[g].log[i].call == c && m.calls[c].phase == MDone(Reply(m.conns[g].log[i].reply))
  }

  ghost predicate MInv(m: MState) {
    LockInv(m) && SlotInv(m) && DoneInv(m) && forall g :: 0 <= g < |m.conns| ==> ConnInv(m, m.conns[g])
  }

  // Calls keep their payload and, once done, their outcome.
  ghost predicate CallsGrow(m: MState, u: MState) {
    |m.calls| <= |u.calls|
    && forall c :: 0 <= c < |m.calls| ==>
         u.calls[c].payload == m.calls[c].payload && (m.calls[c].phase.MDone? ==> u.calls[c].phase == m.calls[c].phase)
  }

  lemma MCallsGrow(m: MState, e: MEvent)
    requires MEnabled(m, e)
    ensures CallsGrow(m, MApply(m, e))
  {}

  lemma ConnInvGrows(m: MState, u: MState, n: MConn)
    requires ConnInv(m, n) && CallsGrow(m, u)
    ensures ConnInv(u, n)
  {
    forall i | 0 <= i < |n.log| ensures LogOk(u, n, i) { assert LogOk(m, n, i); }
  }

  lemma ConnInvSend(m: MState, n: MConn, c: nat)
    requires ConnInv(m, n) && c < |m.calls|
    requires forall j :: 0 <= j < |n.requests| ==> n.requests[j].call != c
    requires !m.calls[c].phase.MDone?
    ensures ConnInv(m, n.(requests := n.requests + [Ask(c, m.calls[c].payload)]))
  {
    var n' := n.(requests := n.requests + [Ask(c, m.calls[c].payload)]);
    forall i | 0 <= i < |n'.log| ensures LogOk(m, n', i) {
      assert LogOk(m, n, i);
      var p :| i <= p && Own(n, i, p);
      assert Own(n', i, p);
    }
    forall i, j, p, q | 0 <= i < j < |n'.log| && Own(n', i, p) && Own(n', j, q) ensures p < q {
      assert LogOk(m, n, i) && LogOk(m, n, j);
      assert Own(n, i, p) && Own(n, j, q);
    }
  }

  lemma ConnInvAnswer(m: MState, n: MConn, reply: Payload)
    requires ConnInv(m, n) && |n.replies| < |n.requests|
    ensures ConnInv(m, n.(replies := n.replies + [reply]))
  {
    var n' := n.(replies := n.replies + [reply]);
    forall i | 0 <= i < |n'.log| ensures LogOk(m, n', i) {
      assert LogOk(m, n, i);
      var p :| i <= p && Own(n, i, p);
      assert Own(n', i, p);
    }
    forall i, j, p, q | 0 <= i < j < |n'.log| && Own(n', i, p) && Own(n', j, q) ensures p < q {
      assert Own(n, i, p) && Own(n, j, q);
    }
  }

  lemma ConnInvReceive(m: MState, u: MState, n: MConn, c: nat)
    requires ConnInv(m, n) && CallsGrow(m, u)
    requires c < |m.calls| && !m.calls[c].phase.MDone? && u.calls[c].phase.MDone?
    requires n.read < |n.replies| && n.requests[|n.requests| - 1].call == c
    ensures ConnInv(u, n.(read := n.read + 1,
                          log := n.log + [Exchange(c, m.calls[c].payload, n.replies[n.read])]))
  {
    var x := Exchange(c, m.calls[c].payload, n.replies[n.read]);
    var n' := n.(read := n.read + 1, log := n.log + [x]);
    var last := |n.requests| - 1;
    forall i | 0 <= i < |n'.log| ensures LogOk(u, n', i) {
      if i < |n.log| {
        assert LogOk(m, n, i);
        var p :| i <= p && Own(n, i, p);
        assert Own(n', i, p);
      } else {
        assert Own(n', i, last);
      }
    }
    forall i, j, p, q | 0 <= i < j < |n'.log| && Own(n', i, p) && Own(n', j, q) ensures p < q {
      assert LogOk(m, n, i);
      assert Own(n, i, p);
      if j < |n.log| {
        assert Own(n, j, q);
      } else {
        assert n.requests[q].call == c && n.requests[p].call != c;
        assert q == last;
      }
    }
  }

  lemma LockStep(m: MState, e: MEvent)
    requires MInv(m) && MEnabled(m, e)
    ensures LockInv(MApply(m, e))
  {}

  lemma SlotStep(m: MState, e: MEvent)
    requires MInv(m) && MEnabled(m, e)
    ensures SlotInv(MApply(m, e))
  {
    var u := MApply(m, e);
    if MHasConn(m) {
      assert ConnInv(m, m.conns[m.slot.value]);
    }
  }

  lemma DoneStep(m: MState, e: MEvent)
    requires MInv(m) && MEnabled(m, e)
    ensures DoneInv(MApply(m, e))
  {
    var u := MApply(m, e);
    forall c | 0 <= c < |u.calls| && u.calls[c].phase.MDone? && u.calls[c].phase.outcome.Reply?
      ensures exists g, i :: Delivered(u, c, g, i)
    {
      if e == MReceive(c) {
        assert Delivered(u, c, m.slot.value, |m.conns[m.slot.value].log|);
      } else {
        assert m.calls[c].phase == u.calls[c].phase;
        var g, i :| Delivered(m, c, g, i);
        assert Delivered(u, c, g, i);
      }
    }
  }

  lemma ConnsStep(m: MState, e: MEvent, g: nat)
    requires MInv(m) && MEnabled(m, e) && g < |MApply(m, e).conns|
    ensures ConnInv(MApply(m, e), MApply(m, e).conns[g])
  {
    var u := MApply(m, e);
    MCallsGrow(m, e);
    if g < |m.conns| {
      assert ConnInv(m, m.conns[g]);
      if e.MSend? && m.slot == Some(g) {
        ConnInvSend(m, m.conns[g], e.c);
        ConnInvGrows(m, u, u.conns[g]);
      } else if e.MReceive? && m.slot == Some(g) {
        ConnInvReceive(m, u, m.conns[g], e.c);
      } else if e.MAnswer? && e.g == g {
        ConnInvAnswer(m, m.conns[g], e.reply);
        ConnInvGrows(m, u, u.conns[g]);
      } else {
        ConnInvGrows(m, u, m.conns[g]);
      }
    }
  }

  lemma MInvStep(m: MState, e: MEvent)
    requires MInv(m) && MEnabled(m, e)
    ensures MInv(MApply(m, e))
  {
    LockStep(m, e);
    SlotStep(m, e);
    DoneStep(m, e);
    forall g | 0 <= g < |MApply(m, e).conns| ensures ConnInv(MApply(m, e), MApply(m, e).conns[g]) {
      ConnsStep(m, e, g);
    }
  }

  lemma {:induction false} MInvRun(m: MState, es: seq<MEvent>)
    requires MInv(m) && MValidRun(m, es)
    ensures MInv(MExec(m, es))
    decreases |es|
  {
    if es != [] {
      MInvStep(m, es[0]);
      MInvRun(MApply(m, es[0]), es[1..]);
    }
  }

  ghost function Messages(es: seq<Event>): MState
    requires Run(es) && CleanRun(Init(), es)
  {
    BytesRefineMessages(es);
    MExec(MInit(), LiftRun(Init(), es))
  }

  lemma CleanRunFacts(es: seq<Event>)
    requires Run(es) && CleanRun(Init(), es)
    ensures Inv(After(es)) && Sim(After(es), Messages(es)) && MInv(Messages(es))
  {
    Reachable(es);
    BytesRefineMessages(es);
    MInvRun(MInit(), LiftRun(Init(), es));
  }
}
