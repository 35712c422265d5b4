/**
 The read side of the shared channel in orderly runs: every completed exchange has read the
 next answer as a whole, wherever else calls were cancelled.
 */
module TlsReading {
  import opened Wrappers
  import opened Framing
  import opened TlsCuts
  import opened TlsMachine
  import opened TlsRefinement

  // The replies that the peer gave on a connection.
  function Given(n: Conn): (ps: seq<Payload>)
    ensures |ps| == |n.answers| && forall i :: 0 <= i < |ps| ==> ps[i] == n.answers[i].reply
  {
    seq(|n.answers|, i requires 0 <= i < |n.answers| => n.answers[i].reply)
  }

  // Exchange i read answer i.
  predicate LoggedOk(calls: seq<Call>, n: Conn, i: nat) {
    && i < |n.log| && i < |n.answers| && n.log[i].reply == n.answers[i].reply
    && n.log[i].call < |calls| && n.log[i].request == calls[n.log[i].call].payload
  }

  ghost predicate RepliesOk(calls: seq<Call>, n: Conn) {
    && |n.log| <= |n.answers| && n.inbound == Frames(Given(n))
    && forall i :: 0 <= i < |n.log| ==> LoggedOk(calls, n, i)
  }

  ghost predicate LiveOk(n: Conn, got: Bytes) { ReadSim(n.inbound, n.taken, Given(n), |n.log|, got) }

  ghost predicate ReadInv(s: State) {
    && (forall g :: 0 <= g < |s.conns| ==> RepliesOk(s.calls, s.conns[g]))
    && (HasConn(s) ==> LiveOk(s.conns[s.slot.value], HolderGot(s)) || Lost(s, s.slot.value))
  }

  // No exchange completes on the connection any more.
  ghost predicate Lost(s: State, g: nat) { g < |s.conns| && exists at :: Misplaced(s, g, at, s.conns[g].log) }

  lemma GivenMore(n: Conn, request: Payload, reply: Payload)
    requires n.inbound == Frames(Given(n))
    ensures var n' := n.(heard := n.heard + 4 + |request|, inbound := n.inbound + Frame(reply),
                         answers := n.answers + [Answer(request, reply)]);
            Given(n') == Given(n) + [reply] && n'.inbound == Frames(Given(n'))
            && forall got :: LiveOk(n, got) ==> LiveOk(n', got)
  {
    var n' := n.(answers := n.answers + [Answer(request, reply)]);
    assert Given(n') == Given(n) + [reply];
    FramesSnoc(Given(n), reply);
    if |n.log| <= |n.answers| { assert Given(n')[..|n.log|] == Given(n)[..|n.log|]; }
  }

  lemma FinisherIsNotLost(s: State, c: nat)
    requires Inv(s) && ReadInv(s) && Enabled(s, Finished(c))
    ensures LiveOk(s.conns[s.slot.value], s.calls[c].phase.got)
  {
    assert CallOk(s, s.calls[c], s.holder == Some(c));
    var g := s.slot.value;
    if Lost(s, g) {
      var at: nat :| Misplaced(s, g, at, s.conns[g].log);
      HeaderTooLarge(s.conns[g], at, s.calls[c].phase.got);
    }
  }

  lemma FinishedReads(n: Conn, k: Call, c: nat)
    requires k.phase.Reading? && Complete(k.phase.got) && LiveOk(n, k.phase.got)
    ensures |n.log| < |n.answers| && n.answers[|n.log|].reply == k.phase.got[4..]
    ensures LiveOk(n.(log := n.log + [Exchange(c, k.payload, k.phase.got[4..])]), [])
  {
    WholeRead(n.inbound, n.taken, Given(n), |n.log|, k.phase.got);
    assert Given(n.(log := n.log + [Exchange(c, k.payload, k.phase.got[4..])])) == Given(n);
  }

  // --- One event ------------------------------------------------------------

  lemma RepliesGrow(calls: seq<Call>, later: seq<Call>, n: Conn)
    requires RepliesOk(calls, n) && |calls| <= |later|
    requires forall c :: 0 <= c < |calls| ==> later[c].payload == calls[c].payload
    ensures RepliesOk(later, n)
  {
    forall i | 0 <= i < |n.log| ensures LoggedOk(later, n, i) { assert LoggedOk(calls, n, i); }
  }

  lemma AnsweredKeepsReplies(calls: seq<Call>, n: Conn, request: Payload, reply: Payload)
    requires RepliesOk(calls, n)
    ensures RepliesOk(calls, n.(heard := n.heard + 4 + |request|, inbound := n.inbound + Frame(reply),
                                answers := n.answers + [Answer(request, reply)]))
  {
    var n' := n.(heard := n.heard + 4 + |request|, inbound := n.inbound + Frame(reply),
                 answers := n.answers + [Answer(request, reply)]);
    GivenMore(n, request, reply);
    forall i | 0 <= i < |n'.log| ensures LoggedOk(calls, n', i) { assert LoggedOk(calls, n, i); }
  }

  lemma FinishedKeepsReplies(calls: seq<Call>, n: Conn, c: nat)
    requires RepliesOk(calls, n) && c < |calls| && calls[c].phase.Reading? && Complete(calls[c].phase.got)
    requires LiveOk(n, calls[c].phase.got)
    ensures RepliesOk(calls, n.(log := n.log + [Exchange(c, calls[c].payload, calls[c].phase.got[4..])]))
  {
    var n' := n.(log := n.log + [Exchange(c, calls[c].payload, calls[c].phase.got[4..])]);
    FinishedReads(n, calls[c], c);
    assert Given(n') == Given(n);
    forall i | 0 <= i < |n'.log| ensures LoggedOk(calls, n', i) {
      if i < |n.log| { assert LoggedOk(calls, n, i); }
    }
  }

  lemma SameReplies(calls: seq<Call>, n: Conn, n': Conn)
    requires RepliesOk(calls, n) && n'.log == n.log && n'.answers == n.answers && n'.inbound == n.inbound
    ensures RepliesOk(calls, n')
  {
    assert Given(n') == Given(n);
    forall i | 0 <= i < |n'.log| ensures LoggedOk(calls, n', i) { assert LoggedOk(calls, n, i); }
  }

  lemma RepliesUnchanged(s: State, e: Event, g: nat)
    requires Enabled(s, e) && g < |s.conns| && !(e.Answered? && e.g == g) && !(e.Finished? && s.slot == Some(g))
    ensures g < |Apply(s, e).conns|
    ensures var (n, n') := (s.conns[g], Apply(s, e).conns[g]);
            n'.log == n.log && n'.answers == n.answers && n'.inbound == n.inbound
  {}

  lemma ConnReplies(s: State, e: Event, g: nat)
    requires Inv(s) && ReadInv(s) && Enabled(s, e) && g < |s.conns|
    ensures g < |Apply(s, e).conns| && RepliesOk(s.calls, Apply(s, e).conns[g])
  {
    var n := s.conns[g];
    assert RepliesOk(s.calls, n);
    if e.Answered? && e.g == g {
      AnsweredKeepsReplies(s.calls, n, NextFrame(n.sent[n.heard..]).value, e.reply);
    } else if e.Finished? && s.slot == Some(g) {
      FinisherIsNotLost(s, e.c);
      FinishedKeepsReplies(s.calls, n, e.c);
    } else {
      RepliesUnchanged(s, e, g);
      SameReplies(s.calls, n, Apply(s, e).conns[g]);
    }
  }

  lemma RepliesStep(s: State, e: Event, g: nat)
    requires Inv(s) && ReadInv(s) && Enabled(s, e) && g < |Apply(s, e).conns|
    ensures RepliesOk(Apply(s, e).calls, Apply(s, e).conns[g])
  {
    if g < |s.conns| {
      ConnReplies(s, e, g);
      PayloadsKept(s, e);
      RepliesGrow(s.calls, Apply(s, e).calls, Apply(s, e).conns[g]);
    }
  }

  lemma PayloadsKept(s: State, e: Event)
    requires Enabled(s, e)
    ensures var t := Apply(s, e);
            |s.calls| <= |t.calls| && forall c :: 0 <= c < |s.calls| ==> t.calls[c].payload == s.calls[c].payload
  {}

  lemma ReceivedReads(n: Conn, got: Bytes, k: nat)
    requires LiveOk(n, got) && n.taken + k <= |n.inbound|
    ensures LiveOk(TakenConn(n, k), got + n.inbound[n.taken..n.taken + k])
  {
    ReadMore(n.inbound, n.taken, Given(n), |n.log|, got, k);
    assert Given(TakenConn(n, k)) == Given(n);
  }

  lemma SameLive(n: Conn, n': Conn, got: Bytes)
    requires LiveOk(n, got) && n'.log == n.log && n'.answers == n.answers && n'.inbound == n.inbound
    requires n'.taken == n.taken
    ensures LiveOk(n', got)
  {
    assert Given(n') == Given(n);
  }

  lemma LiveReceived(s: State, c: nat, n: nat)
    requires Enabled(s, Received(c, n)) && s.holder == Some(c) && LiveOk(s.conns[s.slot.value], HolderGot(s))
    ensures var t := Apply(s, Received(c, n)); LiveOk(t.conns[s.slot.value], HolderGot(t))
  {
    ReceivedGot(s, c, n);
    ReceivedReads(s.conns[s.slot.value], HolderGot(s), n);
  }

  lemma LiveFinished(s: State, c: nat)
    requires Inv(s) && Enabled(s, Finished(c)) && s.holder == Some(c)
    requires LiveOk(s.conns[s.slot.value], HolderGot(s))
    ensures var t := Apply(s, Finished(c)); LiveOk(t.conns[s.slot.value], HolderGot(t))
  {
    FinishedReads(s.conns[s.slot.value], s.calls[c], c);
  }

  // The other steps of a holder read nothing.
  lemma HolderReadsNothing(s: State, e: Event, c: nat)
    requires Inv(s) && Enabled(s, e) && HasConn(s) && s.holder == Some(c) && Actor(e) == Some(c)
    requires !e.Failed? && !e.Received? && !e.Finished? && (e.Cancelled? ==> HolderGot(s) == [])
    ensures HolderGot(s) == HolderGot(Apply(s, e)) == []
    ensures var (n, n') := (s.conns[s.slot.value], Apply(s, e).conns[s.slot.value]);
            n'.log == n.log && n'.answers == n.answers && n'.inbound == n.inbound && n'.taken == n.taken
  {
    assert CallOk(s, s.calls[c], true);
  }

  // A call cancelled inside a body leaves the connection lost.
  lemma CancelledLoses(s: State, c: nat)
    requires Inv(s) && Enabled(s, Cancelled(c)) && HasConn(s) && s.holder == Some(c)
    requires Orderly(s, Cancelled(c)) && HolderGot(s) != []
    ensures Lost(Apply(s, Cancelled(c)), s.slot.value)
  {
    var t, n := Apply(s, Cancelled(c)), s.conns[s.slot.value];
    assert ReadsFrom(n, n.taken, HolderGot(t));
    assert Misplaced(t, s.slot.value, n.taken, n.log);
  }

  lemma LiveStepOfHolder(s: State, e: Event, c: nat)
    requires Inv(s) && Enabled(s, e) && HasConn(s) && s.holder == Some(c) && Actor(e) == Some(c)
    requires Orderly(s, e) && !e.Failed? && LiveOk(s.conns[s.slot.value], HolderGot(s))
    ensures s.slot.value < |Apply(s, e).conns|
    ensures LiveOk(Apply(s, e).conns[s.slot.value], HolderGot(Apply(s, e))) || Lost(Apply(s, e), s.slot.value)
  {
    if e.Received? {
      LiveReceived(s, c, e.n);
    } else if e.Finished? {
      LiveFinished(s, c);
    } else if e.Cancelled? && HolderGot(s) != [] {
      CancelledLoses(s, c);
    } else {
      HolderReadsNothing(s, e, c);
      SameLive(s.conns[s.slot.value], Apply(s, e).conns[s.slot.value], []);
    }
  }

  // Steps of others leave the holder and the connection in the slot as they are, but for
  // what the peer still answers.
  lemma LiveStepOfOthers(s: State, e: Event)
    requires Inv(s) && ReadInv(s) && Enabled(s, e) && HasConn(s) && (s.holder.Some? ==> Actor(e) != s.holder)
    requires !e.Grant? && LiveOk(s.conns[s.slot.value], HolderGot(s))
    ensures Apply(s, e).slot == s.slot && HasConn(Apply(s, e))
    ensures LiveOk(Apply(s, e).conns[s.slot.value], HolderGot(Apply(s, e)))
  {
    var t := Apply(s, e);
    if Actor(e).Some? { assert CallOk(s, s.calls[Actor(e).value], s.holder == Some(Actor(e).value)); }
    assert HolderGot(t) == HolderGot(s);
    if e.Answered? && s.slot == Some(e.g) {
      assert RepliesOk(s.calls, s.conns[e.g]);
      GivenMore(s.conns[e.g], NextFrame(s.conns[e.g].sent[s.conns[e.g].heard..]).value, e.reply);
    }
  }

  lemma LiveStep(s: State, e: Event)
    requires Inv(s) && ReadInv(s) && Enabled(s, e) && Orderly(s, e) && HasConn(s) && HasConn(Apply(s, e))
    requires LiveOk(s.conns[s.slot.value], HolderGot(s)) && Apply(s, e).slot == s.slot && !e.Failed?
    ensures LiveOk(Apply(s, e).conns[s.slot.value], HolderGot(Apply(s, e))) || Lost(Apply(s, e), s.slot.value)
  {
    if e.Grant? {
      assert HolderGot(Apply(s, e)) == HolderGot(s) == [];
    } else if s.holder.Some? && Actor(e) == s.holder {
      LiveStepOfHolder(s, e, s.holder.value);
    } else {
      LiveStepOfOthers(s, e);
    }
  }

  lemma LostStep(s: State, e: Event)
    requires Inv(s) && Enabled(s, e) && Orderly(s, e) && HasConn(s) && Lost(s, s.slot.value)
    ensures Lost(Apply(s, e), s.slot.value)
  {
    var at: nat :| Misplaced(s, s.slot.value, at, s.conns[s.slot.value].log);
    MisplacedStep(s, e, s.slot.value, at, s.conns[s.slot.value].log);
  }

  lemma PositionStep(s: State, e: Event)
    requires Inv(s) && ReadInv(s) && Enabled(s, e) && Orderly(s, e) && HasConn(Apply(s, e))
    ensures var t := Apply(s, e); LiveOk(t.conns[t.slot.value], HolderGot(t)) || Lost(t, t.slot.value)
  {
    if e.Connected? {
      assert Given(NewConn()) == [];
      assert CallOk(s, s.calls[e.c], s.holder == Some(e.c));
    } else {
      SlotStays(s, e);
      if Lost(s, s.slot.value) { LostStep(s, e); } else { LiveStep(s, e); }
    }
  }

  lemma SlotStays(s: State, e: Event)
    requires Inv(s) && Enabled(s, e) && HasConn(Apply(s, e)) && !e.Connected?
    ensures HasConn(s) && !e.Failed? && Apply(s, e).slot == s.slot
  {}

  lemma ReadStep(s: State, e: Event)
    requires Inv(s) && ReadInv(s) && Enabled(s, e) && Orderly(s, e)
    ensures ReadInv(Apply(s, e))
  {
    var t := Apply(s, e);
    forall g | 0 <= g < |t.conns| ensures RepliesOk(t.calls, t.conns[g]) { RepliesStep(s, e, g); }
    if HasConn(t) { PositionStep(s, e); }
  }

  lemma {:induction false} ReadRun(s: State, es: seq<Event>)
    requires Inv(s) && ReadInv(s) && ValidRun(s, es) && OrderlyRun(s, es)
    ensures ReadInv(Exec(s, es))
    decreases |es|
  {
    if es != [] {
      ReadStep(s, es[0]);
      InvStep(s, es[0]);
      ReadRun(Apply(s, es[0]), es[1..]);
    }
  }

  // In an orderly run, cancelling a call inside the body of a reply that is text is orderly.
  lemma TextCutsAreOrderly(es: seq<Event>, c: nat)
    requires Run(es) && OrderlyRun(Init(), es) && Enabled(After(es), Cancelled(c))
    requires After(es).calls[c].phase.Reading? && |After(es).calls[c].phase.got| >= 4
    requires forall g, i :: 0 <= g < |After(es).conns| && 0 <= i < |After(es).conns[g].answers| ==>
               0 !in After(es).conns[g].answers[i].reply
    ensures Orderly(After(es), Cancelled(c))
  {
    Reachable(es);
    ReadRun(Init(), es);
    var s := After(es);
    assert CallOk(s, s.calls[c], s.holder == Some(c));
    var g, got := s.slot.value, s.calls[c].phase.got;
    if Lost(s, g) {
      var at: nat :| Misplaced(s, g, at, s.conns[g].log);
      HeaderTooLarge(s.conns[g], at, got);
    } else {
      NextByteInBody(s.conns[g], got);
    }
  }

  lemma NextByteInBody(n: Conn, got: Bytes)
    requires LiveOk(n, got) && |got| >= 4 && GotOk(got) && !Complete(got) && !Oversized(got)
    requires forall i :: 0 <= i < |n.answers| ==> 0 !in n.answers[i].reply
    ensures AtText(n)
  {
    UnreadPart(n.inbound, n.taken, Given(n), |n.log|, got);
    var reply, rest := Given(n)[|n.log|], Frames(Given(n)[|n.log| + 1..]);
    FrameAgrees(got, reply, rest);
    FramesSplit(Given(n), |n.log|);
    FramesFrom(Given(n), |n.log|);
    var base := |Frames(Given(n)[..|n.log|])|;
    assert n.inbound[base..] == Frame(reply) + rest;
    assert n.inbound[n.taken] == n.inbound[base..][|got|] == Frame(reply)[|got|] == Frame(reply)[4..][|got| - 4];
    assert reply[|got| - 4] in reply;
  }

  // --- Delivered replies ----------------------------------------------------

  ghost predicate DeliveredBy(s: State, c: nat, g: nat, i: nat) {
    c < |s.calls| && g < |s.conns| && i < |s.conns[g].log| && s.calls[c].phase.Done?
    && s.calls[c].phase.outcome.Reply?
    && s.conns[g].log[i] == Exchange(c, s.calls[c].payload, s.calls[c].phase.outcome.bytes)
  }

  ghost predicate AllDelivered(s: State) {
    forall c :: 0 <= c < |s.calls| && s.calls[c].phase.Done? && s.calls[c].phase.outcome.Reply? ==>
      exists g, i :: DeliveredBy(s, c, g, i)
  }

  lemma DeliveredStays(s: State, e: Event, c: nat, g: nat, i: nat)
    requires Enabled(s, e) && DeliveredBy(s, c, g, i)
    ensures DeliveredBy(Apply(s, e), c, g, i)
  {}

  lemma DeliveredStep(s: State, e: Event)
    requires AllDelivered(s) && Enabled(s, e)
    ensures AllDelivered(Apply(s, e))
  {
    var t := Apply(s, e);
    forall c | 0 <= c < |t.calls| && t.calls[c].phase.Done? && t.calls[c].phase.outcome.Reply?
      ensures exists g, i :: DeliveredBy(t, c, g, i)
    {
      if e == Finished(c) {
        assert DeliveredBy(t, c, s.slot.value, |s.conns[s.slot.value].log|);
      } else {
        assert c < |s.calls| && s.calls[c].phase == t.calls[c].phase;
        var g, i :| DeliveredBy(s, c, g, i);
        DeliveredStays(s, e, c, g, i);
      }
    }
  }

  lemma {:induction false} DeliveredRun(s: State, es: seq<Event>)
    requires AllDelivered(s) && ValidRun(s, es)
    ensures AllDelivered(Exec(s, es))
    decreases |es|
  {
    if es != [] {
      DeliveredStep(s, es[0]);
      DeliveredRun(Apply(s, es[0]), es[1..]);
    }
  }

  // In every run, a call that got a reply got it from a completed exchange of its own.
  lemma DeliveredExchange(es: seq<Event>, c: nat) returns (g: nat, i: nat)
    requires Run(es)
    requires c < |After(es).calls| && After(es).calls[c].phase.Done? && After(es).calls[c].phase.outcome.Reply?
    ensures DeliveredBy(After(es), c, g, i)
  {
    DeliveredRun(Init(), es);
    g, i :| DeliveredBy(After(es), c, g, i);
  }
}
