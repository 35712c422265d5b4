/**
 Cancellation inside the body of a reply: it leaves a connection in the slot on which no
 exchange can ever complete again.
 */
module TlsCuts {
  import opened Wrappers
  import opened Framing
  import opened TlsMachine
  import opened TlsRefinement

  // A call that is cancelled while it reads has read nothing of its reply, or the header and
  // a part of the body that a byte other than zero follows. (Text holds no zero byte.)
  predicate Orderly(s: State, e: Event) {
    e.Cancelled? && e.c < |s.calls| && s.calls[e.c].phase.Reading? ==>
      s.calls[e.c].phase.got == [] || (|s.calls[e.c].phase.got| >= 4 && HasConn(s) && AtText(s.conns[s.slot.value]))
  }

  predicate AtText(n: Conn) { n.taken < |n.inbound| && n.inbound[n.taken] != 0 }

  predicate OrderlyRun(s: State, es: seq<Event>)
    requires ValidRun(s, es)
    decreases |es|
  {
    es == [] || (Orderly(s, es[0]) && OrderlyRun(Apply(s, es[0]), es[1..]))
  }

  // Cancellation between whole frames is a special case.
  lemma {:induction false} CleanRunsAreOrderly(s: State, es: seq<Event>)
    requires ValidRun(s, es) && CleanRun(s, es)
    ensures OrderlyRun(s, es)
    decreases |es|
  {
    if es != [] { CleanRunsAreOrderly(Apply(s, es[0]), es[1..]); }
  }

  // Whoever reads from connection g next reads a header that starts at a byte other than
  // zero; `log` are the exchanges completed there.
  ghost predicate Misplaced(s: State, g: nat, at: nat, log: seq<Exchange>) {
    && g < |s.conns| && s.conns[g].log == log && at < |s.conns[g].inbound| && s.conns[g].inbound[at] != 0
    && (s.slot == Some(g) ==> ReadsFrom(s.conns[g], at, HolderGot(s)))
  }

  predicate ReadsFrom(n: Conn, at: nat, got: Bytes) {
    |got| <= 4 && n.taken == at + |got| <= |n.inbound| && got == n.inbound[at..n.taken]
  }

  // Such a header announces at least 2^24 bytes.
  lemma HeaderTooLarge(n: Conn, at: nat, got: Bytes)
    requires ReadsFrom(n, at, got) && at < |n.inbound| && n.inbound[at] != 0 && |got| >= 4
    ensures Oversized(got) && !Complete(got) && Lacking(got) == 0
  {
    assert got[..4][0] == got[0] == n.inbound[at] >= 1;
    assert Announced(got) >= 0x100_0000;
  }

  lemma MisplacedRead(n: Conn, at: nat, got: Bytes, k: nat)
    requires ReadsFrom(n, at, got) && at < |n.inbound| && n.inbound[at] != 0
    requires k <= Lacking(got) && n.taken + k <= |n.inbound|
    ensures ReadsFrom(TakenConn(n, k), at, got + n.inbound[n.taken..n.taken + k])
  {
    if |got| >= 4 { HeaderTooLarge(n, at, got); }
    assert got + n.inbound[n.taken..n.taken + k] == n.inbound[at..n.taken + k];
  }

  lemma MisplacedReceived(s: State, c: nat, n: nat, g: nat, at: nat, log: seq<Exchange>)
    requires Misplaced(s, g, at, log) && Enabled(s, Received(c, n)) && s.slot == Some(g) && s.holder == Some(c)
    ensures Misplaced(Apply(s, Received(c, n)), g, at, log)
  {
    ReceivedGot(s, c, n);
    MisplacedRead(s.conns[g], at, HolderGot(s), n);
  }

  lemma MisplacedByHolder(s: State, e: Event, g: nat, at: nat, log: seq<Exchange>, c: nat)
    requires Inv(s) && Misplaced(s, g, at, log) && Enabled(s, e) && Orderly(s, e)
    requires s.slot == Some(g) && s.holder == Some(c) && Actor(e) == Some(c)
    ensures Misplaced(Apply(s, e), g, at, log)
  {
    var n, k := s.conns[g], s.calls[c];
    assert CallOk(s, k, true);
    if e.Received? {
      MisplacedReceived(s, c, e.n, g, at, log);
    } else {
      if k.phase.Reading? && |k.phase.got| >= 4 { HeaderTooLarge(n, at, k.phase.got); }
    }
  }

  lemma MisplacedByOthers(s: State, e: Event, g: nat, at: nat, log: seq<Exchange>)
    requires Inv(s) && Misplaced(s, g, at, log) && Enabled(s, e)
    requires s.slot == Some(g) ==> s.holder == None || Actor(e) != s.holder
    ensures Misplaced(Apply(s, e), g, at, log)
  {
    if Actor(e).Some? { assert CallOk(s, s.calls[Actor(e).value], s.holder == Some(Actor(e).value)); }
  }

  lemma MisplacedStep(s: State, e: Event, g: nat, at: nat, log: seq<Exchange>)
    requires Inv(s) && Misplaced(s, g, at, log) && Enabled(s, e) && Orderly(s, e)
    ensures Misplaced(Apply(s, e), g, at, log)
  {
    if s.slot == Some(g) && s.holder.Some? && Actor(e) == s.holder {
      MisplacedByHolder(s, e, g, at, log, s.holder.value);
    } else {
      MisplacedByOthers(s, e, g, at, log);
    }
  }

  lemma {:induction false} MisplacedRun(s: State, es: seq<Event>, g: nat, at: nat, log: seq<Exchange>)
    requires Inv(s) && Misplaced(s, g, at, log) && ValidRun(s, es) && OrderlyRun(s, es)
    ensures Misplaced(Exec(s, es), g, at, log) && Inv(Exec(s, es))
    decreases |es|
  {
    if es != [] {
      MisplacedStep(s, es[0], g, at, log);
      InvStep(s, es[0]);
      MisplacedRun(Apply(s, es[0]), es[1..], g, at, log);
    }
  }

  // The only step that call c can take is to fail, and so to clear the slot.
  ghost predicate MustFail(s: State, c: nat) {
    forall e :: Enabled(s, e) && Actor(e) == Some(c) ==> e == Failed(c) && Apply(s, e).slot == None
  }

  // A call cancelled inside the body of a reply, before a byte other than zero, leaves a
  // connection on which no exchange completes in any orderly continuation: the next header
  // read there announces too much, and the call that read it can only fail, which clears
  // the slot.
  lemma CutReplyEndsTheConnection(es: seq<Event>, c: nat, later: seq<Event>)
    requires Run(es) && Enabled(After(es), Cancelled(c)) && Orderly(After(es), Cancelled(c))
    requires After(es).calls[c].phase.Reading? && After(es).calls[c].phase.got != []
    requires ValidRun(Apply(After(es), Cancelled(c)), later) && OrderlyRun(Apply(After(es), Cancelled(c)), later)
    ensures var (s, u) := (After(es), Exec(Apply(After(es), Cancelled(c)), later));
            && HasConn(s) && s.slot.value < |u.conns|
            && u.conns[s.slot.value].log == s.conns[s.slot.value].log
            && (u.slot == s.slot && u.holder.Some? && |HolderGot(u)| >= 4 ==>
                  Oversized(HolderGot(u)) && MustFail(u, u.holder.value))
  {
    Reachable(es);
    var s, t := After(es), Apply(After(es), Cancelled(c));
    assert CallOk(s, s.calls[c], s.holder == Some(c));
    var g := s.slot.value;
    var n := s.conns[g];
    InvStep(s, Cancelled(c));
    MisplacedRun(t, later, g, n.taken, n.log);
    var u := Exec(t, later);
    if u.slot == s.slot && u.holder.Some? && |HolderGot(u)| >= 4 { OnlyFailure(u, g, n.taken, n.log, u.holder.value); }
  }

  lemma OnlyFailure(u: State, g: nat, at: nat, log: seq<Exchange>, d: nat)
    requires Inv(u) && Misplaced(u, g, at, log) && u.slot == Some(g) && u.holder == Some(d) && |HolderGot(u)| >= 4
    ensures Oversized(HolderGot(u)) && MustFail(u, d)
  {
    HeaderTooLarge(u.conns[g], at, HolderGot(u));
  }
}
