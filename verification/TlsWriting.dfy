/**
 The write side of the shared channel, whatever was cancelled where: what a peer can hear
 that no single call sent has a zero byte in it.
 */
module TlsWriting {
  import opened Wrappers
  import opened Framing
  import opened TlsMachine

  // The bytes `x` stand at offset `o` in `whole`.
  predicate StandsAt(x: Bytes, whole: Bytes, o: nat) { o + |x| <= |whole| && whole[o..o + |x|] == x }

  predicate PieceOf(calls: seq<Call>, x: Bytes, c: nat, o: nat) {
    c < |calls| && StandsAt(x, Frame(calls[c].payload), o)
  }

  ghost predicate Piece(calls: seq<Call>, x: Bytes) { exists c, o :: PieceOf(calls, x, c, o) }

  // Whatever was sent without a zero byte in it was sent by one call in one go.
  ghost predicate Pieces(calls: seq<Call>, sent: Bytes) {
    forall lo, hi :: 0 <= lo < hi <= |sent| && 0 !in sent[lo..hi] ==> Piece(calls, sent[lo..hi])
  }

  ghost predicate Slice(x: Bytes, whole: Bytes) { exists o :: StandsAt(x, whole, o) }

  ghost predicate SentOk(calls: seq<Call>, n: Conn) {
    n.heard <= |n.sent| && Pieces(calls, n.sent)
    && forall j :: 0 <= j < |n.answers| ==> Slice(n.answers[j].request, n.sent)
  }

  // The last bytes sent are those the holder has written of its frame.
  predicate EndsWithWritten(sent: Bytes, k: Call) {
    k.phase.Writing? ==>
      k.phase.written <= |sent| && k.phase.written <= |Frame(k.payload)|
      && sent[|sent| - k.phase.written..] == Frame(k.payload)[..k.phase.written]
  }

  ghost predicate SendInv(s: State) {
    && (forall g :: 0 <= g < |s.conns| ==> SentOk(s.calls, s.conns[g]))
    && (forall c :: 0 <= c < |s.calls| && s.calls[c].phase.Writing? && HasConn(s) ==>
          EndsWithWritten(s.conns[s.slot.value].sent, s.calls[c]))
  }

  lemma HeaderStartsWithZeros(p: Payload)
    requires |p| <= MAX_REQUEST_BYTES
    ensures Frame(p)[0] == 0 && Frame(p)[1] == 0
  {}

  // Appending a part of a frame keeps the pieces: a piece that reached back over the start of
  // the frame would hold the zero byte there.
  lemma PiecesAppend(calls: seq<Call>, sent: Bytes, c: nat, n: nat)
    requires Pieces(calls, sent) && c < |calls| && calls[c].phase.Writing? && EndsWithWritten(sent, calls[c])
    requires |calls[c].payload| <= MAX_REQUEST_BYTES
    requires 1 <= n && calls[c].phase.written + n <= |Frame(calls[c].payload)|
    ensures var (f, w) := (Frame(calls[c].payload), calls[c].phase.written);
            Pieces(calls, sent + f[w..w + n])
  {
    var f, w := Frame(calls[c].payload), calls[c].phase.written;
    var start, more := |sent| - w, sent + f[w..w + n];
    AppendedPart(sent, f, w, n);
    HeaderStartsWithZeros(calls[c].payload);
    assert more[start] == more[start..][0] == 0;
    forall lo, hi | 0 <= lo <= start < hi <= |more| ensures 0 in more[lo..hi] {
      assert more[lo..hi][start - lo] == more[start];
    }
    forall lo, hi | 0 <= lo < hi <= |more| && 0 !in more[lo..hi] ensures Piece(calls, more[lo..hi]) {
      if hi <= |sent| {
        assert more[lo..hi] == sent[lo..hi];
      } else if start <= lo {
        SliceOfSlice(more, start, lo, hi);
        SliceOfPrefix(f, w + n, lo - start, hi - start);
        assert PieceOf(calls, more[lo..hi], c, lo - start);
      }
    }
  }

  lemma SliceOfSlice(b: Bytes, start: nat, lo: nat, hi: nat)
    requires start <= lo <= hi <= |b|
    ensures b[lo..hi] == b[start..][lo - start..hi - start]
  {}

  lemma SliceOfPrefix(f: Bytes, n: nat, lo: nat, hi: nat)
    requires lo <= hi <= n <= |f|
    ensures f[..n][lo..hi] == f[lo..hi]
  {}

  lemma AppendedPart(sent: Bytes, f: Bytes, w: nat, n: nat)
    requires w <= |sent| && w + n <= |f| && sent[|sent| - w..] == f[..w]
    ensures (sent + f[w..w + n])[|sent| - w..] == f[..w + n]
  {}

  // Calls keep their payloads, so pieces stay pieces.
  lemma PiecesStay(calls: seq<Call>, later: seq<Call>, sent: Bytes)
    requires Pieces(calls, sent) && |calls| <= |later|
    requires forall c :: 0 <= c < |calls| ==> later[c].payload == calls[c].payload
    ensures Pieces(later, sent)
  {
    forall lo, hi | 0 <= lo < hi <= |sent| && 0 !in sent[lo..hi] ensures Piece(later, sent[lo..hi]) {
      var c, o :| PieceOf(calls, sent[lo..hi], c, o);
      assert PieceOf(later, sent[lo..hi], c, o);
    }
  }

  lemma SliceOfLonger(x: Bytes, whole: Bytes, more: Bytes)
    requires Slice(x, whole)
    ensures Slice(x, whole + more)
  {
    var o: nat :| StandsAt(x, whole, o);
    assert (whole + more)[o..o + |x|] == whole[o..o + |x|];
    assert StandsAt(x, whole + more, o);
  }

  lemma HeardSlice(n: Conn, p: Payload)
    requires n.heard <= |n.sent| && NextFrame(n.sent[n.heard..]) == Some(p)
    ensures n.heard + 4 + |p| <= |n.sent| && Slice(p, n.sent)
  {
    var b := n.sent[n.heard..];
    assert b[4..4 + |p|] == p;
    SliceOfSlice(n.sent, n.heard, n.heard + 4, n.heard + 4 + |p|);
    assert StandsAt(p, n.sent, n.heard + 4);
  }

  lemma PayloadsStay(s: State, e: Event)
    requires Enabled(s, e)
    ensures var t := Apply(s, e);
            |s.calls| <= |t.calls| && |s.conns| <= |t.conns|
            && forall c :: 0 <= c < |s.calls| ==> t.calls[c].payload == s.calls[c].payload
  {}

  lemma AnsweredKeepsSent(calls: seq<Call>, n: Conn, p: Payload, reply: Payload)
    requires SentOk(calls, n) && NextFrame(n.sent[n.heard..]) == Some(p)
    ensures SentOk(calls, n.(heard := n.heard + 4 + |p|, inbound := n.inbound + Frame(reply),
                             answers := n.answers + [Answer(p, reply)]))
  {
    HeardSlice(n, p);
  }

  // What the write side of connection g sees of an event.
  lemma SentStep(s: State, e: Event, g: nat)
    requires Inv(s) && SendInv(s) && Enabled(s, e) && g < |Apply(s, e).conns|
    ensures SentOk(Apply(s, e).calls, Apply(s, e).conns[g])
  {
    var t := Apply(s, e);
    PayloadsStay(s, e);
    if g < |s.conns| {
      var n := s.conns[g];
      assert SentOk(s.calls, n);
      if e.Wrote? && s.slot == Some(g) {
        WroteKeepsSent(s, e.c, e.n);
      } else if e.Answered? && e.g == g {
        AnsweredKeepsSent(s.calls, n, NextFrame(n.sent[n.heard..]).value, e.reply);
      } else {
        SameSent(s, e, g);
        PiecesStay(s.calls, t.calls, n.sent);
      }
    }
  }

  lemma SameSent(s: State, e: Event, g: nat)
    requires Enabled(s, e) && g < |s.conns| && !(e.Wrote? && s.slot == Some(g)) && !(e.Answered? && e.g == g)
    ensures var t := Apply(s, e);
            g < |t.conns| && t.conns[g].sent == s.conns[g].sent && t.conns[g].heard == s.conns[g].heard
            && t.conns[g].answers == s.conns[g].answers
  {}

  lemma WroteKeepsSent(s: State, c: nat, n: nat)
    requires Inv(s) && SendInv(s) && Enabled(s, Wrote(c, n))
    ensures var t := Apply(s, Wrote(c, n)); SentOk(t.calls, t.conns[s.slot.value])
  {
    var t, conn, k := Apply(s, Wrote(c, n)), s.conns[s.slot.value], s.calls[c];
    var chunk := Frame(k.payload)[k.phase.written..k.phase.written + n];
    assert CallOk(s, k, s.holder == Some(c)) && SentOk(s.calls, conn);
    PiecesAppend(s.calls, conn.sent, c, n);
    PiecesStay(s.calls, t.calls, conn.sent + chunk);
    forall j | 0 <= j < |conn.answers| ensures Slice(conn.answers[j].request, conn.sent + chunk) {
      SliceOfLonger(conn.answers[j].request, conn.sent, chunk);
    }
  }

  lemma WrittenByActor(s: State, e: Event, c: nat)
    requires Inv(s) && SendInv(s) && Enabled(s, e) && Actor(e) == Some(c)
    requires Apply(s, e).calls[c].phase.Writing? && HasConn(Apply(s, e))
    ensures EndsWithWritten(Apply(s, e).conns[Apply(s, e).slot.value].sent, Apply(s, e).calls[c])
  {
    var k := s.calls[c];
    assert CallOk(s, k, s.holder == Some(c));
    if e.Wrote? { AppendedPart(s.conns[s.slot.value].sent, Frame(k.payload), k.phase.written, e.n); }
  }

  lemma WrittenByOther(s: State, e: Event, c: nat)
    requires Inv(s) && SendInv(s) && Enabled(s, e) && Actor(e) != Some(c) && c < |s.calls|
    requires s.calls[c].phase.Writing? && HasConn(s)
    ensures EndsWithWritten(Apply(s, e).conns[s.slot.value].sent, s.calls[c])
  {
    assert CallOk(s, s.calls[c], s.holder == Some(c));
    if Actor(e).Some? { assert CallOk(s, s.calls[Actor(e).value], s.holder == Some(Actor(e).value)); }
    if !(e.Answered? && e.g == s.slot.value) { SameSent(s, e, s.slot.value); }
  }

  lemma WrittenStep(s: State, e: Event, c: nat)
    requires Inv(s) && SendInv(s) && Enabled(s, e)
    requires c < |Apply(s, e).calls| && Apply(s, e).calls[c].phase.Writing? && HasConn(Apply(s, e))
    ensures EndsWithWritten(Apply(s, e).conns[Apply(s, e).slot.value].sent, Apply(s, e).calls[c])
  {
    if Actor(e) == Some(c) {
      WrittenByActor(s, e, c);
    } else {
      SlotMoves(s, e);
      assert CallOk(s, s.calls[c], s.holder == Some(c));
      OthersKeepHolder(s, e, c);
      WrittenByOther(s, e, c);
    }
  }

  lemma SendStep(s: State, e: Event)
    requires Inv(s) && SendInv(s) && Enabled(s, e)
    ensures SendInv(Apply(s, e))
  {
    var t := Apply(s, e);
    forall g | 0 <= g < |t.conns| ensures SentOk(t.calls, t.conns[g]) { SentStep(s, e, g); }
    forall c | 0 <= c < |t.calls| && t.calls[c].phase.Writing? && HasConn(t)
      ensures EndsWithWritten(t.conns[t.slot.value].sent, t.calls[c])
    {
      WrittenStep(s, e, c);
    }
  }

  lemma {:induction false} SendRun(s: State, es: seq<Event>)
    requires Inv(s) && SendInv(s) && ValidRun(s, es)
    ensures SendInv(Exec(s, es))
    decreases |es|
  {
    if es != [] {
      SendStep(s, es[0]);
      InvStep(s, es[0]);
      SendRun(Apply(s, es[0]), es[1..]);
    }
  }

  lemma SentInOneGo(calls: seq<Call>, sent: Bytes, x: Bytes) returns (c: nat, o: nat)
    requires Pieces(calls, sent) && Slice(x, sent) && x != [] && 0 !in x
    ensures PieceOf(calls, x, c, o)
  {
    var lo: nat :| StandsAt(x, sent, lo);
    assert Piece(calls, sent[lo..lo + |x|]);
    c, o :| PieceOf(calls, x, c, o);
  }
}
