/** Runs in which the cancellation of one call harms the call that follows. */
module TlsWitnesses {
  import opened Wrappers
  import opened Framing
  import opened Naming
  import opened Service
  import opened Requests
  import opened TlsMachine
  import opened TlsRefinement
  import opened TlsTheorems

  lemma Extend(es: seq<Event>, e: Event)
    requires Run(es) && Enabled(After(es), e)
    ensures Run(es + [e]) && After(es + [e]) == Apply(After(es), e)
    ensures CleanRun(Init(), es) && CleanEvent(After(es), e) ==> CleanRun(Init(), es + [e])
  {
    RunSnoc(Init(), es, e);
    if CleanRun(Init(), es) && CleanEvent(After(es), e) { CleanSnoc(Init(), es, e); }
  }

  lemma {:induction false} CleanSnoc(s: State, es: seq<Event>, e: Event)
    requires ValidRun(s, es) && Enabled(Exec(s, es), e) && CleanRun(s, es) && CleanEvent(Exec(s, es), e)
    ensures ValidRun(s, es + [e]) && CleanRun(s, es + [e])
    decreases |es|
  {
    RunSnoc(s, es, e);
    if es == [] {
      assert [e][1..] == [];
      assert es + [e] == [e];
    } else {
      assert (es + [e])[1..] == es[1..] + [e];
      CleanSnoc(Apply(s, es[0]), es[1..], e);
    }
  }

  function Sent(sent: Bytes): Conn { NewConn().(sent := sent) }

  // One call was dropped, and left this connection.
  function Left(p: Payload, conn: Conn): State {
    State([Call(p, Dropped, 1, [0])], None, Some(0), [conn])
  }

  // The first call has connected and written w bytes of its frame.
  lemma FirstWrites(p: Payload, w: nat) returns (es: seq<Event>)
    requires |p| <= MAX_REQUEST_BYTES && 1 <= w <= |Frame(p)|
    ensures Run(es) && CleanRun(Init(), es)
    ensures After(es) == State([Call(p, Writing(0, w), 1, [0])], Some(0), Some(0), [Sent(Frame(p)[..w])])
  {
    var e0: seq<Event> := [];
    Extend(e0, Start(p));
    var e1 := e0 + [Start(p)];
    assert After(e1).calls == [Call(p, Waiting(0), 0, [])];
    Extend(e1, Grant(0));
    var e2 := e1 + [Grant(0)];
    Extend(e2, Connected(0));
    var e3 := e2 + [Connected(0)];
    var used: seq<nat> := [];
    assert used + [0] == [0];
    assert After(e3) == State([Call(p, Writing(0, 0), 1, [0])], Some(0), Some(0), [NewConn()]);
    Extend(e3, Wrote(0, w));
    es := e3 + [Wrote(0, w)];
    assert NewConn().sent + Frame(p)[0..w] == Frame(p)[..w];
    assert After(es) == State([Call(p, Writing(0, w), 1, [0])], Some(0), Some(0), [Sent(Frame(p)[..w])]);
  }

  // It is dropped there.
  lemma Abandon(p: Payload, w: nat) returns (es: seq<Event>)
    requires |p| <= MAX_REQUEST_BYTES && 1 <= w <= |Frame(p)|
    ensures Run(es) && After(es) == Left(p, Sent(Frame(p)[..w]))
    ensures w == |Frame(p)| ==> CleanRun(Init(), es)
  {
    var before := FirstWrites(p, w);
    Extend(before, Cancelled(0));
    es := before + [Cancelled(0)];
    assert After(es).calls == Left(p, Sent(Frame(p)[..w])).calls;
  }

  // The dropped call and a second one, at `phase`, on the connection `conn`.
  function Followed(p: Payload, q: Payload, phase: Phase, conn: Conn): State {
    State([Call(p, Dropped, 1, [0]), Call(q, phase, 1, [0])],
          if phase.Holding() then Some(1) else None, Some(0), [conn])
  }

  // The second call writes its whole frame behind what was sent before.
  lemma SecondWrites(p: Payload, q: Payload, conn: Conn, before: seq<Event>) returns (es: seq<Event>)
    requires |q| <= MAX_REQUEST_BYTES && Run(before) && After(before) == Left(p, conn)
    ensures Run(es) && (CleanRun(Init(), before) ==> CleanRun(Init(), es))
    ensures After(es) == Followed(p, q, Reading(0, []), conn.(sent := conn.sent + Frame(q)))
  {
    Extend(before, Start(q));
    var e1 := before + [Start(q)];
    assert After(e1).calls == [Call(p, Dropped, 1, [0]), Call(q, Waiting(0), 0, [])];
    Extend(e1, Grant(1));
    var e2 := e1 + [Grant(1)];
    var used: seq<nat> := [];
    assert used + [0] == [0];
    assert After(e2) == Followed(p, q, Writing(0, 0), conn);
    Extend(e2, Wrote(1, |Frame(q)|));
    var e3 := e2 + [Wrote(1, |Frame(q)|)];
    assert Frame(q)[0..|Frame(q)|] == Frame(q);
    assert After(e3) == Followed(p, q, Writing(0, |Frame(q)|), conn.(sent := conn.sent + Frame(q)));
    Extend(e3, Flushed(1));
    es := e3 + [Flushed(1)];
    assert After(es).calls == Followed(p, q, Reading(0, []), conn).calls;
  }

  lemma FollowUp(p: Payload, w: nat, q: Payload) returns (es: seq<Event>)
    requires |p| <= MAX_REQUEST_BYTES && |q| <= MAX_REQUEST_BYTES && 1 <= w <= |Frame(p)|
    ensures Run(es) && After(es) == Followed(p, q, Reading(0, []), Sent(Frame(p)[..w] + Frame(q)))
    ensures w == |Frame(p)| ==> CleanRun(Init(), es)
  {
    var before := Abandon(p, w);
    es := SecondWrites(p, q, Sent(Frame(p)[..w]), before);
  }

  // The connection once its peer has answered the frame it hears first.
  function Replying(sent: Bytes, heard: Payload, r: Payload, taken: nat): Conn {
    Conn(sent, 4 + |heard|, Frame(r), taken, [Answer(heard, r)], [])
  }

  lemma PeerReplies(p: Payload, q: Payload, sent: Bytes, heard: Payload, r: Payload, es: seq<Event>)
    requires Run(es) && After(es) == Followed(p, q, Reading(0, []), Sent(sent)) && NextFrame(sent) == Some(heard)
    ensures Run(es + [Answered(0, r)])
    ensures After(es + [Answered(0, r)]) == Followed(p, q, Reading(0, []), Replying(sent, heard, r, 0))
    ensures CleanRun(Init(), es) ==> CleanRun(Init(), es + [Answered(0, r)])
  {
    assert sent[0..] == sent;
    Extend(es, Answered(0, r));
    var empty: Bytes := [];
    var none: seq<Answer> := [];
    assert empty + Frame(r) == Frame(r) && none + [Answer(heard, r)] == [Answer(heard, r)];
    assert After(es + [Answered(0, r)]).conns == [Replying(sent, heard, r, 0)];
  }

  // The second call reads that answer as its own reply: first its header, ...
  lemma ReadHeader(p: Payload, q: Payload, sent: Bytes, heard: Payload, r: Payload, before: seq<Event>)
    returns (es: seq<Event>)
    requires Run(before) && After(before) == Followed(p, q, Reading(0, []), Replying(sent, heard, r, 0))
    ensures Run(es) && (CleanRun(Init(), before) ==> CleanRun(Init(), es))
    ensures After(es) == Followed(p, q, Reading(0, Frame(r)[..4]), Replying(sent, heard, r, 4))
  {
    var empty: Bytes := [];
    assert empty + Frame(r)[0..4] == Frame(r)[..4];
    Extend(before, Received(1, 4));
    es := before + [Received(1, 4)];
    assert After(es) == Followed(p, q, Reading(0, Frame(r)[..4]), Replying(sent, heard, r, 4));
  }

  // ... then its body.
  lemma ReadReply(p: Payload, q: Payload, sent: Bytes, heard: Payload, r: Payload, before: seq<Event>)
    returns (es: seq<Event>)
    requires Run(before) && After(before) == Followed(p, q, Reading(0, []), Replying(sent, heard, r, 0))
    requires 0 < |r| <= MAX_RESPONSE_BYTES
    ensures Run(es) && (CleanRun(Init(), before) ==> CleanRun(Init(), es))
    ensures After(es) == Followed(p, q, Done(Reply(r)), Replying(sent, heard, r, 4 + |r|).(log := [Exchange(1, q, r)]))
  {
    var e1 := ReadHeader(p, q, sent, heard, r, before);
    FrameHeader(r, []);
    assert Frame(r) + [] == Frame(r);
    assert Frame(r)[..4][..4] == Frame(r)[..4];
    assert Frame(r)[..4] + Frame(r)[4..4 + |r|] == Frame(r);
    Extend(e1, Received(1, |r|));
    var e2 := e1 + [Received(1, |r|)];
    assert After(e2) == Followed(p, q, Reading(0, Frame(r)), Replying(sent, heard, r, 4 + |r|));
    Extend(e2, Finished(1));
    es := e2 + [Finished(1)];
    var none: seq<Exchange> := [];
    assert none + [Exchange(1, q, r)] == [Exchange(1, q, r)];
    assert After(es).conns == [Replying(sent, heard, r, 4 + |r|).(log := [Exchange(1, q, r)])];
  }

  // A call dropped after its whole request, and the next call reads the reply to it.
  lemma StaleHappens(p: Payload, q: Payload, r: Payload) returns (es: seq<Event>)
    requires |p| <= MAX_REQUEST_BYTES && |q| <= MAX_REQUEST_BYTES && p != q && 0 < |r| <= MAX_RESPONSE_BYTES
    ensures Run(es) && CleanRun(Init(), es) && |After(es).calls| == 2 && |After(es).conns| == 1
    ensures After(es).calls[0].payload == p && After(es).calls[1] == Call(q, Done(Reply(r)), 1, [0])
    ensures Stale(After(es).conns[0], 0) && After(es).conns[0].answers == [Answer(p, r)]
            && After(es).conns[0].log == [Exchange(1, q, r)]
  {
    var e0 := FollowUp(p, |Frame(p)|, q);
    var sent := Frame(p)[..|Frame(p)|] + Frame(q);
    assert Frame(p)[..|Frame(p)|] == Frame(p);
    NextOfFrame(p, Frame(q));
    PeerReplies(p, q, sent, p, r, e0);
    es := ReadReply(p, q, sent, p, r, e0 + [Answered(0, r)]);
  }

  // It happens to any two requests of distinct operations.
  lemma StaleRequestsHappen(operation: Bytes, id: Uuid, token: Bytes, id': Uuid, token': Bytes, r: Payload)
    returns (es: seq<Event>)
    requires |RequestBytes(operation, id, token)| <= MAX_REQUEST_BYTES
    requires |RequestBytes(operation, id', token')| <= MAX_REQUEST_BYTES
    requires id != id' && 0 < |r| <= MAX_RESPONSE_BYTES
    ensures Run(es) && CleanRun(Init(), es) && |After(es).calls| == 2 && |After(es).conns| == 1
    ensures After(es).calls[0].payload == RequestBytes(operation, id, token)
    ensures After(es).calls[1] == Call(RequestBytes(operation, id', token'), Done(Reply(r)), 1, [0])
    ensures Stale(After(es).conns[0], 0)
            && After(es).conns[0].answers == [Answer(RequestBytes(operation, id, token), r)]
            && After(es).conns[0].log == [Exchange(1, RequestBytes(operation, id', token'), r)]
  {
    if RequestBytes(operation, id, token) == RequestBytes(operation, id', token') {
      RequestDeterminesIdAndBearer(operation, id, token, id', token');
    }
    es := StaleHappens(RequestBytes(operation, id, token), RequestBytes(operation, id', token'), r);
  }

  // The peer takes what is left of a cut frame from the frame that follows, header included.
  lemma CutFrameSwallowsHeader(p: Payload, w: nat, q: Payload)
    requires 4 <= w < |Frame(p)| <= w + |Frame(q)| && |q| <= MAX_REQUEST_BYTES
    ensures var heard := NextFrame(Frame(p)[..w] + Frame(q)); heard.Some? && 0 in heard.value
  {
    var sent := Frame(p)[..w] + Frame(q);
    FrameHeader(p, []);
    assert Frame(p) + [] == Frame(p);
    assert sent[..4] == Frame(p)[..4];
    var heard := sent[4..4 + |p|];
    assert heard[w - 4] == sent[w] == Frame(q)[0] == 0;
  }

  // A request cut anywhere after its header, and then another one: the peer answers a
  // payload that no call sent, and that is no request at all.
  lemma CutRequestMisleadsPeer(operation: Bytes, id: Uuid, token: Bytes, id': Uuid, token': Bytes, w: nat, r: Payload)
    returns (es: seq<Event>)
    requires PlainName(operation) && Graphic(token) && Graphic(token')
    requires |RequestBytes(operation, id, token)| <= MAX_REQUEST_BYTES
    requires |RequestBytes(operation, id', token')| <= MAX_REQUEST_BYTES
    requires 4 <= w < |Frame(RequestBytes(operation, id, token))| <= w + |Frame(RequestBytes(operation, id', token'))|
    ensures Run(es) && |After(es).calls| == 2 && |After(es).conns| == 1 && |After(es).conns[0].answers| == 1
    ensures After(es).calls[0].payload == RequestBytes(operation, id, token)
            && After(es).calls[1].payload == RequestBytes(operation, id', token')
    ensures forall c :: 0 <= c < 2 ==> After(es).conns[0].answers[0].request != After(es).calls[c].payload
    ensures forall i, t :: Graphic(t) ==> After(es).conns[0].answers[0].request != RequestBytes(operation, i, t)
  {
    var p, q := RequestBytes(operation, id, token), RequestBytes(operation, id', token');
    CutFrameSwallowsHeader(p, w, q);
    var sent := Frame(p)[..w] + Frame(q);
    var e0 := FollowUp(p, w, q);
    PeerReplies(p, q, sent, NextFrame(sent).value, r, e0);
    es := e0 + [Answered(0, r)];
    forall i, t | Graphic(t) ensures NextFrame(sent).value != RequestBytes(operation, i, t) {
      RequestHasNoZero(operation, i, t);
    }
  }

  // --- A cancellation inside the header of a reply --------------------------

  // A call waits for its reply, which has come.
  lemma FirstAnswered(p: Payload, r: Payload) returns (es: seq<Event>)
    requires |p| <= MAX_REQUEST_BYTES
    ensures Run(es)
    ensures After(es) == State([Call(p, Reading(0, []), 1, [0])], Some(0), Some(0), [Replying(Frame(p), p, r, 0)])
  {
    var e0 := FirstWrites(p, |Frame(p)|);
    assert Frame(p)[..|Frame(p)|] == Frame(p);
    Extend(e0, Flushed(0));
    var e1 := e0 + [Flushed(0)];
    assert After(e1) == State([Call(p, Reading(0, []), 1, [0])], Some(0), Some(0), [Sent(Frame(p))]);
    NextOfFrame(p, []);
    assert Frame(p) + [] == Frame(p) == Frame(p)[0..];
    Extend(e1, Answered(0, r));
    es := e1 + [Answered(0, r)];
    var (empty: Bytes, none: seq<Answer>) := ([], []);
    assert empty + Frame(r) == Frame(r) && none + [Answer(p, r)] == [Answer(p, r)];
    assert After(es).conns == [Replying(Frame(p), p, r, 0)];
  }

  // It was dropped after the first byte of that reply.
  lemma CutHeader(p: Payload, r: Payload) returns (es: seq<Event>)
    requires |p| <= MAX_REQUEST_BYTES
    ensures Run(es) && After(es) == Left(p, Replying(Frame(p), p, r, 1))
  {
    var before := FirstAnswered(p, r);
    Extend(before, Received(0, 1));
    var read := before + [Received(0, 1)];
    assert After(read).conns == [Replying(Frame(p), p, r, 1)];
    assert After(read).calls[0].phase.Reading? && |After(read).calls[0].phase.got| == 1;
    Extend(read, Cancelled(0));
    es := read + [Cancelled(0)];
    assert After(es).calls == [Call(p, Dropped, 1, [0])];
  }

  // The connection once both requests are answered.
  function BothReplied(p: Payload, q: Payload, r: Payload, r': Payload, taken: nat): Conn {
    Conn(Frame(p) + Frame(q), |Frame(p) + Frame(q)|, Frame(r) + Frame(r'), taken, [Answer(p, r), Answer(q, r')], [])
  }

  lemma BothAnswered(p: Payload, q: Payload, r: Payload, r': Payload) returns (es: seq<Event>)
    requires |p| <= MAX_REQUEST_BYTES && |q| <= MAX_REQUEST_BYTES
    ensures Run(es) && After(es) == Followed(p, q, Reading(0, []), BothReplied(p, q, r, r', 1))
  {
    var e0 := CutHeader(p, r);
    var e1 := SecondWrites(p, q, Replying(Frame(p), p, r, 1), e0);
    var sent := Frame(p) + Frame(q);
    assert sent[4 + |p|..] == Frame(q) + [];
    NextOfFrame(q, []);
    Extend(e1, Answered(0, r'));
    es := e1 + [Answered(0, r')];
    assert [Answer(p, r)] + [Answer(q, r')] == [Answer(p, r), Answer(q, r')];
    assert After(es).conns == [BothReplied(p, q, r, r', 1)];
  }

  // What the second call takes for a header is the rest of the first reply's header and one
  // byte of its body.
  lemma ShiftedHeader(r: Payload, r': Payload)
    requires 1 <= |r| < 0x1_0000
    ensures var stream := Frame(r) + Frame(r'); FromBe32(stream[1..5]) == |r| * 0x100 + r[0]
  {
    var stream, n := Frame(r) + Frame(r'), |r|;
    var h := stream[1..5];
    assert h[0] == Be32(n)[1] && h[1] == Be32(n)[2] && h[2] == Be32(n)[3] && h[3] == Frame(r)[4..][0];
    assert n / 0x100 == n / 0x100 % 0x100;
  }

  // So orderly runs exclude what they must: a call cancelled after one byte of its reply, and
  // the next call completes an exchange with bytes that reach over the next header, hence
  // with what the peer never answered if its answers are text.
  lemma CutHeaderGarblesReply(p: Payload, q: Payload, r: Payload, r': Payload) returns (es: seq<Event>, x: Payload)
    requires |p| <= MAX_REQUEST_BYTES && |q| <= MAX_REQUEST_BYTES
    requires 1 <= |r| && |r'| <= MAX_RESPONSE_BYTES && |r| * 0x100 + r[0] <= MAX_RESPONSE_BYTES
    requires |r| * 0x100 + r[0] <= |r| + 3 + |r'|
    ensures Run(es) && |After(es).calls| == 2 && |After(es).conns| == 1
    ensures After(es).calls[1] == Call(q, Done(Reply(x)), 1, [0]) && 0 in x
    ensures After(es).conns[0].answers == [Answer(p, r), Answer(q, r')]
  {
    var stream, n := Frame(r) + Frame(r'), |r| * 0x100 + r[0];
    ShiftedHeader(r, r');
    var before := BothAnswered(p, q, r, r');
    var read := ReadsAt(p, q, r, r', n, before);
    assert stream[1..5 + n][..4] == stream[1..5] && stream[1..5 + n][4..] == stream[5..5 + n];
    Extend(read, Finished(1));
    es, x := read + [Finished(1)], stream[5..5 + n];
    assert x[|r| - 1] == stream[4 + |r|] == Frame(r')[0] == 0;
  }

  // The second call reads the shifted header and the n bytes that it announces.
  lemma ReadsAt(p: Payload, q: Payload, r: Payload, r': Payload, n: nat, before: seq<Event>) returns (es: seq<Event>)
    requires Run(before) && After(before) == Followed(p, q, Reading(0, []), BothReplied(p, q, r, r', 1))
    requires 1 <= n <= MAX_RESPONSE_BYTES && 5 + n <= |Frame(r) + Frame(r')|
    requires FromBe32((Frame(r) + Frame(r'))[1..5]) == n
    ensures Run(es)
    ensures After(es) == Followed(p, q, Reading(0, (Frame(r) + Frame(r'))[1..5 + n]), BothReplied(p, q, r, r', 5 + n))
  {
    var stream := Frame(r) + Frame(r');
    var empty: Bytes := [];
    assert empty + stream[1..5] == stream[1..5];
    Extend(before, Received(1, 4));
    var read := before + [Received(1, 4)];
    assert After(read) == Followed(p, q, Reading(0, stream[1..5]), BothReplied(p, q, r, r', 5));
    assert stream[1..5][..4] == stream[1..5] && stream[1..5] + stream[5..5 + n] == stream[1..5 + n];
    Extend(read, Received(1, n));
    es := read + [Received(1, n)];
    assert After(es).conns == [BothReplied(p, q, r, r', 5 + n)];
  }
}
