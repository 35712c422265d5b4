/**
 Correlation on the shared channel when calls may be cancelled inside their requests: what
 a peer can mistake for a request, and whose reply a call accepts.
 */
module TlsCorrelation {
  import opened Wrappers
  import opened Framing
  import opened Naming
  import opened Service
  import opened Requests
  import opened TlsCuts
  import opened TlsMachine
  import opened TlsReading
  import opened TlsRefinement
  import opened TlsTheorems
  import opened TlsWriting

  // --- Requests the peer hears ----------------------------------------------

  // A request found in a frame is the frame's own.
  lemma RequestInFrame(operation: Bytes, id: Uuid, token: Bytes, id': Uuid, token': Bytes, o: nat)
    requires PlainName(operation) && Graphic(token') && |RequestBytes(operation, id', token')| <= MAX_REQUEST_BYTES
    requires StandsAt(RequestBytes(operation, id, token), Frame(RequestBytes(operation, id', token')), o)
    ensures id == id' && token == token'
  {
    RequestOpens(operation, id, token);
    RequestOpens(operation, id', token');
    NotInHeader(RequestBytes(operation, id, token), RequestBytes(operation, id', token'), o);
    RequestInsideRequest(operation, id, token, id', token', o - 4);
  }

  // It cannot begin in the header, which starts with zeros and ends where a brace follows.
  lemma NotInHeader(x: Bytes, p: Payload, o: nat)
    requires |p| > 3 && p[..3] == REQUEST_OPENING && |p| <= MAX_REQUEST_BYTES
    requires |x| > 3 && x[..3] == REQUEST_OPENING && StandsAt(x, Frame(p), o)
    ensures o >= 4 && StandsAt(x, p, o - 4)
  {
    var f := Frame(p);
    HeaderStartsWithZeros(p);
    assert x[0] == x[..3][0] && x[1] == x[..3][1] && x[2] == x[..3][2];
    assert f[4] == f[4..][0] == p[..3][0];
    assert forall k :: 0 <= k < |x| ==> f[o..o + |x|][k] == x[k];
    if o >= 4 {
      assert p[o - 4..o - 4 + |x|] == f[4..][o - 4..o - 4 + |x|] == f[o..o + |x|];
    }
  }

  // Call c carries operation id ids[c] and bearer tokens[c]; no two calls share an id.
  ghost predicate Carries(s: State, operation: Bytes, ids: seq<Uuid>, tokens: seq<Bytes>) {
    && PlainName(operation) && |ids| == |tokens| == |s.calls|
    && (forall c, d :: 0 <= c < d < |ids| ==> ids[c] != ids[d])
    && forall c :: 0 <= c < |ids| ==>
         Graphic(tokens[c]) && s.calls[c].payload == RequestBytes(operation, ids[c], tokens[c])
  }

  // Wherever calls were cut, a request that the peer hears is the whole request of a call.
  lemma HeardRequestIsSent(es: seq<Event>, operation: Bytes, ids: seq<Uuid>, tokens: seq<Bytes>,
                           g: nat, i: nat, id: Uuid, token: Bytes) returns (c: nat)
    requires Run(es) && Carries(After(es), operation, ids, tokens)
    requires g < |After(es).conns| && i < |After(es).conns[g].answers|
    requires Graphic(token) && After(es).conns[g].answers[i].request == RequestBytes(operation, id, token)
    ensures c < |ids| && ids[c] == id && tokens[c] == token
  {
    var s, x := After(es), RequestBytes(operation, id, token);
    SendRun(Init(), es);
    assert SentOk(s.calls, s.conns[g]);
    RequestHasNoZero(operation, id, token);
    RequestOpens(operation, id, token);
    var o: nat;
    c, o := SentInOneGo(s.calls, s.conns[g].sent, x);
    Reachable(es);
    assert CallOk(s, s.calls[c], s.holder == Some(c));
    RequestInFrame(operation, id, token, ids[c], tokens[c], o);
  }

  // --- Replies the calls accept ---------------------------------------------

  // The peer labels an answer with the id of the request it answers.
  ghost predicate Labelled(s: State, operation: Bytes, parse: Parser) {
    forall g, i, id ::
      0 <= g < |s.conns| && 0 <= i < |s.conns[g].answers| && LabelledWith(parse, s.conns[g].answers[i].reply, id)
      ==> AsksFor(s.conns[g].answers[i].request, operation, id)
  }

  predicate LabelledWith(parse: Parser, reply: Payload, id: Uuid) {
    parse(reply).Some? && parse(reply).value.operationId == UuidText(id)
  }

  // A request of the operation `id`, for some bearer.
  ghost predicate AsksFor(request: Payload, operation: Bytes, id: Uuid) {
    exists token :: Graphic(token) && request == RequestBytes(operation, id, token)
  }

  // A reply of which a call accepts alarms is the answer to that call's own request.
  lemma AcceptedIsOwn(es: seq<Event>, parse: Parser, operation: Bytes,
                      ids: seq<Uuid>, tokens: seq<Bytes>, g: nat, i: nat)
    requires Run(es) && OrderlyRun(Init(), es)
    requires Carries(After(es), operation, ids, tokens) && Labelled(After(es), operation, parse)
    requires g < |After(es).conns| && i < |After(es).conns[g].log|
    ensures var n := After(es).conns[g];
            n.log[i].call < |ids| && i < |n.answers| && n.answers[i].reply == n.log[i].reply
            && n.log[i].request == After(es).calls[n.log[i].call].payload
            && (Decode(parse, n.log[i].reply, ids[n.log[i].call]).Ok? ==> n.answers[i].request == n.log[i].request)
  {
    ReadRun(Init(), es);
    var s := After(es);
    var n := s.conns[g];
    assert RepliesOk(s.calls, n) && LoggedOk(s.calls, n, i);
    var c := n.log[i].call;
    if Decode(parse, n.log[i].reply, ids[c]).Ok? {
      OwnRequest(es, parse, operation, ids, tokens, g, i, c);
    }
  }

  lemma OwnRequest(es: seq<Event>, parse: Parser, operation: Bytes,
                   ids: seq<Uuid>, tokens: seq<Bytes>, g: nat, i: nat, c: nat)
    requires Run(es) && Carries(After(es), operation, ids, tokens) && Labelled(After(es), operation, parse)
    requires g < |After(es).conns| && i < |After(es).conns[g].answers| && c < |ids|
    requires LabelledWith(parse, After(es).conns[g].answers[i].reply, ids[c])
    ensures After(es).conns[g].answers[i].request == After(es).calls[c].payload
  {
    var request := After(es).conns[g].answers[i].request;
    assert AsksFor(request, operation, ids[c]);
    var token :| Graphic(token) && request == RequestBytes(operation, ids[c], token);
    var d := HeardRequestIsSent(es, operation, ids, tokens, g, i, ids[c], token);
  }

  // The peer computed this reply from a frame that carries this id and this bearer.
  ghost predicate AnsweredFor(s: State, operation: Bytes, id: Uuid, token: Bytes, reply: Bytes) {
    exists g, i :: 0 <= g < |s.conns| && 0 <= i < |s.conns[g].answers|
                   && s.conns[g].answers[i].request == RequestBytes(operation, id, token)
                   && s.conns[g].answers[i].reply == reply
  }

  // Every call that returns alarms returns what the peer computed from that call's own
  // frame, hence for its own bearer, wherever other calls were cancelled in their requests,
  // between frames, or in the body of a reply before a byte other than zero.
  lemma AlarmsAreOwn(es: seq<Event>, parse: Parser, operation: Bytes,
                     ids: seq<Uuid>, tokens: seq<Bytes>, c: nat)
    requires Run(es) && OrderlyRun(Init(), es)
    requires Carries(After(es), operation, ids, tokens) && Labelled(After(es), operation, parse)
    requires c < |ids| && After(es).calls[c].phase.Done? && After(es).calls[c].phase.outcome.Reply?
    requires Decode(parse, After(es).calls[c].phase.outcome.bytes, ids[c]).Ok?
    ensures AnsweredFor(After(es), operation, ids[c], tokens[c], After(es).calls[c].phase.outcome.bytes)
  {
    var g, i := DeliveredExchange(es, c);
    AcceptedIsOwn(es, parse, operation, ids, tokens, g, i);
    assert After(es).conns[g].answers[i].request == RequestBytes(operation, ids[c], tokens[c]);
  }

  // A stale reply is never accepted: the caller gets an error.
  lemma StaleReplyIsAnError(es: seq<Event>, parse: Parser, operation: Bytes,
                            ids: seq<Uuid>, tokens: seq<Bytes>, g: nat, i: nat)
    requires Run(es) && OrderlyRun(Init(), es)
    requires Carries(After(es), operation, ids, tokens) && Labelled(After(es), operation, parse)
    requires g < |After(es).conns| && Stale(After(es).conns[g], i)
    ensures var x := After(es).conns[g].log[i];
            x.call < |ids| && Decode(parse, x.reply, ids[x.call]).Err?
  {
    AcceptedIsOwn(es, parse, operation, ids, tokens, g, i);
  }

  lemma FreshIdsMakeFreshCalls(s: State, operation: Bytes, ids: seq<Uuid>, tokens: seq<Bytes>)
    requires Carries(s, operation, ids, tokens)
    ensures FreshCalls(s)
  {
    forall c, d | 0 <= c < d < |s.calls| ensures s.calls[c].payload != s.calls[d].payload {
      if s.calls[c].payload == s.calls[d].payload {
        RequestDeterminesIdAndBearer(operation, ids[c], tokens[c], ids[d], tokens[d]);
      }
    }
  }

  // So once a connection has served one stale reply, every later call that completes an
  // exchange there gets an error.
  lemma OnceStaleNeverServed(es: seq<Event>, parse: Parser, operation: Bytes,
                             ids: seq<Uuid>, tokens: seq<Bytes>, g: nat, i: nat, j: nat)
    requires Run(es) && CleanRun(Init(), es)
    requires Carries(After(es), operation, ids, tokens) && Labelled(After(es), operation, parse)
    requires g < |After(es).conns| && i <= j < |After(es).conns[g].log| && Stale(After(es).conns[g], i)
    ensures var x := After(es).conns[g].log[j];
            x.call < |ids| && Decode(parse, x.reply, ids[x.call]).Err?
  {
    FreshIdsMakeFreshCalls(After(es), operation, ids, tokens);
    CleanRunsAreOrderly(Init(), es);
    OnceStaleAlwaysStale(es, g, i, j);
    StaleReplyIsAnError(es, parse, operation, ids, tokens, g, j);
  }
}
