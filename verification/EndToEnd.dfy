/** What the protocols guarantee about the dashboards that a runtime has served. */
module EndToEnd {
  import opened Wrappers
  import opened Framing
  import opened Naming
  import opened Service
  import Tls = TlsMachine
  import TlsCorrelation
  import TlsCuts
  import Async = AsyncMachine
  import AsyncSafety
  import AsyncDelivery
  import opened Pipeline

  // The one fetch of a served dashboard brought its alarms.
  lemma ServedByFetch(rt: Runtime, id: Uuid, header: Option<Bytes>, fx: seq<Effect>,
                      d: Dashboard, ts: seq<Telemetry>) returns (e: Effect)
    requires RequestOutcome(rt.read, rt.mode, rt.operation, id, header, fx, Ok(d), ts)
    requires rt.mode.StatefulTls? || rt.mode.AsyncJetStream?
    ensures Bearer(header).Some? && e in fx && TransportOf(e) == Some(rt.mode)
    ensures ActsFor(e, rt.operation, id, Bearer(header).value, "")
    ensures Fetched(rt.read, id, [e]) == Some(d.alarms)
  {
    e := FetchOf(fx)[0];
    assert FetchOf(fx) == [e] && fx[1] == e;
  }

  // The reply is at most 900 KiB and reads as the response to this operation with status Ok,
  // these alarms and no error.
  predicate ShowsAlarms(read: Readers, reply: Bytes, id: Uuid, alarms: seq<Alarm>) {
    |reply| <= 921_600
    && read.response(reply)
       == Some(Response("happy-wakey.service-operation.response.v1", UuidText(id), StatusOk, alarms, None))
  }

  lemma BroughtByReply(read: Readers, id: Uuid, e: Effect, alarms: seq<Alarm>) returns (reply: Payload)
    requires e.TlsCall? && Fetched(read, id, [e]) == Some(alarms)
    ensures e.tries != [] && e.tries[|e.tries| - 1].Whole? && e.tries[|e.tries| - 1].reply == reply
    ensures Decode(read.response, reply, id) == Ok(alarms)
  {
    reply := e.tries[|e.tries| - 1].reply;
  }

  // The call of the shared channel behind a served dashboard.
  lemma ServingCall(rt: Runtime, id: Uuid, header: Option<Bytes>, fx: seq<Effect>, d: Dashboard, ts: seq<Telemetry>)
    returns (c: nat, reply: Payload)
    requires rt.mode.StatefulTls? && rt.AllHappened(fx)
    requires RequestOutcome(rt.read, rt.mode, rt.operation, id, header, fx, Ok(d), ts)
    ensures Bearer(header).Some? && c < |rt.tcp.calls| && rt.tcp.calls[c].phase == Tls.Done(Tls.Reply(reply))
    ensures rt.tcp.calls[c].payload == RequestBytes(rt.operation, id, Bearer(header).value)
    ensures Decode(rt.read.response, reply, id) == Ok(d.alarms)
  {
    var e := ServedByFetch(rt, id, header, fx, d, ts);
    assert rt.Happened(e);
    c :| 0 <= c < |rt.tcp.calls| && MadeBy(rt.tcp.calls[c], e.payload, e.tries);
    reply := BroughtByReply(rt.read, id, e, d.alarms);
  }

  // A dashboard served in TLS mode shows what the peer computed from a frame with the
  // request's own id and bearer, whatever other requests ran, failed or were cancelled.
  lemma TlsAlarmsAreOwn(rt: Runtime, ids: seq<Uuid>, tokens: seq<Bytes>, id: Uuid, header: Option<Bytes>,
                        fx: seq<Effect>, d: Dashboard, ts: seq<Telemetry>)
    requires rt.Valid() && rt.mode.StatefulTls? && rt.AllHappened(fx)
    requires RequestOutcome(rt.read, rt.mode, rt.operation, id, header, fx, Ok(d), ts)
    requires TlsCuts.OrderlyRun(Tls.Init(), rt.tcp.trace)
    requires TlsCorrelation.Carries(rt.tcp.Now(), rt.operation, ids, tokens)
    requires TlsCorrelation.Labelled(rt.tcp.Now(), rt.operation, rt.read.response)
    ensures Bearer(header).Some?
    ensures exists reply :: TlsCorrelation.AnsweredFor(rt.tcp.Now(), rt.operation, id, Bearer(header).value, reply)
                            && ShowsAlarms(rt.read, reply, id, d.alarms)
  {
    var c, reply := ServingCall(rt, id, header, fx, d, ts);
    DecodeExactly(rt.read.response, reply, id, d.alarms);
    RequestDeterminesIdAndBearer(rt.operation, id, Bearer(header).value, ids[c], tokens[c]);
    TlsCorrelation.AlarmsAreOwn(rt.tcp.trace, rt.read.response, rt.operation, ids, tokens, c);
  }

  // A dashboard served in asynchronous mode shows a reply stored under the request's own
  // subject, fetched by the last step of the whole protocol for its operation, which was
  // registered once, with the request's bearer.
  lemma AsyncAlarmsAreOwn(rt: Runtime, id: Uuid, header: Option<Bytes>,
                          fx: seq<Effect>, d: Dashboard, ts: seq<Telemetry>)
    requires rt.Valid() && rt.mode.AsyncJetStream? && rt.AllHappened(fx)
    requires RequestOutcome(rt.read, rt.mode, rt.operation, id, header, fx, Ok(d), ts)
    ensures Bearer(header).Some?
    ensures exists reply :: Async.StoredReply(ResponseSubject(id), reply) in rt.nats.responses
                            && ShowsAlarms(rt.read, reply, id, d.alarms)
    ensures exists c: nat, n: nat :: n <= 150
              && AsyncSafety.Polled(AsyncSafety.Story(rt.nats.trace, c), c, id, n, [Async.Hit(c)])
    ensures exists i :: AsyncDelivery.RegisteredOnce(rt.nats.posts, id, Bearer(header).value, i)
  {
    var e := ServedByFetch(rt, id, header, fx, d, ts);
    assert rt.Happened(e);
    var c :| 0 <= c < |rt.nats.calls| && rt.nats.calls[c] == Async.Call(id, Bearer(header).value, e.end);
    DecodeExactly(rt.read.response, e.end.payload, id, d.alarms);
    AsyncDelivery.RepliesAreOwn(rt.nats.trace, rt.read.response, c);
    AsyncSafety.ReplyNeedsTheWholeProtocol(rt.nats.trace, c);
    AsyncDelivery.RegisteredWithItsBearer(rt.nats.trace, c);
  }
}
