/**
 The asynchronous mode: any number of calls that register an operation over HTTPS, share
 one transport that is initialised once, publish a signal and poll the response stream.
 The API, the streams, the worker and the clock are the environment.
 */
module AsyncMachine {
  import opened Wrappers
  import opened Framing
  import opened Naming
  import opened Service

  const ASYNC_REQUEST_SCHEMA: string := "happy-wakey.async-operation.request.v1"
  const ASYNC_ACCEPTED_SCHEMA: string := "happy-wakey.async-operation.accepted.v1"
  const ASYNC_SIGNAL_SCHEMA: string := "happy-wakey.async-operation.signal.v1"
  const ASYNC_TIMEOUT: nat := 15_000  // milliseconds
  const POLL_PAUSE: nat := 100

  // --- Streams --------------------------------------------------------------

  datatype Storage = FileStorage | MemoryStorage
  datatype Retention = Limits | Interest | WorkQueue

  datatype StreamInfo = StreamInfo(
    storage: Storage, retention: Retention, subjects: seq<string>, allowDirect: bool, duplicateWindow: nat)

  predicate ValidRequestStream(i: StreamInfo) {
    i.storage.FileStorage? && i.retention.WorkQueue? && ASYNC_REQUEST_SUBJECT in i.subjects
    && i.duplicateWindow != 0
  }

  predicate ValidResponseStream(i: StreamInfo) {
    i.storage.FileStorage? && i.retention.Limits? && i.allowDirect && RESPONSE_WILDCARD in i.subjects
    && i.duplicateWindow != 0
  }

  // A valid request stream is durable, a work queue and deduplicating, and carries signals.
  lemma RequestStreamExactly(i: StreamInfo)
    ensures ValidRequestStream(i)
            <==> i == StreamInfo(FileStorage, WorkQueue, i.subjects, i.allowDirect, i.duplicateWindow)
                 && "dd.remote.web_api.happy-wakey.request" in i.subjects && i.duplicateWindow > 0
  {}

  // A valid response stream is durable, kept by limits, directly readable and deduplicating,
  // and carries every reply.
  lemma ResponseStreamExactly(i: StreamInfo)
    ensures ValidResponseStream(i)
            <==> i == StreamInfo(FileStorage, Limits, i.subjects, true, i.duplicateWindow)
                 && "happy-wakey.responses.*" in i.subjects && i.duplicateWindow > 0
  {
    assert RESPONSE_WILDCARD == "happy-wakey.responses.*";
  }

  // --- Messages -------------------------------------------------------------

  datatype Registration = Registration(schema: string, operationId: string)

  datatype Post = Post(bearer: Bytes, body: Registration)

  datatype Acceptance = Acceptance(schema: string, operationId: string, responseSubject: string)

  // The answer to a registration; a body is absent when it violates the interface.
  datatype HttpReply = SendFailed | Answer(status: nat, body: Result<Option<Acceptance>, WebError>)

  datatype Signal = Signal(messageId: string, schema: string, operationId: string)

  datatype StoredReply = StoredReply(subject: string, payload: Bytes)

  function RegistrationOf(id: Uuid): Registration { Registration(ASYNC_REQUEST_SCHEMA, UuidText(id)) }

  function SignalOf(id: Uuid): Signal { Signal(MessageId(id), ASYNC_SIGNAL_SCHEMA, UuidText(id)) }

  // What is wrong with the answer to the registration of `id`, if anything.
  function Admit(reply: HttpReply, id: Uuid): Option<WebError> {
    match reply
    case SendFailed => Some(ApiUnavailable)
    case Answer(status, body) =>
      if status != 202 then Some(if status == 401 then Unauthorized else ApiUnavailable)
      else match body
        case Err(e) => Some(e)
        case Ok(None) => Some(Contract("async acceptance violated the interface"))
        case Ok(Some(a)) =>
          if a.schema != ASYNC_ACCEPTED_SCHEMA || a.operationId != UuidText(id)
             || a.responseSubject != ResponseSubject(id)
          then Some(Contract("async acceptance did not match the registered operation"))
          else None
  }

  // The only answer that admits a registration.
  function AcceptanceOf(id: Uuid): HttpReply {
    Answer(202, Ok(Some(Acceptance("happy-wakey.async-operation.accepted.v1", UuidText(id), ResponseSubject(id)))))
  }

  // What each answer to a registration means for its call.
  lemma AdmitExactly(reply: HttpReply, id: Uuid)
    ensures Admit(reply, id) == None <==> reply == AcceptanceOf(id)
    ensures Admit(reply, id) == Some(Unauthorized)
            <==> reply.Answer? && (reply.status == 401 || (reply.status == 202 && reply.body == Err(Unauthorized)))
    ensures Admit(reply, id) == Some(ApiUnavailable)
            <==> (reply == SendFailed || reply.status !in {202, 401}
              || (reply.status == 202 && reply.body == Err(ApiUnavailable)))
    ensures Admit(reply, id) == Some(Contract("async acceptance violated the interface"))
            <==> reply == Answer(202, Ok(None))
                 || reply == Answer(202, Err(Contract("async acceptance violated the interface")))
    ensures reply.Answer? && reply.status == 202 && reply.body.Err? ==> Admit(reply, id) == Some(reply.body.error)
    ensures reply.Answer? && reply.status == 202 && reply.body.Ok? && reply.body.value.Some?
            && reply != AcceptanceOf(id)
            ==> Admit(reply, id) == Some(Contract("async acceptance did not match the registered operation"))
  {}

  // --- State ----------------------------------------------------------------

  datatype Phase =
    | Registering
    | AtCell
    | CheckingRequests
    | CheckingResponses(request: StreamInfo)
    | Publishing
    | Acking
    | Polling(started: nat, misses: nat)
    | Sleeping(started: nat, misses: nat, since: nat)
    | Replied(payload: Bytes)
    | TimedOut(started: nat, at: nat)
    | Refused(error: WebError)
    | Dropped
  {
    predicate Ended() { Replied? || TimedOut? || Refused? || Dropped? }
    predicate Initialising() { CheckingRequests? || CheckingResponses? }
    // The transport is in use or has been.
    predicate PastCell() { Publishing? || Acking? || Polling? || Sleeping? || Replied? || TimedOut? }
  }

  datatype Call = Call(id: Uuid, token: Bytes, phase: Phase)

  datatype Cell = Empty | Busy(c: nat) | Ready(request: StreamInfo, response: StreamInfo)

  datatype State = State(calls: seq<Call>, cell: Cell, posts: seq<Post>,
                         requests: seq<Signal>, responses: seq<StoredReply>, now: nat)

  function Init(): State { State([], Empty, [], [], [], 0) }

  // The last message stored under a subject.
  function LastFor(rs: seq<StoredReply>, subject: string): Option<Bytes> {
    if rs == [] then None
    else if rs[|rs| - 1].subject == subject then Some(rs[|rs| - 1].payload)
    else LastFor(rs[..|rs| - 1], subject)
  }

  // Fetching the last message under a subject brings a message stored under it after which
  // none was stored under it, and nothing exactly if there is none.
  lemma {:induction false} LastForExactly(rs: seq<StoredReply>, subject: string, payload: Bytes)
    ensures LastFor(rs, subject) == Some(payload) <==> exists i :: LastAt(rs, i, subject, payload)
    ensures LastFor(rs, subject) == None <==> forall i :: 0 <= i < |rs| ==> rs[i].subject != subject
  {
    if rs != [] {
      var init, last := rs[..|rs| - 1], rs[|rs| - 1];
      LastForExactly(init, subject, payload);
      if last == StoredReply(subject, payload) { assert LastAt(rs, |rs| - 1, subject, payload); }
      if last.subject != subject {
        if i :| LastAt(init, i, subject, payload) { assert LastAt(rs, i, subject, payload); }
        if i :| LastAt(rs, i, subject, payload) { assert LastAt(init, i, subject, payload); }
        forall i | 0 <= i < |init| ensures init[i] == rs[i] {}
      }
    }
  }

  predicate LastAt(rs: seq<StoredReply>, i: int, subject: string, payload: Bytes) {
    0 <= i < |rs| && rs[i] == StoredReply(subject, payload) && forall j :: i < j < |rs| ==> rs[j].subject != subject
  }

  // A message whose id the stream has seen is acknowledged but not stored again.
  function Deduplicated(stream: seq<Signal>, signal: Signal): seq<Signal> {
    if exists i :: 0 <= i < |stream| && stream[i].messageId == signal.messageId then stream else stream + [signal]
  }

  // --- Events ---------------------------------------------------------------

  datatype Event =
    | Begin(id: Uuid, token: Bytes)
    | Registered(c: nat, reply: HttpReply)
    | Enter(c: nat)
    | Claim(c: nat)
    | InitFailed(c: nat)
    | RequestStream(c: nat, info: StreamInfo)
    | ResponseStream(c: nat, info: StreamInfo)
    | Published(c: nat)
    | PublishFailed(c: nat)
    | Acked(c: nat)
    | AckFailed(c: nat)
    | Hit(c: nat)
    | Missed(c: nat)
    | Woke(c: nat)
    | Cancelled(c: nat)
    | Stored(subject: string, payload: Bytes)
    | Tick(elapsed: nat)

  function Actor(e: Event): Option<nat> {
    match e
    case Begin(_, _) => None
    case Stored(_, _) => None
    case Tick(_) => None
    case Registered(c, _) => Some(c)
    case Enter(c) => Some(c)
    case Claim(c) => Some(c)
    case InitFailed(c) => Some(c)
    case RequestStream(c, _) => Some(c)
    case ResponseStream(c, _) => Some(c)
    case Published(c) => Some(c)
    case PublishFailed(c) => Some(c)
    case Acked(c) => Some(c)
    case AckFailed(c) => Some(c)
    case Hit(c) => Some(c)
    case Missed(c) => Some(c)
    case Woke(c) => Some(c)
    case Cancelled(c) => Some(c)
  }

  predicate Enabled(s: State, e: Event) {
    (Actor(e).Some? ==> Actor(e).value < |s.calls|)
    && match e
       case Begin(id, _) => forall i :: 0 <= i < |s.calls| ==> s.calls[i].id != id
       case Stored(_, _) => true
       case Tick(_) => true
       case Registered(c, _) => s.calls[c].phase.Registering?
       case Enter(c) => s.calls[c].phase.AtCell? && s.cell.Ready?
       case Claim(c) => s.calls[c].phase.AtCell? && s.cell.Empty?
       case InitFailed(c) => s.calls[c].phase.Initialising()
       case RequestStream(c, _) => s.calls[c].phase.CheckingRequests?
       case ResponseStream(c, _) => s.calls[c].phase.CheckingResponses?
       case Published(c) => s.calls[c].phase.Publishing?
       case PublishFailed(c) => s.calls[c].phase.Publishing?
       case Acked(c) => s.calls[c].phase.Acking?
       case AckFailed(c) => s.calls[c].phase.Acking?
       case Hit(c) => s.calls[c].phase.Polling? && LastFor(s.responses, ResponseSubject(s.calls[c].id)).Some?
       case Missed(c) => s.calls[c].phase.Polling?
       case Woke(c) => s.calls[c].phase.Sleeping? && s.now >= s.calls[c].phase.since + POLL_PAUSE
       case Cancelled(c) => !s.calls[c].phase.Ended()
  }

  function To(s: State, c: nat, phase: Phase): State
    requires c < |s.calls|
  {
    s.(calls := s.calls[c := s.calls[c].(phase := phase)])
  }

  function Apply(s: State, e: Event): State
    requires Enabled(s, e)
  {
    match e
    case Begin(id, token) =>
      s.(calls := s.calls + [Call(id, token, Registering)], posts := s.posts + [Post(token, RegistrationOf(id))])
    case Stored(subject, payload) => s.(responses := s.responses + [StoredReply(subject, payload)])
    case Tick(elapsed) => s.(now := s.now + elapsed)
    case Registered(c, reply) =>
      To(s, c, match Admit(reply, s.calls[c].id) case None => AtCell case Some(e) => Refused(e))
    case Enter(c) => To(s, c, Publishing)
    case Claim(c) => To(s, c, CheckingRequests).(cell := Busy(c))
    case InitFailed(c) => To(s, c, Refused(ApiUnavailable)).(cell := Empty)
    case RequestStream(c, info) =>
      if ValidRequestStream(info) then To(s, c, CheckingResponses(info))
      else To(s, c, Refused(ApiUnavailable)).(cell := Empty)
    case ResponseStream(c, info) =>
      if ValidResponseStream(info) then To(s, c, Publishing).(cell := Ready(s.calls[c].phase.request, info))
      else To(s, c, Refused(ApiUnavailable)).(cell := Empty)
    case Published(c) => To(s, c, Acking).(requests := Deduplicated(s.requests, SignalOf(s.calls[c].id)))
    case PublishFailed(c) => To(s, c, Refused(ApiUnavailable))
    case Acked(c) => To(s, c, Polling(s.now, 0))
    case AckFailed(c) => To(s, c, Refused(ApiUnavailable))
    case Hit(c) => To(s, c, Replied(LastFor(s.responses, ResponseSubject(s.calls[c].id)).value))
    case Missed(c) =>
      var p := s.calls[c].phase;
      if s.now >= p.started + ASYNC_TIMEOUT then To(s, c, TimedOut(p.started, s.now))
      else To(s, c, Sleeping(p.started, p.misses + 1, s.now))
    case Woke(c) => To(s, c, Polling(s.calls[c].phase.started, s.calls[c].phase.misses))
    case Cancelled(c) => To(s, c, Dropped).(cell := if s.cell == Busy(c) then Empty else s.cell)
  }

  predicate ValidRun(s: State, es: seq<Event>)
    decreases |es|
  {
    es == [] || (Enabled(s, es[0]) && ValidRun(Apply(s, es[0]), es[1..]))
  }

  function Exec(s: State, es: seq<Event>): State
    requires ValidRun(s, es)
    decreases |es|
  {
    if es == [] then s else Exec(Apply(s, es[0]), es[1..])
  }

  lemma {:induction false} RunConcat(s: State, a: seq<Event>, b: seq<Event>)
    ensures ValidRun(s, a + b) <==> ValidRun(s, a) && ValidRun(Exec(s, a), b)
    ensures ValidRun(s, a + b) ==> Exec(s, a + b) == Exec(Exec(s, a), b)
    decreases |a|
  {
    if a == [] {
      assert a + b == b;
    } else {
      assert (a + b)[0] == a[0] && (a + b)[1..] == a[1..] + b;
      if Enabled(s, a[0]) { RunConcat(Apply(s, a[0]), a[1..], b); }
    }
  }

  lemma RunSnoc(s: State, es: seq<Event>, e: Event)
    requires ValidRun(s, es) && Enabled(Exec(s, es), e)
    ensures ValidRun(s, es + [e]) && Exec(s, es + [e]) == Apply(Exec(s, es), e)
  {
    RunConcat(s, es, [e]);
    assert [e][1..] == [];
    assert ValidRun(Exec(s, es), [e]);
  }

  ghost predicate Run(es: seq<Event>) { ValidRun(Init(), es) }

  ghost function After(es: seq<Event>): State
    requires Run(es)
  {
    Exec(Init(), es)
  }
}
