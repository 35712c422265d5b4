/**
 The asynchronous fetch as it is written, among arbitrary steps of other calls, of the
 worker and of the clock; every state it passes through is one of AsyncMachine.
 */
module AsyncBoard {
  import opened Wrappers
  import opened Framing
  import opened Naming
  import opened Service
  import opened AsyncMachine
  import opened AsyncSafety

  predicate Leaves(es: seq<Event>, c: nat) { forall i :: 0 <= i < |es| ==> Actor(es[i]) != Some(c) }

  // While call c is suspended, others neither change it nor the transport it relies on.
  ghost predicate Undisturbed(s: State, t: State, c: nat) {
    && c < |s.calls| <= |t.calls| && t.calls[c] == s.calls[c] && s.now <= t.now
    && (s.cell == Busy(c) <==> t.cell == Busy(c))
    && (s.cell.Ready? ==> t.cell == s.cell)
  }

  lemma UndisturbedStep(s: State, es: seq<Event>, e: Event, c: nat)
    requires Inv(s, es) && Enabled(s, e) && Actor(e) != Some(c) && c < |s.calls|
    ensures Undisturbed(s, Apply(s, e), c)
  {
    ActorBusy(s, es, e);
    OthersFrame(s, e, c);
  }

  lemma {:induction false} UndisturbedRun(s: State, past: seq<Event>, es: seq<Event>, c: nat)
    requires Inv(s, past) && ValidRun(s, es) && Leaves(es, c) && c < |s.calls|
    ensures Undisturbed(s, Exec(s, es), c)
    decreases |es|
  {
    if es != [] {
      UndisturbedStep(s, past, es[0], c);
      InvStep(s, past, es[0]);
      UndisturbedRun(Apply(s, es[0]), past + [es[0]], es[1..], c);
    }
  }

  lemma CellMayLetGo(es: seq<Event>, c: nat)
    requires Run(es) && c < |After(es).calls| && After(es).calls[c].phase.AtCell? && After(es).cell.Busy?
    ensures After(es).cell.c != c && Enabled(After(es), InitFailed(After(es).cell.c))
  {
    Reachable(es);
    assert CallOk(After(es), c, Story(es, c));
  }

  lemma PollingInTime(es: seq<Event>, c: nat)
    requires Run(es) && c < |After(es).calls| && After(es).calls[c].phase.Polling?
    ensures After(es).calls[c].phase.misses <= 150
  {
    Reachable(es);
    assert CallOk(After(es), c, Story(es, c));
  }

  // What others answered to one call, as far as it came: to its registration; to the lookups
  // of the two streams, if it initialised the transport; whether its signal went out and
  // was acknowledged; and what every poll brought.
  datatype Answers = Answers(
    reply: HttpReply,
    lookups: Option<(Option<StreamInfo>, Option<StreamInfo>)>,
    sent: Option<bool>,
    acked: Option<bool>,
    polls: seq<Option<Bytes>>)

  predicate BothValid(a: Option<StreamInfo>, b: Option<StreamInfo>) {
    a.Some? && ValidRequestStream(a.value) && b.Some? && ValidResponseStream(b.value)
  }

  // Every poll but the last brought nothing, and the last decides.
  predicate PollsEnd(polls: seq<Option<Bytes>>, p: Phase) {
    && polls != [] && (forall i :: 0 <= i < |polls| - 1 ==> polls[i].None?)
    && match polls[|polls| - 1]
       case Some(payload) => p == Replied(payload)
       case None => p.TimedOut?
  }

  // How a call ends is decided by what others answered: the first bad answer refuses it, and
  // if there is none its polls decide.
  predicate EndsBy(a: Answers, id: Uuid, p: Phase) {
    match Admit(a.reply, id)
    case Some(e) => p == Refused(e)
    case None =>
      if a.lookups.Some? && !BothValid(a.lookups.value.0, a.lookups.value.1) then p == Refused(ApiUnavailable)
      else a.sent.Some?
           && if !a.sent.value then p == Refused(ApiUnavailable)
              else a.acked.Some? && if !a.acked.value then p == Refused(ApiUnavailable) else PollsEnd(a.polls, p)
  }

  class Board {
    var calls: seq<Call>
    var cell: Cell
    var posts: seq<Post>
    var requests: seq<Signal>
    var responses: seq<StoredReply>
    var now: nat
    // The server's URL, the credentials file if any, and whether TLS is required.
    const arguments: Result<(string, Option<string>, bool), WebError>
    ghost var trace: seq<Event>

    function Now(): State
      reads this
    {
      State(calls, cell, posts, requests, responses, now)
    }

    ghost predicate Valid()
      reads this
    {
      Run(trace) && After(trace) == Now()
    }

    constructor (arguments: Result<(string, Option<string>, bool), WebError>)
      ensures Valid() && trace == [] && this.arguments == arguments
    {
      this.arguments := arguments;
      calls, cell, posts, requests, responses, now := [], Empty, [], [], [], 0;
      trace := [];
    }

    // Call c still has its operation id and its bearer.
    predicate SameCall(before: seq<Call>, c: nat)
      reads this`calls
    {
      c < |before| && c < |calls| && calls[c].id == before[c].id && calls[c].token == before[c].token
    }

    predicate ValidatedTransport()
      reads this`cell
    {
      cell.Ready? && ValidRequestStream(cell.request) && ValidResponseStream(cell.response)
    }

    ghost method Record(before: State, e: Event)
      requires Run(trace) && After(trace) == before && Enabled(before, e) && Now() == Apply(before, e)
      modifies this`trace
      ensures Valid() && trace == old(trace) + [e]
    {
      RunSnoc(Init(), trace, e);
      trace := trace + [e];
    }

    method Environment(es: seq<Event>, c: nat)
      requires Valid() && ValidRun(Now(), es) && Leaves(es, c) && c < |calls|
      modifies this
      ensures Valid() && trace == old(trace) + es && Now() == Exec(old(Now()), es)
      ensures Undisturbed(old(Now()), Now(), c)
    {
      var State(calls', cell', posts', requests', responses', now') := Exec(Now(), es);
      Reachable(trace);
      UndisturbedRun(Now(), trace, es, c);
      RunConcat(Init(), trace, es);
      calls, cell, posts, requests, responses, now := calls', cell', posts', requests', responses', now';
      trace := trace + es;
    }

    // An await of call c: any valid run of the others, possibly none.
    method Interfere(c: nat)
      requires Valid() && c < |calls|
      modifies this
      ensures Valid() && old(trace) <= trace && Undisturbed(old(Now()), Now(), c)
    {
      var es: seq<Event> := *;
      if !(ValidRun(Now(), es) && Leaves(es, c)) { es := []; }
      Environment(es, c);
    }

    // Waits while another call initialises the transport; it may always fail and let go.
    method AwaitCell(c: nat)
      requires Valid() && c < |calls| && calls[c].phase.AtCell?
      modifies this
      ensures Valid() && old(trace) <= trace && Undisturbed(old(Now()), Now(), c) && !cell.Busy?
    {
      var es: seq<Event> := *;
      if !(ValidRun(Now(), es) && Leaves(es, c) && !Exec(Now(), es).cell.Busy?) {
        es := [];
        if cell.Busy? {
          CellMayLetGo(trace, c);
          es := [InitFailed(cell.c)];
          RunSnoc(Now(), [], es[0]);
        }
      }
      Environment(es, c);
    }

    method AwaitClock(c: nat, wake: nat)
      requires Valid() && c < |calls|
      modifies this
      ensures Valid() && old(trace) <= trace && Undisturbed(old(Now()), Now(), c) && now >= wake
    {
      var es: seq<Event> := *;
      if !(ValidRun(Now(), es) && Leaves(es, c) && Exec(Now(), es).now >= wake) {
        es := [Tick(wake)];
        RunSnoc(Now(), [], es[0]);
      }
      Environment(es, c);
    }

    // Pauses between two polls.
    method Sleep(c: nat)
      requires Valid() && c < |calls| && calls[c].phase.Sleeping?
      modifies this
      ensures Valid() && old(trace) <= trace && SameCall(old(calls), c)
      ensures calls[c].phase == Polling(old(calls[c].phase.started), old(calls[c].phase.misses))
    {
      AwaitClock(c, calls[c].phase.since + POLL_PAUSE);
      ghost var before := Now();
      calls := calls[c := calls[c].(phase := Polling(calls[c].phase.started, calls[c].phase.misses))];
      Record(before, Woke(c));
    }

    // Enters the transport, or initialises it if no other call has or does.
    method Transport(c: nat)
      returns (ok: bool, ghost lookups: Option<(Option<StreamInfo>, Option<StreamInfo>)>)
      requires Valid() && arguments.Ok? && c < |calls| && calls[c].phase.AtCell?
      modifies this
      ensures Valid() && old(trace) <= trace && SameCall(old(calls), c)
      ensures calls[c].phase == if ok then Publishing else Refused(ApiUnavailable)
      ensures ok ==> ValidatedTransport()
      ensures ok <==> lookups.None? || BothValid(lookups.value.0, lookups.value.1)
    {
      AwaitCell(c);
      ghost var before := Now();
      if cell.Ready? {
        Reachable(trace);
        calls := calls[c := calls[c].(phase := Publishing)];
        Record(before, Enter(c));
        return true, None;
      }
      calls := calls[c := calls[c].(phase := CheckingRequests)];
      cell := Busy(c);
      Record(before, Claim(c));
      ghost var request, response;
      ok, request, response := ConnectNats(c);
      lookups := Some((request, response));
    }

    // Stops initialising; the next caller tries again.
    method GiveUp(c: nat, ghost e: Event)
      requires Valid() && Enabled(Now(), e) && c < |calls|
      requires e == InitFailed(c)
               || (e.RequestStream? && e.c == c && !ValidRequestStream(e.info))
               || (e.ResponseStream? && e.c == c && !ValidResponseStream(e.info))
      modifies this
      ensures Valid() && old(trace) <= trace && SameCall(old(calls), c)
      ensures calls[c].phase == Refused(ApiUnavailable) && cell == Empty
    {
      ghost var before := Now();
      calls := calls[c := calls[c].(phase := Refused(ApiUnavailable))];
      cell := Empty;
      Record(before, e);
    }

    // Connects, then validates the request stream and after it the response stream.
    method ConnectNats(c: nat)
      returns (ok: bool, ghost request: Option<StreamInfo>, ghost response: Option<StreamInfo>)
      requires Valid() && arguments.Ok? && c < |calls| && calls[c].phase.CheckingRequests?
      modifies this
      ensures Valid() && old(trace) <= trace && SameCall(old(calls), c)
      ensures calls[c].phase == if ok then Publishing else Refused(ApiUnavailable)
      ensures ok <==> BothValid(request, response)
      ensures ok ==> cell == Ready(request.value, response.value)
                     && trace[|trace| - 1] == ResponseStream(c, response.value)
      ensures !ok ==> cell == Empty
    {
      if arguments.Err? { assert false; return false, None, None; }
      response := None;
      var valid;
      valid, request := CheckRequests(c);
      if valid.None? { return false, request, response; }
      ok, response := CheckResponses(c, valid.value);
    }

    // The stream that is looked up, if the connection and the lookup succeed.
    method LookUp(c: nat) returns (found: Option<StreamInfo>)
      requires Valid() && c < |calls|
      modifies this
      ensures Valid() && old(trace) <= trace && Undisturbed(old(Now()), Now(), c)
    {
      Interfere(c);
      found := *;
    }

    method CheckRequests(c: nat) returns (request: Option<StreamInfo>, ghost found: Option<StreamInfo>)
      requires Valid() && c < |calls| && calls[c].phase.CheckingRequests?
      modifies this
      ensures Valid() && old(trace) <= trace && SameCall(old(calls), c)
      ensures request.Some? ==> calls[c].phase == CheckingResponses(request.value) && ValidRequestStream(request.value)
      ensures request.None? ==> calls[c].phase == Refused(ApiUnavailable) && cell == Empty
      ensures request == if found.Some? && ValidRequestStream(found.value) then found else None
    {
      request := LookUp(c);
      found := request;
      if request.None? {
        GiveUp(c, InitFailed(c));
        return None, found;
      }
      if !ValidRequestStream(request.value) {
        GiveUp(c, RequestStream(c, request.value));
        return None, found;
      }
      ghost var before := Now();
      calls := calls[c := calls[c].(phase := CheckingResponses(request.value))];
      Record(before, RequestStream(c, request.value));
    }

    method CheckResponses(c: nat, request: StreamInfo) returns (ok: bool, ghost found: Option<StreamInfo>)
      requires Valid() && c < |calls| && calls[c].phase == CheckingResponses(request) && ValidRequestStream(request)
      modifies this
      ensures Valid() && old(trace) <= trace && SameCall(old(calls), c)
      ensures calls[c].phase == if ok then Publishing else Refused(ApiUnavailable)
      ensures ok <==> found.Some? && ValidResponseStream(found.value)
      ensures ok ==> cell == Ready(request, found.value)
                     && trace != [] && trace[|trace| - 1] == ResponseStream(c, found.value)
      ensures !ok ==> cell == Empty
    {
      var response := LookUp(c);
      found := response;
      if response.None? {
        GiveUp(c, InitFailed(c));
        return false, found;
      }
      if !ValidResponseStream(response.value) {
        GiveUp(c, ResponseStream(c, response.value));
        return false, found;
      }
      ghost var before := Now();
      calls := calls[c := calls[c].(phase := Publishing)];
      cell := Ready(request, response.value);
      Record(before, ResponseStream(c, response.value));
      ok := true;
    }

    // Registers the operation; its answer decides whether the call goes on.
    method Register(id: Uuid, token: Bytes) returns (c: nat, refusal: Option<WebError>, ghost answer: HttpReply)
      requires Valid() && forall i :: 0 <= i < |calls| ==> calls[i].id != id
      modifies this
      ensures Valid() && old(trace) <= trace && |old(calls)| <= c < |calls|
      ensures calls[c].id == id && calls[c].token == token
      ensures calls[c].phase == match refusal case None => AtCell case Some(e) => Refused(e)
      ensures trace != [] && trace[|trace| - 1] == Registered(c, answer)
      ensures refusal.None? <==> answer == AcceptanceOf(id)
      ensures refusal == Admit(answer, id)
    {
      c := Post(id, token);
      Interfere(c);
      ghost var before := Now();
      var reply: HttpReply := *;
      answer := reply;
      AdmitExactly(reply, id);
      refusal := Admit(reply, id);
      calls := calls[c := calls[c].(phase := match refusal case None => AtCell case Some(e) => Refused(e))];
      Record(before, Registered(c, reply));
    }

    // The registration goes out.
    method Post(id: Uuid, token: Bytes) returns (c: nat)
      requires Valid() && forall i :: 0 <= i < |calls| ==> calls[i].id != id
      modifies this
      ensures Valid() && trace == old(trace) + [Begin(id, token)] && c == |old(calls)|
      ensures calls == old(calls) + [Call(id, token, Registering)]
      ensures posts == old(posts) + [AsyncMachine.Post(token, RegistrationOf(id))]
    {
      ghost var before := Now();
      c := |calls|;
      calls := calls + [Call(id, token, Registering)];
      posts := posts + [AsyncMachine.Post(token, RegistrationOf(id))];
      Record(before, Begin(id, token));
    }

    // Publishes the signal and waits for its acknowledgement.
    method Publish(c: nat) returns (ok: bool, ghost sent: bool, ghost acked: Option<bool>)
      requires Valid() && c < |calls| && calls[c].phase.Publishing?
      modifies this
      ensures Valid() && old(trace) <= trace && SameCall(old(calls), c)
      ensures calls[c].phase == if ok then Polling(now, 0) else Refused(ApiUnavailable)
      ensures acked.Some? <==> sent
      ensures ok <==> sent && acked.value
    {
      acked := None;
      ok, sent := SendSignal(c);
      if ok {
        ghost var answered;
        ok, answered := AwaitAck(c);
        acked := Some(answered);
      }
    }

    // One step of call c on the transport, which may fail.
    method AwaitNats(c: nat) returns (fails: bool)
      requires Valid() && c < |calls|
      modifies this
      ensures Valid() && old(trace) <= trace && Undisturbed(old(Now()), Now(), c)
    {
      Interfere(c);
      fails := *;
    }

    method SendSignal(c: nat) returns (ok: bool, ghost sent: bool)
      requires Valid() && c < |calls| && calls[c].phase.Publishing?
      modifies this
      ensures Valid() && old(trace) <= trace && SameCall(old(calls), c)
      ensures calls[c].phase == if ok then Acking else Refused(ApiUnavailable)
      ensures ok ==> exists i :: 0 <= i < |requests| && requests[i].messageId == MessageId(calls[c].id)
      ensures ok <==> sent
    {
      var fails := AwaitNats(c);
      sent := !fails;
      ghost var before := Now();
      if fails {
        calls := calls[c := calls[c].(phase := Refused(ApiUnavailable))];
        Record(before, PublishFailed(c));
        return false, sent;
      }
      ghost var stream := requests;
      requests := Deduplicated(requests, SignalOf(calls[c].id));
      if requests != stream { assert requests[|stream|].messageId == MessageId(calls[c].id); }
      calls := calls[c := calls[c].(phase := Acking)];
      Record(before, Published(c));
      ok := true;
    }

    method AwaitAck(c: nat) returns (ok: bool, ghost acked: bool)
      requires Valid() && c < |calls| && calls[c].phase.Acking?
      modifies this
      ensures Valid() && old(trace) <= trace && SameCall(old(calls), c)
      ensures calls[c].phase == if ok then Polling(now, 0) else Refused(ApiUnavailable)
      ensures ok <==> acked
    {
      var fails := AwaitNats(c);
      acked := !fails;
      ghost var before := Now();
      if fails {
        calls := calls[c := calls[c].(phase := Refused(ApiUnavailable))];
        Record(before, AckFailed(c));
        return false, acked;
      }
      calls := calls[c := calls[c].(phase := Polling(now, 0))];
      Record(before, Acked(c));
      ok := true;
    }

    // The last message under the call's subject, unless the fetch fails.
    method FetchLast(c: nat) returns (message: Option<Bytes>, ghost failed: bool)
      requires Valid() && c < |calls|
      modifies this
      ensures Valid() && old(trace) <= trace && Undisturbed(old(Now()), Now(), c)
      ensures message == if failed then None else LastFor(responses, ResponseSubject(calls[c].id))
    {
      var fails := AwaitNats(c);
      failed := fails;
      message := if fails then None else LastFor(responses, ResponseSubject(calls[c].id));
    }

    // One poll: a message that is fetched ends the polling; otherwise the deadline is
    // checked, and only then does the call pause. `brought` is what was fetched.
    method PollOnce(c: nat) returns (ghost brought: Option<Bytes>, ghost failed: bool)
      requires Valid() && c < |calls| && calls[c].phase.Polling?
      modifies this
      ensures Valid() && old(trace) <= trace && SameCall(old(calls), c)
      ensures calls[c].phase == match brought
                                case Some(payload) => Replied(payload)
                                case None => AfterMiss(old(calls[c].phase), now)
      ensures brought == if failed then None else LastFor(responses, ResponseSubject(calls[c].id))
    {
      var message;
      message, failed := FetchLast(c);
      brought := message;
      if message.Some? { TakeReply(c, message.value); } else { Miss(c); }
    }

    method TakeReply(c: nat, payload: Bytes)
      requires Valid() && c < |calls| && calls[c].phase.Polling?
      requires LastFor(responses, ResponseSubject(calls[c].id)) == Some(payload)
      modifies this
      ensures Valid() && trace == old(trace) + [Hit(c)] && SameCall(old(calls), c) && responses == old(responses)
      ensures calls[c].phase == Replied(payload)
    {
      ghost var before := Now();
      calls := calls[c := calls[c].(phase := Replied(payload))];
      Record(before, Hit(c));
    }

    method Miss(c: nat)
      requires Valid() && c < |calls| && calls[c].phase.Polling?
      modifies this
      ensures Valid() && trace == old(trace) + [Missed(c)] && SameCall(old(calls), c)
      ensures now == old(now) && responses == old(responses)
      ensures calls[c].phase == AfterMiss(old(calls[c].phase), now)
    {
      ghost var before := Now();
      calls := calls[c := calls[c].(phase := AfterMiss(calls[c].phase, now))];
      Record(before, Missed(c));
    }

    // Polls until a reply is fetched or 15 s have passed at a miss.
    method Poll(c: nat) returns (ghost polls: seq<Option<Bytes>>)
      requires Valid() && c < |calls| && calls[c].phase.Polling? && calls[c].phase.misses == 0
      modifies this
      ensures Valid() && old(trace) <= trace && SameCall(old(calls), c)
      ensures PollsEnd(polls, calls[c].phase)
      ensures calls[c].phase.TimedOut? ==> calls[c].phase.at >= old(calls[c].phase.started) + 15_000
    {
      polls := [];
      while true
        invariant Valid() && old(trace) <= trace && SameCall(old(calls), c)
        invariant calls[c].phase.Polling? && calls[c].phase.misses <= 150
        invariant calls[c].phase.started == old(calls[c].phase.started)
        invariant forall i :: 0 <= i < |polls| ==> polls[i].None?
        decreases 150 - calls[c].phase.misses
      {
        ghost var brought, failed := PollOnce(c);
        polls := polls + [brought];
        if !calls[c].phase.Sleeping? { return; }
        Sleep(c);
        PollingInTime(trace, c);
      }
    }

    // fetch_async up to the decoding of its reply: how the call ended, and by which steps.
    method Fetch(id: Uuid, token: Bytes) returns (c: nat, ghost a: Answers)
      requires Valid() && arguments.Ok? && forall i :: 0 <= i < |calls| ==> calls[i].id != id
      modifies this
      ensures Valid() && old(trace) <= trace && |old(calls)| <= c < |calls|
      ensures calls[c].id == id && calls[c].token == token
      ensures EndsBy(a, id, calls[c].phase)
      ensures Fits(Story(trace, c), c, id, calls[c].phase)
    {
      c, a := Await(id, token);
      Reachable(trace);
      assert CallOk(Now(), c, Story(trace, c));
    }

    method Await(id: Uuid, token: Bytes) returns (c: nat, ghost a: Answers)
      requires Valid() && arguments.Ok? && forall i :: 0 <= i < |calls| ==> calls[i].id != id
      modifies this
      ensures Valid() && old(trace) <= trace && |old(calls)| <= c < |calls|
      ensures calls[c].id == id && calls[c].token == token
      ensures EndsBy(a, id, calls[c].phase)
    {
      var refusal;
      ghost var answer;
      c, refusal, answer := Register(id, token);
      a := Answers(answer, None, None, None, []);
      if refusal.Some? { return; }
      var ok;
      ghost var lookups, sent, acked;
      ok, lookups := Transport(c);
      a := a.(lookups := lookups);
      if !ok { return; }
      ok, sent, acked := Publish(c);
      a := a.(sent := Some(sent), acked := acked);
      if !ok { return; }
      ghost var polls := Poll(c);
      a := a.(polls := polls);
    }
  }
}
