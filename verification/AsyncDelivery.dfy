/** Signals are never swallowed, replies are a call's own, and tokens leave no durable trace. */
module AsyncDelivery {
  import opened Wrappers
  import opened Framing
  import opened Naming
  import opened Service
  import opened AsyncMachine
  import opened AsyncSafety

  // --- Every published signal is stored -------------------------------------

  // The calls that published, in the order of their publications.
  function Publishers(es: seq<Event>): seq<nat> {
    if es == [] then []
    else Publishers(es[..|es| - 1]) + if es[|es| - 1].Published? then [es[|es| - 1].c] else []
  }

  // Not yet published.
  predicate Unpublished(p: Phase) {
    p.Registering? || p.AtCell? || p.Initialising() || p.Publishing?
  }

  ghost predicate StreamOk(s: State, order: seq<nat>) {
    && |s.requests| == |order|
    && (forall i :: 0 <= i < |order| ==>
          order[i] < |s.calls| && !Unpublished(s.calls[order[i]].phase)
          && s.requests[i] == SignalOf(s.calls[order[i]].id))
    && forall i, j :: 0 <= i < j < |order| ==> order[i] != order[j]
  }

  // Ids stay, and what is published stays published.
  lemma CallsMoveOn(s: State, e: Event, d: nat)
    requires Enabled(s, e) && d < |s.calls|
    ensures var t := Apply(s, e);
            d < |t.calls| && t.calls[d].id == s.calls[d].id
            && (!Unpublished(s.calls[d].phase) ==> !Unpublished(t.calls[d].phase))
  {}

  lemma OtherStepsStoreNothing(s: State, order: seq<nat>, e: Event)
    requires StreamOk(s, order) && Enabled(s, e) && !e.Published?
    ensures StreamOk(Apply(s, e), order)
  {
    var t := Apply(s, e);
    assert t.requests == s.requests;
    forall i | 0 <= i < |order|
      ensures order[i] < |t.calls| && !Unpublished(t.calls[order[i]].phase)
              && t.requests[i] == SignalOf(t.calls[order[i]].id)
    {
      CallsMoveOn(s, e, order[i]);
    }
  }

  lemma IdIsNew(s: State, order: seq<nat>, c: nat)
    requires DistinctIds(s) && StreamOk(s, order) && c < |s.calls| && Unpublished(s.calls[c].phase)
    ensures forall i :: 0 <= i < |s.requests| ==> s.requests[i].messageId != MessageId(s.calls[c].id)
    ensures c !in order
  {
    forall i | 0 <= i < |s.requests| ensures s.requests[i].messageId != MessageId(s.calls[c].id) {
      var d := order[i];
      assert d != c;
      assert s.calls[d].id != s.calls[c].id;
      NamesAreInjective(s.calls[d].id, s.calls[c].id);
    }
  }

  lemma PublishStores(s: State, order: seq<nat>, c: nat)
    requires DistinctIds(s) && StreamOk(s, order) && Enabled(s, Published(c))
    ensures StreamOk(Apply(s, Published(c)), order + [c])
  {
    IdIsNew(s, order, c);
    var t := Apply(s, Published(c));
    assert t.requests == s.requests + [SignalOf(s.calls[c].id)];
    var order' := order + [c];
    forall i | 0 <= i < |order'|
      ensures order'[i] < |t.calls| && !Unpublished(t.calls[order'[i]].phase)
              && t.requests[i] == SignalOf(t.calls[order'[i]].id)
    {
      if i < |order| { CallsMoveOn(s, Published(c), order[i]); }
    }
  }

  // The request stream holds exactly the signals published, one a call, in order:
  // deduplication swallows none.
  lemma NoSignalIsSwallowed(es: seq<Event>)
    requires Run(es)
    ensures var (s, order) := (After(es), Publishers(es));
            && |s.requests| == |order|
            && (forall i :: 0 <= i < |order| ==>
                  order[i] < |s.calls|
                  && s.requests[i] == Signal("happy-wakey-request-" + UuidText(s.calls[order[i]].id),
                                             "happy-wakey.async-operation.signal.v1", UuidText(s.calls[order[i]].id)))
            && forall i, j :: 0 <= i < j < |order| ==> order[i] != order[j]
  {
    StreamInRun(es);
  }

  lemma {:induction false} StreamInRun(es: seq<Event>)
    requires Run(es)
    ensures StreamOk(After(es), Publishers(es))
    decreases |es|
  {
    if es != [] {
      var init, e := es[..|es| - 1], es[|es| - 1];
      assert init + [e] == es;
      RunConcat(Init(), init, [e]);
      assert Enabled(After(init), e);
      RunSnoc(Init(), init, e);
      Reachable(init);
      StreamInRun(init);
      if e.Published? {
        PublishStores(After(init), Publishers(init), e.c);
      } else {
        OtherStepsStoreNothing(After(init), Publishers(init), e);
        assert Publishers(init) + [] == Publishers(init);
      }
    }
  }

  // Publishing the same operation again is acknowledged without a second copy.
  lemma RepublishingIsIdempotent(stream: seq<Signal>, id: Uuid)
    ensures Deduplicated(Deduplicated(stream, SignalOf(id)), SignalOf(id)) == Deduplicated(stream, SignalOf(id))
  {
    var once := Deduplicated(stream, SignalOf(id));
    assert exists i :: 0 <= i < |once| && once[i].messageId == MessageId(id) by {
      if once != stream { assert once[|stream|].messageId == MessageId(id); }
    }
  }

  // --- Replies --------------------------------------------------------------

  lemma {:induction false} LastForIsStored(rs: seq<StoredReply>, subject: string)
    requires LastFor(rs, subject).Some?
    ensures StoredReply(subject, LastFor(rs, subject).value) in rs
  {
    if rs[|rs| - 1].subject != subject { LastForIsStored(rs[..|rs| - 1], subject); }
  }

  ghost predicate RepliesStored(s: State) {
    forall c :: 0 <= c < |s.calls| && s.calls[c].phase.Replied? ==>
      StoredReply(ResponseSubject(s.calls[c].id), s.calls[c].phase.payload) in s.responses
  }

  // A call is replied to only by a hit, with the last message under its subject.
  lemma RepliedOnlyByHit(s: State, e: Event, c: nat)
    requires Enabled(s, e) && c < |Apply(s, e).calls| && Apply(s, e).calls[c].phase.Replied?
    ensures var t := Apply(s, e);
            c < |s.calls| && t.calls[c].id == s.calls[c].id && (forall x :: x in s.responses ==> x in t.responses)
            && (s.calls[c].phase == t.calls[c].phase
                || (e == Hit(c)
                    && LastFor(s.responses, ResponseSubject(s.calls[c].id)) == Some(t.calls[c].phase.payload)))
  {}

  lemma RepliesStep(s: State, e: Event)
    requires RepliesStored(s) && Enabled(s, e)
    ensures RepliesStored(Apply(s, e))
  {
    var t := Apply(s, e);
    forall c | 0 <= c < |t.calls| && t.calls[c].phase.Replied?
      ensures StoredReply(ResponseSubject(t.calls[c].id), t.calls[c].phase.payload) in t.responses
    {
      RepliedOnlyByHit(s, e, c);
      if e == Hit(c) { LastForIsStored(s.responses, ResponseSubject(s.calls[c].id)); }
    }
  }

  lemma {:induction false} RepliesInRun(s: State, es: seq<Event>)
    requires RepliesStored(s) && ValidRun(s, es)
    ensures RepliesStored(Exec(s, es))
    decreases |es|
  {
    if es != [] {
      RepliesStep(s, es[0]);
      RepliesInRun(Apply(s, es[0]), es[1..]);
    }
  }

  // The reply of a call was stored under its own subject, which no other call reads;
  // and a reply of which it accepts alarms names its operation.
  lemma RepliesAreOwn(es: seq<Event>, parse: Parser, c: nat)
    requires Run(es) && c < |After(es).calls| && After(es).calls[c].phase.Replied?
    ensures var s := After(es);
            var k := s.calls[c];
            && StoredReply(ResponseSubject(k.id), k.phase.payload) in s.responses
            && (forall d :: 0 <= d < |s.calls| && d != c ==> ResponseSubject(s.calls[d].id) != ResponseSubject(k.id))
            && (Decode(parse, k.phase.payload, k.id).Ok? ==>
                  forall d :: 0 <= d < |s.calls| && d != c ==> Decode(parse, k.phase.payload, s.calls[d].id).Err?)
  {
    RepliesInRun(Init(), es);
    Reachable(es);
    var s := After(es);
    forall d | 0 <= d < |s.calls| && d != c
      ensures ResponseSubject(s.calls[d].id) != ResponseSubject(s.calls[c].id)
      ensures Decode(parse, s.calls[c].phase.payload, s.calls[c].id).Ok? ==>
                Decode(parse, s.calls[c].phase.payload, s.calls[d].id).Err?
    {
      assert s.calls[d].id != s.calls[c].id;
      NotForAnother(parse, s.calls[c].phase.payload, s.calls[c].id, s.calls[d].id);
    }
  }

  lemma NotForAnother(parse: Parser, payload: Bytes, id: Uuid, other: Uuid)
    requires id != other
    ensures ResponseSubject(other) != ResponseSubject(id)
    ensures Decode(parse, payload, id).Ok? ==> Decode(parse, payload, other).Err?
  {
    NamesAreInjective(other, id);
  }

  // --- Registrations --------------------------------------------------------

  // One registration a call, with its bearer and its operation id.
  ghost predicate PostsOk(s: State) {
    |s.posts| == |s.calls|
    && forall c :: 0 <= c < |s.calls| ==> s.posts[c] == Post(s.calls[c].token, RegistrationOf(s.calls[c].id))
  }

  lemma CallsKeepTokens(s: State, e: Event, c: nat)
    requires Enabled(s, e) && c < |s.calls|
    ensures var t := Apply(s, e);
            c < |t.calls| && t.calls[c].id == s.calls[c].id && t.calls[c].token == s.calls[c].token
  {}

  lemma PostsStep(s: State, e: Event)
    requires PostsOk(s) && Enabled(s, e)
    ensures PostsOk(Apply(s, e))
  {
    var t := Apply(s, e);
    if !e.Begin? { assert t.posts == s.posts && |t.calls| == |s.calls|; }
    forall c | 0 <= c < |t.calls| ensures t.posts[c] == Post(t.calls[c].token, RegistrationOf(t.calls[c].id)) {
      if c < |s.calls| { CallsKeepTokens(s, e, c); }
    }
  }

  lemma {:induction false} PostsInRun(s: State, es: seq<Event>)
    requires PostsOk(s) && ValidRun(s, es)
    ensures PostsOk(Exec(s, es))
    decreases |es|
  {
    if es != [] {
      PostsStep(s, es[0]);
      PostsInRun(Apply(s, es[0]), es[1..]);
    }
  }

  // An operation is registered by the registration at `i` only, under this bearer.
  predicate RegisteredOnce(posts: seq<Post>, id: Uuid, bearer: Bytes, i: nat) {
    i < |posts| && posts[i] == Post(bearer, Registration("happy-wakey.async-operation.request.v1", UuidText(id)))
    && forall j :: 0 <= j < |posts| && j != i ==> posts[j].body.operationId != UuidText(id)
  }

  // Whatever the calls do, each operation is registered exactly once, with its call's bearer.
  lemma RegisteredWithItsBearer(es: seq<Event>, c: nat)
    requires Run(es) && c < |After(es).calls|
    ensures RegisteredOnce(After(es).posts, After(es).calls[c].id, After(es).calls[c].token, c)
  {
    PostsInRun(Init(), es);
    Reachable(es);
    var s := After(es);
    forall j | 0 <= j < |s.posts| && j != c ensures s.posts[j].body.operationId != UuidText(s.calls[c].id) {
      assert s.calls[j].id != s.calls[c].id;
      NamesAreInjective(s.calls[j].id, s.calls[c].id);
    }
  }

  // --- Tokens ---------------------------------------------------------------

  function RetokenEvent(e: Event, f: Bytes -> Bytes): Event {
    match e
    case Begin(id, token) => Begin(id, f(token))
    case _ => e
  }

  function Retoken(es: seq<Event>, f: Bytes -> Bytes): (r: seq<Event>)
    ensures |r| == |es|
  {
    if es == [] then [] else [RetokenEvent(es[0], f)] + Retoken(es[1..], f)
  }

  // The same state with other tokens: only calls and the bearers of registrations differ.
  ghost predicate SameButTokens(s: State, t: State, f: Bytes -> Bytes) {
    && t.cell == s.cell && t.now == s.now && t.requests == s.requests && t.responses == s.responses
    && |t.calls| == |s.calls| && |t.posts| == |s.posts|
    && (forall c :: 0 <= c < |s.calls| ==> t.calls[c] == s.calls[c].(token := f(s.calls[c].token)))
    && forall i :: 0 <= i < |s.posts| ==> t.posts[i] == Post(f(s.posts[i].bearer), s.posts[i].body)
  }

  lemma RetokenActor(s: State, t: State, e: Event, f: Bytes -> Bytes, c: nat)
    requires SameButTokens(s, t, f) && Enabled(s, e) && Actor(e) == Some(c)
    ensures Enabled(t, e) && SameButTokens(Apply(s, e), Apply(t, e), f)
  {
    assert t.calls[c] == s.calls[c].(token := f(s.calls[c].token));
  }

  lemma RetokenStep(s: State, t: State, e: Event, f: Bytes -> Bytes)
    requires SameButTokens(s, t, f) && Enabled(s, e)
    ensures Enabled(t, RetokenEvent(e, f)) && SameButTokens(Apply(s, e), Apply(t, RetokenEvent(e, f)), f)
  {
    if Actor(e).Some? { RetokenActor(s, t, e, f, Actor(e).value); }
  }

  lemma {:induction false} RetokenRun(s: State, t: State, es: seq<Event>, f: Bytes -> Bytes)
    requires SameButTokens(s, t, f) && ValidRun(s, es)
    ensures ValidRun(t, Retoken(es, f)) && SameButTokens(Exec(s, es), Exec(t, Retoken(es, f)), f)
    decreases |es|
  {
    if es != [] {
      RetokenStep(s, t, es[0], f);
      assert Retoken(es, f)[1..] == Retoken(es[1..], f);
      RetokenRun(Apply(s, es[0]), Apply(t, RetokenEvent(es[0], f)), es[1..], f);
    }
  }

  // Replacing every bearer of a run by another gives a run again, in which nothing
  // durable, no message body and no outcome differs.
  lemma DurableStateIsTokenFree(es: seq<Event>, f: Bytes -> Bytes)
    requires Run(es)
    ensures Run(Retoken(es, f))
    ensures var (s, t) := (After(es), After(Retoken(es, f)));
            && t.requests == s.requests && t.responses == s.responses && t.cell == s.cell
            && |t.posts| == |s.posts| && |t.calls| == |s.calls|
            && (forall i :: 0 <= i < |s.posts| ==> t.posts[i].body == s.posts[i].body)
            && (forall c :: 0 <= c < |s.calls| ==>
                  t.calls[c].id == s.calls[c].id && t.calls[c].phase == s.calls[c].phase)
  {
    RetokenRun(Init(), Init(), es, f);
    var s, t := After(es), After(Retoken(es, f));
    forall i | 0 <= i < |s.posts| ensures t.posts[i].body == s.posts[i].body {}
  }
}
