/** What every run of the asynchronous mode keeps. */
module AsyncSafety {
  import opened Wrappers
  import opened Framing
  import opened Naming
  import opened Service
  import opened AsyncMachine

  // --- The story of one call ------------------------------------------------

  // The events of one call, in order.
  function Story(es: seq<Event>, c: nat): seq<Event> {
    if es == [] then []
    else Story(es[..|es| - 1], c) + (if Actor(es[|es| - 1]) == Some(c) then [es[|es| - 1]] else [])
  }

  predicate Admitted(h: seq<Event>, c: nat, id: Uuid) {
    |h| == 1 && h[0].Registered? && h[0].c == c && Admit(h[0].reply, id).None?
  }

  // Registered, then let into the transport, either ready or validated by this call.
  predicate Equipped(h: seq<Event>, c: nat, id: Uuid) {
    && |h| >= 2 && Admitted(h[..1], c, id)
    && (h[1..] == [Enter(c)]
        || (|h| == 4 && h[1] == Claim(c)
            && h[2].RequestStream? && h[2].c == c && ValidRequestStream(h[2].info)
            && h[3].ResponseStream? && h[3].c == c && ValidResponseStream(h[3].info)))
  }

  // n polls that missed, each followed by a pause.
  function Misses(c: nat, n: nat): seq<Event> {
    if n == 0 then [] else Misses(c, n - 1) + [Missed(c), Woke(c)]
  }

  // Equipped, published and acknowledged once, then n misses, then `last`.
  ghost predicate Polled(h: seq<Event>, c: nat, id: Uuid, n: nat, last: seq<Event>) {
    exists pre :: Equipped(pre, c, id) && h == pre + [Published(c), Acked(c)] + Misses(c, n) + last
  }

  // Admitted, then initialising the transport.
  predicate Claimed(h: seq<Event>, c: nat, id: Uuid) {
    |h| >= 2 && Admitted(h[..1], c, id) && h[1] == Claim(c)
  }

  ghost predicate Sent(h: seq<Event>, c: nat, id: Uuid) {
    exists pre :: Equipped(pre, c, id) && h == pre + [Published(c)]
  }

  // The step that ended call c with the error `e`, after the steps `h`.
  ghost predicate Refuses(h: seq<Event>, last: Event, c: nat, id: Uuid, e: WebError) {
    match last
    case Registered(d, reply) => d == c && h == [] && Admit(reply, id) == Some(e)
    case InitFailed(d) => d == c && e == ApiUnavailable && Claimed(h, c, id)
    case RequestStream(d, info) =>
      d == c && e == ApiUnavailable && Claimed(h, c, id) && |h| == 2 && !ValidRequestStream(info)
    case ResponseStream(d, info) =>
      d == c && e == ApiUnavailable && Claimed(h, c, id) && |h| == 3 && !ValidResponseStream(info)
    case PublishFailed(d) => d == c && e == ApiUnavailable && Equipped(h, c, id)
    case AckFailed(d) => d == c && e == ApiUnavailable && Sent(h, c, id)
    case _ => false
  }

  ghost predicate RefusedBy(h: seq<Event>, c: nat, id: Uuid, e: WebError) {
    exists earlier, last :: h == earlier + [last] && Refuses(earlier, last, c, id, e)
  }

  ghost predicate Fits(h: seq<Event>, c: nat, id: Uuid, p: Phase) {
    match p
    case Registering => h == []
    case AtCell => Admitted(h, c, id)
    case CheckingRequests => |h| == 2 && Admitted(h[..1], c, id) && h[1] == Claim(c)
    case CheckingResponses(info) =>
      |h| == 3 && Admitted(h[..1], c, id) && h[1] == Claim(c) && h[2] == RequestStream(c, info)
      && ValidRequestStream(info)
    case Publishing => Equipped(h, c, id)
    case Acking => Sent(h, c, id)
    case Polling(_, n) => Polled(h, c, id, n, [])
    case Sleeping(_, n, _) => n >= 1 && Polled(h, c, id, n - 1, [Missed(c)])
    case Replied(_) => exists n: nat :: n <= 150 && Polled(h, c, id, n, [Hit(c)])
    case TimedOut(_, _) => exists n: nat :: n <= 150 && Polled(h, c, id, n, [Missed(c)])
    case Refused(e) => RefusedBy(h, c, id, e)
    case Dropped => true
  }

  // Elapsed time pays for the misses.
  predicate OnTime(p: Phase, now: nat) {
    match p
    case Polling(started, n) => n <= 150 && now >= started + POLL_PAUSE * n
    case Sleeping(started, n, since) =>
      1 <= n <= 150 && now >= since && started + POLL_PAUSE * (n - 1) <= since < started + ASYNC_TIMEOUT
    case TimedOut(started, at) => at >= started + ASYNC_TIMEOUT
    case _ => true
  }

  function Polls(h: seq<Event>): nat {
    if h == [] then 0
    else Polls(h[..|h| - 1]) + if h[|h| - 1].Hit? || h[|h| - 1].Missed? then 1 else 0
  }

  // What a phase says about the number of polls so far.
  predicate PollsFit(p: Phase, n: nat) {
    match p
    case Polling(_, misses) => n == misses
    case Sleeping(_, misses, _) => n == misses
    case Replied(_) => n <= 151
    case TimedOut(_, _) => n <= 151
    case Refused(_) => n == 0
    case Dropped => n <= 150
    case _ => n == 0
  }

  ghost predicate CellOk(s: State) {
    match s.cell
    case Empty => true
    case Busy(c) => c < |s.calls| && s.calls[c].phase.Initialising()
    case Ready(req, resp) => ValidRequestStream(req) && ValidResponseStream(resp)
  }

  ghost predicate CallOk(s: State, c: nat, h: seq<Event>)
    requires c < |s.calls|
  {
    && Fits(h, c, s.calls[c].id, s.calls[c].phase)
    && OnTime(s.calls[c].phase, s.now)
    && PollsFit(s.calls[c].phase, Polls(h))
    && (s.calls[c].phase.Initialising() <==> s.cell == Busy(c))
    && (s.calls[c].phase.PastCell() ==> s.cell.Ready?)
  }

  predicate DistinctIds(s: State) {
    forall i, j :: 0 <= i < j < |s.calls| ==> s.calls[i].id != s.calls[j].id
  }

  ghost predicate Inv(s: State, es: seq<Event>) {
    && CellOk(s)
    && DistinctIds(s)
    && (forall c :: 0 <= c < |s.calls| ==> CallOk(s, c, Story(es, c)))
    && (forall c :: |s.calls| <= c ==> Story(es, c) == [])
  }

  lemma StorySnoc(es: seq<Event>, e: Event, c: nat)
    ensures Story(es + [e], c) == Story(es, c) + if Actor(e) == Some(c) then [e] else []
  {
    assert (es + [e])[..|es|] == es;
  }

  lemma PolledMore(h: seq<Event>, c: nat, id: Uuid, n: nat)
    requires Polled(h, c, id, n, [])
    ensures Polled(h + [Missed(c)], c, id, n, [Missed(c)])
    ensures Polled(h + [Hit(c)], c, id, n, [Hit(c)])
  {
    var pre :| Equipped(pre, c, id) && h == pre + [Published(c), Acked(c)] + Misses(c, n) + [];
    assert h + [Missed(c)] == pre + [Published(c), Acked(c)] + Misses(c, n) + [Missed(c)];
    assert h + [Hit(c)] == pre + [Published(c), Acked(c)] + Misses(c, n) + [Hit(c)];
  }

  lemma PolledWoke(h: seq<Event>, c: nat, id: Uuid, n: nat)
    requires Polled(h, c, id, n, [Missed(c)])
    ensures Polled(h + [Woke(c)], c, id, n + 1, [])
  {
    var pre :| Equipped(pre, c, id) && h == pre + [Published(c), Acked(c)] + Misses(c, n) + [Missed(c)];
    assert h + [Woke(c)] == pre + [Published(c), Acked(c)] + (Misses(c, n) + [Missed(c), Woke(c)]) + [];
  }

  lemma PolledFirst(h: seq<Event>, c: nat, id: Uuid, pre: seq<Event>)
    requires Equipped(pre, c, id) && h == pre + [Published(c)]
    ensures Polled(h + [Acked(c)], c, id, 0, [])
  {
    assert h + [Acked(c)] == pre + [Published(c), Acked(c)] + Misses(c, 0) + [];
  }

  // Let into the transport, or on the way to it.
  predicate Entering(e: Event) {
    e.Registered? || e.Enter? || e.Claim? || e.RequestStream? || e.ResponseStream?
  }

  function PhaseAfter(s: State, e: Event, c: nat): Phase
    requires Enabled(s, e) && Actor(e) == Some(c)
  {
    Apply(s, e).calls[c].phase
  }

  lemma Snoc<T>(h: seq<T>, x: T)
    ensures (h + [x])[..|h|] == h && (h + [x])[|h|] == x
    ensures forall n :: 0 <= n <= |h| ==> (h + [x])[..n] == h[..n]
  {}

  lemma RefusalFits(s: State, e: Event, c: nat, h: seq<Event>)
    requires Enabled(s, e) && Actor(e) == Some(c) && Fits(h, c, s.calls[c].id, s.calls[c].phase)
    requires PhaseAfter(s, e, c).Refused?
    ensures Fits(h + [e], c, s.calls[c].id, PhaseAfter(s, e, c))
  {
    assert Refuses(h, e, c, s.calls[c].id, PhaseAfter(s, e, c).error);
  }

  lemma RegisteredFits(s: State, e: Event, c: nat, h: seq<Event>)
    requires Enabled(s, e) && Actor(e) == Some(c) && Fits(h, c, s.calls[c].id, s.calls[c].phase)
    requires e.Registered? || e.Enter? || e.Claim?
    requires !PhaseAfter(s, e, c).Refused?
    ensures Fits(h + [e], c, s.calls[c].id, PhaseAfter(s, e, c))
  {
    Snoc(h, e);
    if e.Registered? { assert (h + [e])[..1] == h + [e]; } else { assert (h + [e])[1..] == [e]; }
  }

  lemma ValidatedFits(s: State, e: Event, c: nat, h: seq<Event>)
    requires Enabled(s, e) && Actor(e) == Some(c) && Fits(h, c, s.calls[c].id, s.calls[c].phase)
    requires e.RequestStream? || e.ResponseStream?
    requires !PhaseAfter(s, e, c).Refused?
    ensures Fits(h + [e], c, s.calls[c].id, PhaseAfter(s, e, c))
  {
    Snoc(h, e);
    if e.ResponseStream? { assert (h + [e])[2] == h[2] && (h + [e])[3] == e; }
  }

  lemma EntryFits(s: State, e: Event, c: nat, h: seq<Event>)
    requires Enabled(s, e) && Actor(e) == Some(c) && Fits(h, c, s.calls[c].id, s.calls[c].phase) && Entering(e)
    requires !PhaseAfter(s, e, c).Refused?
    ensures Fits(h + [e], c, s.calls[c].id, PhaseAfter(s, e, c))
  {
    if e.RequestStream? || e.ResponseStream? { ValidatedFits(s, e, c, h); } else { RegisteredFits(s, e, c, h); }
  }

  lemma WokeFits(h: seq<Event>, c: nat, id: Uuid, p: Phase)
    requires p.Sleeping? && Fits(h, c, id, p)
    ensures Fits(h + [Woke(c)], c, id, Polling(p.started, p.misses))
  {
    PolledWoke(h, c, id, p.misses - 1);
  }

  lemma HitFits(h: seq<Event>, c: nat, id: Uuid, p: Phase, payload: Bytes)
    requires p.Polling? && p.misses <= 150 && Fits(h, c, id, p)
    ensures Fits(h + [Hit(c)], c, id, Replied(payload))
  {
    PolledMore(h, c, id, p.misses);
  }

  lemma TimedOutFits(h: seq<Event>, c: nat, id: Uuid, p: Phase, at: nat)
    requires p.Polling? && p.misses <= 150 && Fits(h, c, id, p)
    ensures Fits(h + [Missed(c)], c, id, TimedOut(p.started, at))
  {
    PolledMore(h, c, id, p.misses);
  }

  lemma SleepingFits(h: seq<Event>, c: nat, id: Uuid, p: Phase, now: nat)
    requires p.Polling? && Fits(h, c, id, p)
    ensures Fits(h + [Missed(c)], c, id, Sleeping(p.started, p.misses + 1, now))
  {
    PolledMore(h, c, id, p.misses);
  }

  lemma PublishedFits(s: State, c: nat, h: seq<Event>)
    requires Enabled(s, Published(c)) && Fits(h, c, s.calls[c].id, s.calls[c].phase)
    ensures Fits(h + [Published(c)], c, s.calls[c].id, PhaseAfter(s, Published(c), c))
  {}

  lemma AckedFits(s: State, c: nat, h: seq<Event>)
    requires Enabled(s, Acked(c)) && Fits(h, c, s.calls[c].id, s.calls[c].phase)
    ensures Fits(h + [Acked(c)], c, s.calls[c].id, PhaseAfter(s, Acked(c), c))
  {
    var pre :| Equipped(pre, c, s.calls[c].id) && h == pre + [Published(c)];
    PolledFirst(h, c, s.calls[c].id, pre);
  }

  function AfterMiss(p: Phase, now: nat): Phase
    requires p.Polling?
  {
    if now >= p.started + ASYNC_TIMEOUT then TimedOut(p.started, now) else Sleeping(p.started, p.misses + 1, now)
  }

  lemma MissedFits(h: seq<Event>, c: nat, id: Uuid, p: Phase, now: nat)
    requires p.Polling? && p.misses <= 150 && Fits(h, c, id, p)
    ensures Fits(h + [Missed(c)], c, id, AfterMiss(p, now))
  {
    TimedOutFits(h, c, id, p, now);
    SleepingFits(h, c, id, p, now);
  }

  lemma LateFits(s: State, e: Event, c: nat, h: seq<Event>)
    requires Enabled(s, e) && Actor(e) == Some(c) && Fits(h, c, s.calls[c].id, s.calls[c].phase)
    requires OnTime(s.calls[c].phase, s.now) && !Entering(e) && !PhaseAfter(s, e, c).Refused?
    ensures Fits(h + [e], c, s.calls[c].id, PhaseAfter(s, e, c))
  {
    match e
    case Published(_) => PublishedFits(s, c, h);
    case Acked(_) => AckedFits(s, c, h);
    case Cancelled(_) =>
    case Missed(_) => MissedFits(h, c, s.calls[c].id, s.calls[c].phase, s.now);
    case Woke(_) => WokeFits(h, c, s.calls[c].id, s.calls[c].phase);
    case Hit(_) => HitFits(h, c, s.calls[c].id, s.calls[c].phase, PhaseAfter(s, e, c).payload);
  }

  // The acting call's new phase continues its story.
  lemma ActorFits(s: State, e: Event, c: nat, h: seq<Event>)
    requires Enabled(s, e) && Actor(e) == Some(c) && Fits(h, c, s.calls[c].id, s.calls[c].phase)
    requires OnTime(s.calls[c].phase, s.now)
    ensures Fits(h + [e], c, s.calls[c].id, PhaseAfter(s, e, c))
  {
    if PhaseAfter(s, e, c).Refused? {
      RefusalFits(s, e, c, h);
    } else if Entering(e) {
      EntryFits(s, e, c, h);
    } else {
      LateFits(s, e, c, h);
    }
  }

  lemma PollsSnoc(h: seq<Event>, e: Event)
    ensures Polls(h + [e]) == Polls(h) + if e.Hit? || e.Missed? then 1 else 0
  {
    assert (h + [e])[..|h|] == h;
  }

  lemma PollsStep(s: State, e: Event, c: nat, h: seq<Event>)
    requires Enabled(s, e) && Actor(e) == Some(c) && OnTime(s.calls[c].phase, s.now)
    requires PollsFit(s.calls[c].phase, Polls(h))
    ensures PollsFit(Apply(s, e).calls[c].phase, Polls(h + [e]))
  {
    PollsSnoc(h, e);
    if e.Missed? { assert Polls(h + [e]) == s.calls[c].phase.misses + 1; }
  }

  lemma ActorMoves(s: State, e: Event, c: nat)
    requires Enabled(s, e) && Actor(e) == Some(c) && CellOk(s) && OnTime(s.calls[c].phase, s.now)
    requires s.calls[c].phase.Initialising() <==> s.cell == Busy(c)
    requires s.calls[c].phase.PastCell() ==> s.cell.Ready?
    ensures var t := Apply(s, e);
            && OnTime(t.calls[c].phase, t.now)
            && (t.calls[c].phase.Initialising() <==> t.cell == Busy(c))
            && (t.calls[c].phase.PastCell() ==> t.cell.Ready?)
  {}

  lemma Assemble(t: State, c: nat, h: seq<Event>)
    requires c < |t.calls| && Fits(h, c, t.calls[c].id, t.calls[c].phase)
    requires OnTime(t.calls[c].phase, t.now) && PollsFit(t.calls[c].phase, Polls(h))
    requires t.calls[c].phase.Initialising() <==> t.cell == Busy(c)
    requires t.calls[c].phase.PastCell() ==> t.cell.Ready?
    ensures CallOk(t, c, h)
  {}

  lemma ActorOk(s: State, e: Event, c: nat, h: seq<Event>)
    requires Enabled(s, e) && Actor(e) == Some(c) && CellOk(s) && CallOk(s, c, h)
    ensures c < |Apply(s, e).calls| && CallOk(Apply(s, e), c, h + [e])
  {
    ActorFits(s, e, c, h);
    assert Apply(s, e).calls[c].id == s.calls[c].id;
    PollsStep(s, e, c, h);
    ActorMoves(s, e, c);
    Assemble(Apply(s, e), c, h + [e]);
  }

  lemma OthersFrame(s: State, e: Event, c: nat)
    requires Enabled(s, e) && Actor(e) != Some(c) && c < |s.calls|
    requires Actor(e).Some? ==>
               (s.calls[Actor(e).value].phase.Initialising() <==> s.cell == Busy(Actor(e).value))
    ensures var t := Apply(s, e);
            && c < |t.calls| && t.calls[c] == s.calls[c] && t.now >= s.now
            && (t.cell == Busy(c) <==> s.cell == Busy(c)) && (s.cell.Ready? ==> t.cell.Ready?)
  {}

  lemma OtherOk(s: State, e: Event, c: nat, h: seq<Event>)
    requires Enabled(s, e) && Actor(e) != Some(c) && c < |s.calls| && CallOk(s, c, h)
    requires Actor(e).Some? ==>
               (s.calls[Actor(e).value].phase.Initialising() <==> s.cell == Busy(Actor(e).value))
    ensures c < |Apply(s, e).calls| && CallOk(Apply(s, e), c, h)
  {
    OthersFrame(s, e, c);
  }

  lemma CellStep(s: State, e: Event)
    requires Enabled(s, e) && CellOk(s)
    requires Actor(e).Some? ==>
               (s.calls[Actor(e).value].phase.Initialising() <==> s.cell == Busy(Actor(e).value))
    requires e.ResponseStream? ==> ValidRequestStream(s.calls[e.c].phase.request)
    ensures CellOk(Apply(s, e))
  {}

  lemma ActorBusy(s: State, es: seq<Event>, e: Event)
    requires Inv(s, es) && Enabled(s, e)
    ensures Actor(e).Some? ==>
              (s.calls[Actor(e).value].phase.Initialising() <==> s.cell == Busy(Actor(e).value))
    ensures e.ResponseStream? ==> ValidRequestStream(s.calls[e.c].phase.request)
  {
    if Actor(e).Some? { assert CallOk(s, Actor(e).value, Story(es, Actor(e).value)); }
  }

  lemma CallMoves(s: State, e: Event, c: nat, h: seq<Event>)
    requires Enabled(s, e) && CellOk(s)
    requires Actor(e).Some? ==>
               (s.calls[Actor(e).value].phase.Initialising() <==> s.cell == Busy(Actor(e).value))
    requires c < |s.calls| && CallOk(s, c, h)
    ensures c < |Apply(s, e).calls|
    ensures CallOk(Apply(s, e), c, h + if Actor(e) == Some(c) then [e] else [])
  {
    if Actor(e) == Some(c) {
      ActorOk(s, e, c, h);
    } else {
      OtherOk(s, e, c, h);
      assert h + [] == h;
    }
  }

  lemma NewCallOk(s: State, e: Event)
    requires Enabled(s, e) && e.Begin? && CellOk(s)
    ensures CallOk(Apply(s, e), |s.calls|, [])
  {}

  lemma CallStep(s: State, es: seq<Event>, e: Event, c: nat, h: seq<Event>, h': seq<Event>)
    requires Inv(s, es) && Enabled(s, e) && c < |Apply(s, e).calls|
    requires h == Story(es, c) && h' == h + if Actor(e) == Some(c) then [e] else []
    ensures CallOk(Apply(s, e), c, h')
  {
    if c < |s.calls| {
      ActorBusy(s, es, e);
      assert CallOk(s, c, Story(es, c));
      CallMoves(s, e, c, h);
    } else {
      assert h' == [];
      NewCallOk(s, e);
    }
  }

  lemma IdsStep(s: State, e: Event)
    requires DistinctIds(s) && Enabled(s, e)
    ensures DistinctIds(Apply(s, e))
  {}

  lemma InvStep(s: State, es: seq<Event>, e: Event)
    requires Inv(s, es) && Enabled(s, e)
    ensures Inv(Apply(s, e), es + [e])
  {
    ActorBusy(s, es, e);
    CellStep(s, e);
    IdsStep(s, e);
    forall c | 0 <= c < |Apply(s, e).calls| ensures CallOk(Apply(s, e), c, Story(es + [e], c)) {
      StorySnoc(es, e, c);
      CallStep(s, es, e, c, Story(es, c), Story(es + [e], c));
    }
    forall c | |Apply(s, e).calls| <= c ensures Story(es + [e], c) == [] { StorySnoc(es, e, c); }
  }

  lemma {:induction false} Reachable(es: seq<Event>)
    requires Run(es)
    ensures Inv(After(es), es)
    decreases |es|
  {
    if es != [] {
      var init, e := es[..|es| - 1], es[|es| - 1];
      assert init + [e] == es;
      RunConcat(Init(), init, [e]);
      assert Enabled(After(init), e);
      Reachable(init);
      InvStep(After(init), init, e);
      RunSnoc(Init(), init, e);
    }
  }

  lemma EndedStays(s: State, e: Event, c: nat)
    requires Enabled(s, e) && c < |s.calls|
    requires var p := s.calls[c].phase; p.Replied? || p.TimedOut? || p.Refused? || p.Dropped?
    ensures c < |Apply(s, e).calls| && Apply(s, e).calls[c] == s.calls[c]
  {}

  // Whatever ended a call, a reply, a timeout, a refusal or a cancellation, is final.
  lemma {:induction false} EndedForGood(s: State, es: seq<Event>, c: nat)
    requires ValidRun(s, es) && c < |s.calls|
    requires var p := s.calls[c].phase; p.Replied? || p.TimedOut? || p.Refused? || p.Dropped?
    ensures c < |Exec(s, es).calls| && Exec(s, es).calls[c] == s.calls[c]
    decreases |es|
  {
    if es != [] {
      EndedStays(s, es[0], c);
      EndedForGood(Apply(s, es[0]), es[1..], c);
    }
  }

  // --- Guarantees -----------------------------------------------------------

  // A call gets a reply only after: a 202 that matches its id and subject; a transport
  // of which both streams were validated; one publication, acknowledged; at most 150
  // misses, each followed by a pause; and the hit. Nothing else, in this order.
  lemma ReplyNeedsTheWholeProtocol(es: seq<Event>, c: nat)
    requires Run(es) && c < |After(es).calls| && After(es).calls[c].phase.Replied?
    ensures exists n: nat :: n <= 150 && Polled(Story(es, c), c, After(es).calls[c].id, n, [Hit(c)])
    ensures var id := After(es).calls[c].id;
            Story(es, c) != []
            && Story(es, c)[0] == Registered(c, Answer(202, Ok(Some(Acceptance(
                                      "happy-wakey.async-operation.accepted.v1", UuidText(id), ResponseSubject(id))))))
    ensures After(es).cell.Ready?
            && ValidRequestStream(After(es).cell.request) && ValidResponseStream(After(es).cell.response)
  {
    Reachable(es);
    var id := After(es).calls[c].id;
    assert CallOk(After(es), c, Story(es, c));
    var n: nat :| n <= 150 && Polled(Story(es, c), c, id, n, [Hit(c)]);
    PolledIsAccepted(Story(es, c), c, id, n, [Hit(c)]);
  }

  lemma PolledIsAccepted(h: seq<Event>, c: nat, id: Uuid, n: nat, last: seq<Event>)
    requires Polled(h, c, id, n, last)
    ensures h != [] && h[0] == Registered(c, AcceptanceOf(id))
  {
    var pre :| Equipped(pre, c, id) && h == pre + [Published(c), Acked(c)] + Misses(c, n) + last;
    assert h[0] == pre[0] == pre[..1][0];
    AdmitExactly(pre[0].reply, id);
  }

  // Whatever retries, failures and cancellations preceded, nobody publishes or polls on
  // a transport whose streams were not both validated.
  lemma NoUnvalidatedTransport(es: seq<Event>, c: nat)
    requires Run(es) && c < |After(es).calls| && After(es).calls[c].phase.PastCell()
    ensures After(es).cell.Ready?
            && ValidRequestStream(After(es).cell.request) && ValidResponseStream(After(es).cell.response)
  {
    Reachable(es);
    assert CallOk(After(es), c, Story(es, c));
  }

  // A timeout means that at least 15 s passed since the acknowledgement and every poll missed.
  lemma TimeoutMeansEveryPollMissed(es: seq<Event>, c: nat)
    requires Run(es) && c < |After(es).calls| && After(es).calls[c].phase.TimedOut?
    ensures After(es).calls[c].phase.at >= After(es).calls[c].phase.started + ASYNC_TIMEOUT
    ensures exists n: nat :: n <= 150 && Polled(Story(es, c), c, After(es).calls[c].id, n, [Missed(c)])
  {
    Reachable(es);
    assert CallOk(After(es), c, Story(es, c));
  }

  // A refused call ended with the error of the answer to its registration, or, once admitted,
  // because the transport, the publication or its acknowledgement failed.
  lemma RefusalHasACause(es: seq<Event>, c: nat)
    requires Run(es) && c < |After(es).calls| && After(es).calls[c].phase.Refused?
    ensures RefusedBy(Story(es, c), c, After(es).calls[c].id, After(es).calls[c].phase.error)
  {
    Reachable(es);
    assert CallOk(After(es), c, Story(es, c));
  }

  // No run makes more than 151 polls for one call, whatever becomes of the call.
  lemma AtMost151Polls(es: seq<Event>, c: nat)
    requires Run(es) && c < |After(es).calls|
    ensures Polls(Story(es, c)) <= 151
  {
    Reachable(es);
    assert CallOk(After(es), c, Story(es, c));
  }

  // --- The bound is reached -------------------------------------------------

  const GOOD_REQUESTS: StreamInfo := StreamInfo(FileStorage, WorkQueue, [ASYNC_REQUEST_SUBJECT], false, 1)
  const GOOD_RESPONSES: StreamInfo := StreamInfo(FileStorage, Limits, [RESPONSE_WILDCARD], true, 1)

  // One call has missed n polls, at a pause of exactly 100 ms each.
  ghost predicate SlowRun(es: seq<Event>, id: Uuid, token: Bytes, n: nat) {
    Run(es) && After(es).calls == [Call(id, token, Polling(0, n))] && After(es).now == 100 * n
  }

  lemma Extend(es: seq<Event>, e: Event)
    requires Run(es) && Enabled(After(es), e)
    ensures Run(es + [e]) && After(es + [e]) == Apply(After(es), e)
  {
    RunSnoc(Init(), es, e);
  }

  lemma SlowEntry(id: Uuid, token: Bytes) returns (es: seq<Event>)
    ensures Run(es) && After(es).calls == [Call(id, token, CheckingRequests)] && After(es).now == 0
  {
    var reply := Answer(202, Ok(Some(Acceptance(ASYNC_ACCEPTED_SCHEMA, UuidText(id), ResponseSubject(id)))));
    var e0: seq<Event> := [];
    var e1 := e0 + [Begin(id, token)];
    Extend(e0, Begin(id, token));
    var e2 := e1 + [Registered(0, reply)];
    Extend(e1, Registered(0, reply));
    es := e2 + [Claim(0)];
    Extend(e2, Claim(0));
  }

  lemma SlowStart(id: Uuid, token: Bytes) returns (es: seq<Event>)
    ensures SlowRun(es, id, token, 0)
  {
    var e3 := SlowEntry(id, token);
    var e4 := e3 + [RequestStream(0, GOOD_REQUESTS)];
    Extend(e3, RequestStream(0, GOOD_REQUESTS));
    var e5 := e4 + [ResponseStream(0, GOOD_RESPONSES)];
    Extend(e4, ResponseStream(0, GOOD_RESPONSES));
    var e6 := e5 + [Published(0)];
    Extend(e5, Published(0));
    es := e6 + [Acked(0)];
    Extend(e6, Acked(0));
  }

  lemma SlowStep(es: seq<Event>, id: Uuid, token: Bytes, n: nat) returns (more: seq<Event>)
    requires n < 150 && SlowRun(es, id, token, n)
    ensures SlowRun(more, id, token, n + 1)
  {
    var a := es + [Missed(0)];
    Extend(es, Missed(0));
    var b := a + [Tick(100)];
    Extend(a, Tick(100));
    more := b + [Woke(0)];
    Extend(b, Woke(0));
  }

  lemma {:induction false} SlowPolls(id: Uuid, token: Bytes, n: nat) returns (es: seq<Event>)
    requires n <= 150
    ensures SlowRun(es, id, token, n)
    decreases n
  {
    if n == 0 {
      es := SlowStart(id, token);
    } else {
      es := SlowPolls(id, token, n - 1);
      es := SlowStep(es, id, token, n - 1);
    }
  }

  // 151 polls do happen: the bound is exact.
  lemma PollBoundIsReached(id: Uuid, token: Bytes) returns (es: seq<Event>)
    ensures Run(es) && |After(es).calls| == 1 && After(es).calls[0].phase.TimedOut?
    ensures Polls(Story(es, 0)) == 151
  {
    var slow := SlowPolls(id, token, 150);
    Reachable(slow);
    assert CallOk(After(slow), 0, Story(slow, 0));
    Extend(slow, Missed(0));
    es := slow + [Missed(0)];
    StorySnoc(slow, Missed(0), 0);
    PollsSnoc(Story(slow, 0), Missed(0));
  }

  // Replies do come: after any number of misses up to 150, a reply that the worker stores is
  // fetched by the next poll.
  lemma ReplyIsReached(id: Uuid, token: Bytes, n: nat, payload: Bytes) returns (es: seq<Event>)
    requires n <= 150
    ensures Run(es) && After(es).calls == [Call(id, token, Replied(payload))]
    ensures Polls(Story(es, 0)) == n + 1
  {
    var slow := SlowPolls(id, token, n);
    SlowRunPolls(slow, id, token, n);
    var stored := slow + [Stored(ResponseSubject(id), payload)];
    Extend(slow, Stored(ResponseSubject(id), payload));
    StorySnoc(slow, Stored(ResponseSubject(id), payload), 0);
    assert Story(slow, 0) + [] == Story(slow, 0);
    Extend(stored, Hit(0));
    es := stored + [Hit(0)];
    StorySnoc(stored, Hit(0), 0);
    PollsSnoc(Story(slow, 0), Hit(0));
  }

  lemma SlowRunPolls(es: seq<Event>, id: Uuid, token: Bytes, n: nat)
    requires SlowRun(es, id, token, n)
    ensures Polls(Story(es, 0)) == n
  {
    Reachable(es);
    assert CallOk(After(es), 0, Story(es, 0));
  }

  // A stream that passes validation stores every call's reply subject.
  lemma ValidatedStreamCoversReplies(info: StreamInfo, id: Uuid)
    requires ValidResponseStream(info)
    ensures exists i :: 0 <= i < |info.subjects| && Covers(info.subjects[i], ResponseSubject(id))
  {
    var i :| 0 <= i < |info.subjects| && info.subjects[i] == RESPONSE_WILDCARD;
    ResponseSubjectIsCovered(id);
  }
}
