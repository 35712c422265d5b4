/** Bounds on every run of the shared channel: lock grants, connects, exchanges and steps. */
module TlsTermination {
  import opened Wrappers
  import opened Framing
  import opened TlsMachine

  function Total(f: Call -> nat, ks: seq<Call>): nat {
    if ks == [] then 0 else f(ks[0]) + Total(f, ks[1..])
  }

  lemma {:induction false} TotalUpdate(f: Call -> nat, ks: seq<Call>, i: nat, k: Call)
    requires i < |ks|
    ensures Total(f, ks[i := k]) == Total(f, ks) - f(ks[i]) + f(k)
  {
    if i == 0 {
      assert ks[0 := k][1..] == ks[1..];
    } else {
      assert ks[i := k][1..] == ks[1..][i - 1 := k];
      TotalUpdate(f, ks[1..], i - 1, k);
    }
  }

  lemma {:induction false} TotalAppend(f: Call -> nat, ks: seq<Call>, k: Call)
    ensures Total(f, ks + [k]) == Total(f, ks) + f(k)
  {
    if ks == [] {
      assert [k][1..] == [];
    } else {
      assert (ks + [k])[1..] == ks[1..] + [k];
      TotalAppend(f, ks[1..], k);
    }
  }

  lemma {:induction false} TotalAtMost(f: Call -> nat, ks: seq<Call>, bound: nat)
    requires forall i :: 0 <= i < |ks| ==> f(ks[i]) <= bound
    ensures Total(f, ks) <= bound * |ks|
  {
    if ks != [] { TotalAtMost(f, ks[1..], bound); }
  }

  lemma {:induction false} TotalMonotone(f: Call -> nat, h: Call -> nat, ks: seq<Call>)
    requires forall i :: 0 <= i < |ks| ==> f(ks[i]) <= h(ks[i])
    ensures Total(f, ks) <= Total(h, ks)
  {
    if ks != [] { TotalMonotone(f, h, ks[1..]); }
  }

  // The change of a total over one event, for any per-call quantity.
  lemma TotalStep(f: Call -> nat, s: State, e: Event)
    requires Enabled(s, e)
    ensures var t := Apply(s, e);
            match Actor(e)
            case Some(c) => c < |s.calls| == |t.calls|
                            && Total(f, t.calls) == Total(f, s.calls) - f(s.calls[c]) + f(t.calls[c])
            case None => Total(f, t.calls) == Total(f, s.calls)
                                              + if e.Start? then f(Call(e.payload, Waiting(0), 0, [])) else 0
  {
    var t := Apply(s, e);
    match Actor(e)
    case Some(c) =>
      assert t.calls == s.calls[c := t.calls[c]];
      TotalUpdate(f, s.calls, c, t.calls[c]);
    case None =>
      if e.Start? { TotalAppend(f, s.calls, Call(e.payload, Waiting(0), 0, [])); }
  }

  // --- Counting events of a run ---------------------------------------------

  function Count(p: Event -> bool, es: seq<Event>): nat {
    if es == [] then 0 else (if p(es[0]) then 1 else 0) + Count(p, es[1..])
  }

  function IsStart(e: Event): bool { e.Start? }
  function IsGrant(e: Event): bool { e.Grant? }
  function IsConnected(e: Event): bool { e.Connected? }
  function IsClient(e: Event): bool { !e.Start? && !e.Answered? }

  function GrantsOf(k: Call): nat { k.grants }
  function UsesOf(k: Call): nat { |k.used| }

  lemma CountsStep(s: State, e: Event)
    requires Enabled(s, e)
    ensures var t := Apply(s, e);
            && |t.calls| == |s.calls| + (if IsStart(e) then 1 else 0)
            && |t.conns| == |s.conns| + (if IsConnected(e) then 1 else 0)
            && Total(GrantsOf, t.calls) == Total(GrantsOf, s.calls) + (if IsGrant(e) then 1 else 0)
            && Total(UsesOf, t.calls) >= Total(UsesOf, s.calls) + (if IsConnected(e) then 1 else 0)
  {
    TotalStep(GrantsOf, s, e);
    TotalStep(UsesOf, s, e);
  }

  lemma {:induction false} CountsAddUp(s: State, es: seq<Event>)
    requires ValidRun(s, es)
    ensures var t := Exec(s, es);
            && |t.calls| == |s.calls| + Count(IsStart, es)
            && |t.conns| == |s.conns| + Count(IsConnected, es)
            && Total(GrantsOf, t.calls) == Total(GrantsOf, s.calls) + Count(IsGrant, es)
            && Total(UsesOf, t.calls) >= Total(UsesOf, s.calls) + Count(IsConnected, es)
    decreases |es|
  {
    if es != [] {
      CountsStep(s, es[0]);
      CountsAddUp(Apply(s, es[0]), es[1..]);
    }
  }

  // n calls make at most 2n exchanges, on at most as many connections, under at most
  // 2n lock grants, however their attempts interleave.
  lemma AtMostTwoOfEach(es: seq<Event>)
    requires Run(es)
    ensures Count(IsConnected, es) <= Total(UsesOf, After(es).calls) <= Count(IsGrant, es) <= 2 * Count(IsStart, es)
    ensures |After(es).calls| == Count(IsStart, es)
  {
    CountsAddUp(Init(), es);
    Reachable(es);
    var s := After(es);
    forall i | 0 <= i < |s.calls| ensures UsesOf(s.calls[i]) <= GrantsOf(s.calls[i]) <= 2 {
      assert CallOk(s, s.calls[i], s.holder == Some(i));
    }
    TotalMonotone(UsesOf, GrantsOf, s.calls);
    TotalAtMost(GrantsOf, s.calls, 2);
  }

  // --- A rank that every step of a call lowers ------------------------------

  const LARGEST_FRAME: nat := 4 + MAX_REQUEST_BYTES
  const LARGEST_REPLY: nat := 4 + MAX_RESPONSE_BYTES
  const ATTEMPT_STEPS: nat := 954_380  // LARGEST_FRAME + LARGEST_REPLY + 4

  function Later(attempt: nat): nat { if attempt == 0 then ATTEMPT_STEPS else 0 }

  function Rank(k: Call): nat {
    match k.phase
    case Waiting(a) => Later(a) + ATTEMPT_STEPS
    case Connecting(a) => Later(a) + LARGEST_FRAME + LARGEST_REPLY + 3
    case Writing(a, w) =>
      Later(a) + (if w <= LARGEST_FRAME then LARGEST_FRAME - w else 0) + LARGEST_REPLY + 2
    case Reading(a, got) =>
      Later(a) + (if |got| <= LARGEST_REPLY then LARGEST_REPLY - |got| else 0) + 1
    case Done(_) => 0
    case Dropped => 0
  }

  lemma StepLowersRank(s: State, e: Event, c: nat)
    requires Inv(s) && Enabled(s, e) && Actor(e) == Some(c)
    ensures c < |s.calls| && Rank(Apply(s, e).calls[c]) < Rank(s.calls[c])
  {
    assert CallOk(s, s.calls[c], s.holder == Some(c));
    InvActor(s, e, c);
  }

  // The steps that the calls of a state may still make, and those of n new calls.
  function Potential(s: State): nat { Total(Rank, s.calls) }

  function Budget(n: nat): nat { 1_908_760 * n }

  lemma PotentialStep(s: State, e: Event)
    requires Inv(s) && Enabled(s, e)
    ensures (if IsClient(e) then 1 else 0) + Potential(Apply(s, e))
            <= Potential(s) + Budget(if IsStart(e) then 1 else 0)
  {
    TotalStep(Rank, s, e);
    if Actor(e).Some? { StepLowersRank(s, e, Actor(e).value); }
  }

  lemma {:induction false} ClientStepsBounded(s: State, es: seq<Event>)
    requires Inv(s) && ValidRun(s, es)
    ensures Count(IsClient, es) + Potential(Exec(s, es)) <= Potential(s) + Budget(Count(IsStart, es))
    decreases |es|
  {
    if es != [] {
      var e, rest, t := es[0], es[1..], Apply(s, es[0]);
      PotentialStep(s, e);
      InvStep(s, e);
      ClientStepsBounded(t, rest);
      assert Count(IsClient, es) == (if IsClient(e) then 1 else 0) + Count(IsClient, rest);
      assert Count(IsStart, es) == (if IsStart(e) then 1 else 0) + Count(IsStart, rest);
    }
  }

  // Every run of n calls makes at most 2n(F + R + 4) steps of calls, where F and R
  // are the longest frames either way; so no call can step forever.
  lemma EveryRunEnds(es: seq<Event>)
    requires Run(es)
    ensures Count(IsClient, es) <= 2 * (LARGEST_FRAME + LARGEST_REPLY + 4) * Count(IsStart, es)
  {
    ClientStepsBounded(Init(), es);
  }

  // The step that an unfinished holder can always take without its peer: a refused
  // connection, an I/O timeout, or the end of a complete exchange.
  function Release(s: State, c: nat): Event
    requires c < |s.calls|
  {
    match s.calls[c].phase
    case Connecting(_) => ConnectFailed(c)
    case Reading(_, got) => if Complete(got) then Finished(c) else Failed(c)
    case _ => Failed(c)
  }

  lemma ReleaseEnabled(s: State, c: nat)
    requires Inv(s) && s.holder == Some(c)
    ensures c < |s.calls| && Enabled(s, Release(s, c)) && Apply(s, Release(s, c)).holder == None
  {
    assert CallOk(s, s.calls[c], s.holder == Some(c));
  }

  // Some call can take a step that is not a cancellation.
  ghost predicate CanStep(s: State) { exists e :: Enabled(s, e) && IsClient(e) && !e.Cancelled? }

  // No deadlock: while some call is unfinished, some call can take a step.
  lemma NeverStuck(es: seq<Event>, i: nat)
    requires Run(es) && i < |After(es).calls| && !After(es).calls[i].phase.Ended()
    ensures CanStep(After(es))
  {
    Reachable(es);
    var s := After(es);
    assert CallOk(s, s.calls[i], s.holder == Some(i));
    if s.holder.Some? {
      ReleaseEnabled(s, s.holder.value);
      assert Enabled(s, Release(s, s.holder.value));
    } else {
      assert Enabled(s, Grant(i));
    }
  }

  // --- Fair runs ------------------------------------------------------------

  // What happens at each moment of a run that may go on forever: an event, or nothing.
  type Schedule = nat -> Option<Event>

  // The events before moment k.
  function Prefix(r: Schedule, k: nat): seq<Event> {
    if k == 0 then [] else Prefix(r, k - 1) + match r(k - 1) case None => [] case Some(e) => [e]
  }

  predicate ClientSteps(r: Schedule, j: nat) { r(j).Some? && IsClient(r(j).value) }

  // Whenever some call can take a step, some call takes one sooner or later.
  ghost predicate Fair(r: Schedule) {
    forall k: nat :: Active(r, k) ==> exists j: nat :: k <= j && ClientSteps(r, j)
  }

  ghost predicate Active(r: Schedule, k: nat) { Run(Prefix(r, k)) && CanStep(After(Prefix(r, k))) }

  // Every prefix is a run, and n calls are started in all.
  ghost predicate RunOf(r: Schedule, n: nat) { forall k: nat :: Possible(r, n, k) }

  ghost predicate Possible(r: Schedule, n: nat, k: nat) {
    Run(Prefix(r, k)) && Count(IsStart, Prefix(r, k)) <= n
  }

  ghost predicate Present(r: Schedule, k: nat, c: nat) { Run(Prefix(r, k)) && c < |After(Prefix(r, k)).calls| }

  ghost predicate Over(r: Schedule, k: nat, c: nat) {
    Present(r, k, c) && After(Prefix(r, k)).calls[c].phase.Ended()
  }

  // Call c is over at moment k and as it was at moment `end`.
  ghost predicate OverSince(r: Schedule, end: nat, k: nat, c: nat) {
    Over(r, end, c) && Over(r, k, c)
    && After(Prefix(r, k)).calls[c].phase == After(Prefix(r, end)).calls[c].phase
  }

  function ClientCount(r: Schedule, k: nat): nat { Count(IsClient, Prefix(r, k)) }

  lemma {:induction false} CountSnoc(p: Event -> bool, es: seq<Event>, e: Event)
    ensures Count(p, es + [e]) == Count(p, es) + if p(e) then 1 else 0
  {
    if es == [] {
      assert [e][1..] == [];
    } else {
      assert (es + [e])[1..] == es[1..] + [e];
      CountSnoc(p, es[1..], e);
    }
  }

  // From one moment to the next, no call is lost and an ended call stays as it is.
  lemma NextMoment(r: Schedule, n: nat, k: nat, c: nat)
    requires RunOf(r, n) && Present(r, k, c)
    ensures Present(r, k + 1, c) && (Over(r, k, c) ==> OverSince(r, k, k + 1, c))
    ensures ClientCount(r, k + 1) == ClientCount(r, k) + if ClientSteps(r, k) then 1 else 0
  {
    var es := Prefix(r, k);
    assert Possible(r, n, k + 1);
    match r(k)
    case None => assert Prefix(r, k + 1) == es;
    case Some(e) =>
      assert Prefix(r, k + 1) == es + [e];
      CountSnoc(IsClient, es, e);
      RunConcat(Init(), es, [e]);
      RunSnoc(Init(), es, e);
  }

  lemma {:induction false} LaterMoments(r: Schedule, n: nat, k: nat, j: nat, c: nat)
    requires RunOf(r, n) && Present(r, k, c) && k <= j
    ensures Present(r, j, c) && (Over(r, k, c) ==> OverSince(r, k, j, c)) && ClientCount(r, j) >= ClientCount(r, k)
    decreases j
  {
    if k < j {
      LaterMoments(r, n, k, j - 1, c);
      NextMoment(r, n, j - 1, c);
    }
  }

  lemma BoundedCount(r: Schedule, n: nat, k: nat)
    requires RunOf(r, n)
    ensures ClientCount(r, k) <= Budget(n)
  {
    assert Possible(r, n, k);
    EveryRunEnds(Prefix(r, k));
  }

  // While call c is unfinished, some call takes another of its boundedly many steps.
  lemma StepsSoon(r: Schedule, n: nat, k: nat, c: nat) returns (later: nat)
    requires RunOf(r, n) && Fair(r) && Present(r, k, c) && !Over(r, k, c)
    ensures k < later && Present(r, later, c) && ClientCount(r, k) < ClientCount(r, later)
  {
    NeverStuck(Prefix(r, k), c);
    assert Active(r, k);
    var j: nat :| k <= j && ClientSteps(r, j);
    LaterMoments(r, n, k, j, c);
    NextMoment(r, n, j, c);
    later := j + 1;
  }

  // Every call ends in every fair run, and for good: n calls have boundedly many steps to
  // take, and while one of them is unfinished, some call can take a step.
  lemma {:induction false} FairEnds(r: Schedule, n: nat, k: nat, c: nat) returns (end: nat)
    requires RunOf(r, n) && Fair(r) && Present(r, k, c)
    ensures k <= end && forall j: nat :: end <= j ==> OverSince(r, end, j, c)
    decreases Budget(n) - ClientCount(r, k)
  {
    if Over(r, k, c) {
      end := k;
      forall j: nat | k <= j ensures OverSince(r, k, j, c) { LaterMoments(r, n, k, j, c); }
    } else {
      var later := StepsSoon(r, n, k, c);
      BoundedCount(r, n, later);
      end := FairEnds(r, n, later, c);
    }
  }

  // --- Retries --------------------------------------------------------------

  // The two attempts of one call never share a connection, and there is no third.
  lemma AttemptsUseFreshConnections(es: seq<Event>, c: nat)
    requires Run(es) && c < |After(es).calls|
    ensures var used := After(es).calls[c].used;
            |used| <= 2 && (|used| == 2 ==> used[0] < used[1] < |After(es).conns|)
  {
    Reachable(es);
    assert CallOk(After(es), After(es).calls[c], After(es).holder == Some(c));
  }

  // The calls' side of a connection: what was written, read and completed on it.
  predicate SameUse(a: Conn, b: Conn) { a.sent == b.sent && a.taken == b.taken && a.log == b.log }

  lemma RetiredStep(s: State, e: Event, g: nat)
    requires Enabled(s, e) && g < |s.conns| && s.slot != Some(g)
    ensures var t := Apply(s, e);
            g < |t.conns| && t.slot != Some(g) && SameUse(t.conns[g], s.conns[g])
  {}

  // A connection that has left the slot never returns to it and is never read or
  // written again; only its peer may still act on it.
  lemma {:induction false} RetiredForGood(s: State, es: seq<Event>, g: nat)
    requires ValidRun(s, es) && g < |s.conns| && s.slot != Some(g)
    ensures var t := Exec(s, es);
            g < |t.conns| && t.slot != Some(g) && SameUse(t.conns[g], s.conns[g])
    decreases |es|
  {
    if es != [] {
      RetiredStep(s, es[0], g);
      RetiredForGood(Apply(s, es[0]), es[1..], g);
    }
  }

  // A failed exchange: the lock is free and the slot empty in one step, and whatever
  // the peer still answers on that connection is read by nobody.
  lemma FailureRetiresTheConnection(es: seq<Event>, c: nat, later: seq<Event>)
    requires Run(es) && Enabled(After(es), Failed(c)) && ValidRun(Apply(After(es), Failed(c)), later)
    ensures var (s, t) := (After(es), Exec(Apply(After(es), Failed(c)), later));
            && s.slot.Some? && s.slot.value < |s.conns| <= |t.conns|
            && Apply(s, Failed(c)).slot == None && Apply(s, Failed(c)).holder == None
            && t.slot != s.slot
            && SameUse(t.conns[s.slot.value], s.conns[s.slot.value])
  {
    Reachable(es);
    var s := After(es);
    assert CallOk(s, s.calls[c], s.holder == Some(c));
    RetiredForGood(Apply(s, Failed(c)), later, s.slot.value);
    CountsAddUp(Apply(s, Failed(c)), later);
  }
}
