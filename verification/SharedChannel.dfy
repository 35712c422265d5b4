/**
 The runtime's shared channel as it is written: a lock, a slot, and a call that makes two
 attempts. Every method runs among arbitrary steps of other calls, of cancellations of
 other calls and of the peers; every state it passes through is one of TlsMachine.
 */
module SharedChannel {
  import opened Wrappers
  import opened Framing
  import opened Service
  import opened TlsMachine
  import opened TlsTermination

  // No step of call c.
  predicate Leaves(es: seq<Event>, c: nat) { forall i :: 0 <= i < |es| ==> Actor(es[i]) != Some(c) }

  // How one attempt went: the connection was refused; the transport broke, by an error, a
  // timeout or the end of the stream; the header announced this many bytes, too many; or
  // the reply was read.
  datatype Try = ConnectionRefused | Broken | TooLong(announced: nat) | Whole(reply: Payload)

  predicate Failing(t: Try) { t.Broken? || (t.TooLong? && t.announced > 921_600) }

  // The attempts of one call: a second one after a failing exchange only, and no third.
  predicate Attempts(tries: seq<Try>) {
    (|tries| == 1 && (tries[0].ConnectionRefused? || tries[0].Whole?))
    || (|tries| == 2 && Failing(tries[0]) && (tries[1].TooLong? ==> Failing(tries[1])))
  }

  // The header that was read announces more than 900 KiB.
  predicate AnnouncesTooMuch(p: Phase) { p.Reading? && |p.got| >= 4 && FromBe32(p.got[..4]) > 921_600 }

  function OutcomeOf(t: Try): Outcome { match t case Whole(reply) => Reply(reply) case _ => Unavailable }

  // Both attempts failed, each on a connection of its own.
  predicate BothFailed(tries: seq<Try>) { |tries| == 2 && Failing(tries[0]) && Failing(tries[1]) }

  // While call c is suspended, others change neither the call nor, if it holds the lock,
  // the lock, the slot or what was written to and read from its connection.
  ghost predicate Undisturbed(s: State, t: State, c: nat) {
    && c < |s.calls| <= |t.calls| && t.calls[c] == s.calls[c]
    && (s.holder == Some(c) ==> t.holder == Some(c) && t.slot == s.slot)
    && (s.holder == Some(c) && s.slot.Some? && s.slot.value < |s.conns| ==>
          s.slot.value < |t.conns| && SameUse(t.conns[s.slot.value], s.conns[s.slot.value]))
  }

  lemma UndisturbedStep(s: State, e: Event, c: nat)
    requires Inv(s) && Enabled(s, e) && Actor(e) != Some(c) && c < |s.calls|
    ensures Undisturbed(s, Apply(s, e), c)
  {
    OthersKeepHolder(s, e, c);
    SlotMoves(s, e);
    if Actor(e).Some? {
      var d := Actor(e).value;
      assert CallOk(s, s.calls[d], s.holder == Some(d));
    }
  }

  lemma {:induction false} UndisturbedRun(s: State, es: seq<Event>, c: nat)
    requires Inv(s) && ValidRun(s, es) && Leaves(es, c) && c < |s.calls|
    ensures Undisturbed(s, Exec(s, es), c)
    decreases |es|
  {
    if es != [] {
      UndisturbedStep(s, es[0], c);
      InvStep(s, es[0]);
      UndisturbedRun(Apply(s, es[0]), es[1..], c);
    }
  }

  class Channel {
    var calls: seq<Call>
    var holder: Option<nat>
    var slot: Option<nat>
    var conns: seq<Conn>
    // The address, the server name and the certificate file to connect with.
    const arguments: Result<(string, string, string), WebError>
    ghost var trace: seq<Event>

    function Now(): State
      reads this
    {
      State(calls, holder, slot, conns)
    }

    // The present state is where the run so far leads.
    ghost predicate Valid()
      reads this
    {
      Run(trace) && After(trace) == Now()
    }

    constructor (arguments: Result<(string, string, string), WebError>)
      ensures Valid() && trace == [] && this.arguments == arguments
    {
      this.arguments := arguments;
      calls, holder, slot, conns := [], None, None, [];
      trace := [];
    }

    ghost method Record(before: State, e: Event)
      requires Run(trace) && After(trace) == before && Enabled(before, e) && Now() == Apply(before, e)
      modifies this`trace
      ensures Valid() && trace == old(trace) + [e]
    {
      RunSnoc(Init(), trace, e);
      trace := trace + [e];
    }

    // Others take the steps `es`.
    method Environment(es: seq<Event>, c: nat)
      requires Valid() && ValidRun(Now(), es) && Leaves(es, c) && c < |calls|
      modifies this
      ensures Valid() && trace == old(trace) + es
      ensures Now() == Exec(old(Now()), es) && Undisturbed(old(Now()), Now(), c)
    {
      ghost var before := Now();
      var State(calls', holder', slot', conns') := Exec(Now(), es);
      Reachable(trace);
      UndisturbedRun(before, es, c);
      RunConcat(Init(), trace, es);
      calls, holder, slot, conns := calls', holder', slot', conns';
      trace := trace + es;
    }

    // An await of call c: any valid run of the others, possibly none.
    method Interfere(c: nat)
      requires Valid() && c < |calls|
      modifies this
      ensures Valid() && Undisturbed(old(Now()), Now(), c)
      ensures old(trace) <= trace && Leaves(trace[|old(trace)|..], c)
    {
      var es: seq<Event> := *;
      if !(ValidRun(Now(), es) && Leaves(es, c)) { es := []; }
      Environment(es, c);
      assert trace[|old(trace)|..] == es;
    }

    // One I/O step of call c, which the transport may break.
    method AwaitIo(c: nat) returns (breaks: bool)
      requires Valid() && c < |calls|
      modifies this
      ensures Valid() && Undisturbed(old(Now()), Now(), c)
      ensures old(trace) <= trace && Leaves(trace[|old(trace)|..], c)
    {
      Interfere(c);
      breaks := *;
    }

    // Waits until the lock is free. It can always become free: at worst the I/O of the
    // holder times out.
    method AwaitUnlocked(c: nat)
      requires Valid() && c < |calls| && holder != Some(c)
      modifies this
      ensures Valid() && Undisturbed(old(Now()), Now(), c) && holder == None
      ensures old(trace) <= trace && Leaves(trace[|old(trace)|..], c)
    {
      var es: seq<Event> := *;
      if !(ValidRun(Now(), es) && Leaves(es, c) && Exec(Now(), es).holder == None) {
        es := [];
        if holder.Some? {
          Reachable(trace);
          ReleaseEnabled(Now(), holder.value);
          es := [Release(Now(), holder.value)];
          RunSnoc(Now(), [], es[0]);
        }
      }
      Environment(es, c);
      assert trace[|old(trace)|..] == es;
    }

    // Waits for the lock and takes it; the slot decides whether the call connects or writes.
    method Lock(c: nat)
      requires Valid() && c < |calls| && calls[c].phase.Waiting?
      modifies this
      ensures Valid() && old(trace) <= trace && c < |calls| && holder == Some(c)
      ensures calls[c].payload == old(calls[c].payload)
      ensures calls[c].phase == (if slot.Some? then Writing(old(calls[c].phase.attempt), 0)
                                 else Connecting(old(calls[c].phase.attempt)))
    {
      Reachable(trace);
      assert CallOk(Now(), calls[c], holder == Some(c));
      AwaitUnlocked(c);
      ghost var before := Now();
      var k := calls[c];
      var a := k.phase.attempt;
      holder := Some(c);
      calls := calls[c := if slot.Some?
                          then k.(phase := Writing(a, 0), grants := k.grants + 1, used := k.used + [slot.value])
                          else k.(phase := Connecting(a), grants := k.grants + 1)];
      Record(before, Grant(c));
    }

    // Connects and fills the slot, or ends the call; no option it needs can be missing.
    method Connect(c: nat) returns (ok: bool, ghost refused: bool)
      requires Valid() && arguments.Ok? && c < |calls| && calls[c].phase.Connecting?
      modifies this
      ensures Valid() && old(trace) < trace && c < |calls| && calls[c].payload == old(calls[c].payload)
      ensures ok ==> calls[c].phase == Writing(old(calls[c].phase.attempt), 0) && holder == Some(c) && slot.Some?
      ensures !ok ==> calls[c].phase == Done(Unavailable) && trace != [] && trace[|trace| - 1] == ConnectFailed(c)
      ensures !ok ==> |calls[c].used| <= 1
      ensures ok <==> !refused
    {
      if arguments.Err? { assert false; return false, true; }
      var breaks := AwaitIo(c);
      refused := breaks;
      Reachable(trace);
      assert CallOk(Now(), calls[c], holder == Some(c));
      ghost var before := Now();
      var k := calls[c];
      if !breaks {
        calls := calls[c := k.(phase := Writing(k.phase.attempt, 0), used := k.used + [|conns|])];
        slot := Some(|conns|);
        conns := conns + [NewConn()];
        Record(before, Connected(c));
        ok := true;
      } else {
        calls := calls[c := k.(phase := Done(Unavailable))];
        holder := None;
        Record(before, ConnectFailed(c));
        ok := false;
      }
    }

    // write_all: the transport takes any part at a time, or fails.
    method WriteAll(c: nat, upto: nat) returns (ok: bool, ghost broken: bool)
      requires Valid() && c < |calls| && calls[c].phase.Writing?
      requires calls[c].phase.written <= upto <= |Frame(calls[c].payload)|
      modifies this
      ensures Valid() && old(trace) <= trace && c < |calls| && calls[c].payload == old(calls[c].payload)
      ensures calls[c].phase.Writing? && calls[c].phase.attempt == old(calls[c].phase.attempt)
      ensures ok ==> calls[c].phase.written == upto
      ensures ok <==> !broken
    {
      broken := false;
      while calls[c].phase.written < upto
        invariant Valid() && old(trace) <= trace && c < |calls| && calls[c].payload == old(calls[c].payload)
        invariant calls[c].phase.Writing? && calls[c].phase.attempt == old(calls[c].phase.attempt)
        invariant calls[c].phase.written <= upto && !broken
        decreases upto - calls[c].phase.written
      {
        var breaks := AwaitIo(c);
        broken := breaks;
        if breaks { return false, broken; }
        Reachable(trace);
        assert CallOk(Now(), calls[c], holder == Some(c));
        ghost var before := Now();
        var k, g := calls[c], slot.value;
        var w := k.phase.written;
        var n :| 1 <= n <= upto - w;
        calls := calls[c := k.(phase := k.phase.(written := w + n))];
        conns := conns[g := conns[g].(sent := conns[g].sent + Frame(k.payload)[w..w + n])];
        Record(before, Wrote(c, n));
      }
      ok := true;
    }

    method Flush(c: nat) returns (ok: bool, ghost broken: bool)
      requires Valid() && c < |calls| && calls[c].phase.Writing?
      requires calls[c].phase.written == |Frame(calls[c].payload)|
      modifies this
      ensures Valid() && old(trace) <= trace && c < |calls| && calls[c].payload == old(calls[c].payload)
      ensures !ok ==> calls[c].phase == old(calls[c].phase)
      ensures ok ==> calls[c].phase == Reading(old(calls[c].phase.attempt), [])
      ensures ok <==> !broken
    {
      var breaks := AwaitIo(c);
      broken := breaks;
      if breaks { return false, broken; }
      Reachable(trace);
      assert CallOk(Now(), calls[c], holder == Some(c));
      ghost var before := Now();
      calls := calls[c := calls[c].(phase := Reading(calls[c].phase.attempt, []))];
      Record(before, Flushed(c));
      ok := true;
    }

    // One read: any part of what the peer has sent, up to `want` bytes in all, or a
    // failure: a timeout, an error or the end of the stream.
    method ReadSome(c: nat, want: nat) returns (ok: bool, ghost broken: bool)
      requires Valid() && c < |calls| && calls[c].phase.Reading?
      requires |calls[c].phase.got| < want == |calls[c].phase.got| + Lacking(calls[c].phase.got)
      modifies this
      ensures Valid() && old(trace) <= trace && c < |calls| && calls[c].payload == old(calls[c].payload)
      ensures calls[c].phase.Reading? && calls[c].phase.attempt == old(calls[c].phase.attempt)
      ensures |calls[c].phase.got| <= want && old(calls[c].phase.got) <= calls[c].phase.got
      ensures ok ==> |old(calls[c].phase.got)| < |calls[c].phase.got|
      ensures ok ==> |calls[c].phase.got| == want || |calls[c].phase.got| + Lacking(calls[c].phase.got) == want
      ensures !ok ==> |calls[c].phase.got| < want
      ensures ok <==> !broken
    {
      var breaks := AwaitIo(c);
      Reachable(trace);
      assert CallOk(Now(), calls[c], holder == Some(c));
      var got, conn := calls[c].phase.got, conns[slot.value];
      // A stream on which nothing more arrives breaks by its timeout.
      breaks := breaks || conn.taken == |conn.inbound|;
      broken := breaks;
      if breaks { return false, broken; }
      var n :| 1 <= n <= want - |got| && conn.taken + n <= |conn.inbound| by {
        assert 1 <= 1 <= want - |got| && conn.taken + 1 <= |conn.inbound|;
      }
      LackingShrinks(got, conn.inbound[conn.taken..conn.taken + n]);
      Take(c, n);
      ok := true;
    }

    // The next n bytes go from the connection to the call.
    method Take(c: nat, n: nat)
      requires Valid() && Enabled(Now(), Received(c, n))
      modifies this
      ensures Valid() && trace == old(trace) + [Received(c, n)]
      ensures c < |calls| && calls[c].payload == old(calls[c].payload)
      ensures calls[c].phase.Reading? && calls[c].phase.attempt == old(calls[c].phase.attempt)
      ensures calls[c].phase.got == old(var conn := conns[slot.value];
                                        calls[c].phase.got + conn.inbound[conn.taken..conn.taken + n])
    {
      ghost var before := Now();
      var k, g := calls[c], slot.value;
      var conn := conns[g];
      calls := calls[c := k.(phase := k.phase.(got := k.phase.got + conn.inbound[conn.taken..conn.taken + n]))];
      conns := conns[g := conn.(taken := conn.taken + n)];
      Record(before, Received(c, n));
    }

    // read_exact: until `want` bytes of the reply are there, or failure.
    method ReadExact(c: nat, want: nat) returns (ok: bool, ghost broken: bool)
      requires Valid() && c < |calls| && calls[c].phase.Reading?
      requires |calls[c].phase.got| <= want == |calls[c].phase.got| + Lacking(calls[c].phase.got)
      modifies this
      ensures Valid() && old(trace) <= trace && c < |calls| && calls[c].payload == old(calls[c].payload)
      ensures calls[c].phase.Reading? && calls[c].phase.attempt == old(calls[c].phase.attempt)
      ensures |calls[c].phase.got| <= want && old(calls[c].phase.got) <= calls[c].phase.got
      ensures ok <==> |calls[c].phase.got| == want
      ensures ok <==> !broken
    {
      broken := false;
      while |calls[c].phase.got| < want
        invariant Valid() && old(trace) <= trace && c < |calls| && calls[c].payload == old(calls[c].payload)
        invariant calls[c].phase.Reading? && calls[c].phase.attempt == old(calls[c].phase.attempt)
        invariant |calls[c].phase.got| <= want && old(calls[c].phase.got) <= calls[c].phase.got
        invariant |calls[c].phase.got| == want || |calls[c].phase.got| + Lacking(calls[c].phase.got) == want
        invariant !broken
        decreases want - |calls[c].phase.got|
      {
        ok, broken := ReadSome(c, want);
        if !ok { return false, broken; }
      }
      ok := true;
    }

    // tcp_exchange, for the call that has just begun to write. It fails exactly if the
    // transport broke or the header announced more than 900 KiB; the call is left where it
    // failed. `broken` is what the transport did.
    method Exchange(c: nat) returns (r: Result<Payload, ()>, ghost broken: bool)
      requires Valid() && c < |calls| && calls[c].phase.Writing? && calls[c].phase.written == 0
      modifies this
      ensures Valid() && old(trace) <= trace && c < |calls| && calls[c].payload == old(calls[c].payload)
      ensures r.Ok? ==> calls[c].phase.Reading? && Complete(calls[c].phase.got) && r.value == calls[c].phase.got[4..]
      ensures r.Ok? ==> |r.value| == FromBe32(calls[c].phase.got[..4]) <= 921_600
      ensures r.Err? ==> Enabled(Now(), Failed(c)) && Attempt(calls[c].phase) == old(calls[c].phase.attempt)
      ensures r.Err? <==> broken || AnnouncesTooMuch(calls[c].phase)
    {
      Reachable(trace);
      assert CallOk(Now(), calls[c], holder == Some(c));
      // The size check and the conversion of the length to u32 cannot fail here.
      assert |calls[c].payload| <= MAX_REQUEST_BYTES < U32_LIMIT;
      var ok;
      ok, broken := WriteAll(c, 4);
      if ok { ok, broken := WriteAll(c, |Frame(calls[c].payload)|); }
      if ok { ok, broken := Flush(c); }
      if !ok { return Err(()), broken; }
      ok, broken := ReadExact(c, 4);
      if !ok { return Err(()), broken; }
      var length := FromBe32(calls[c].phase.got);
      assert calls[c].phase.got[..4] == calls[c].phase.got;
      if length > MAX_RESPONSE_BYTES { return Err(()), broken; }
      ok, broken := ReadExact(c, 4 + length);
      if !ok { return Err(()), broken; }
      r := Ok(calls[c].phase.got[4..]);
    }

    // The reply is read; the guard is dropped and the connection stays in the slot.
    method Finish(c: nat, bytes: Payload)
      requires Valid() && c < |calls| && calls[c].phase.Reading?
      requires Complete(calls[c].phase.got) && bytes == calls[c].phase.got[4..]
      modifies this
      ensures Valid() && trace == old(trace) + [Finished(c)]
      ensures c < |calls| && calls[c].payload == old(calls[c].payload) && calls[c].phase == Done(Reply(bytes))
    {
      Reachable(trace);
      assert CallOk(Now(), calls[c], holder == Some(c));
      ghost var before := Now();
      var g := slot.value;
      conns := conns[g := conns[g].(log := conns[g].log + [TlsMachine.Exchange(c, calls[c].payload, bytes)])];
      calls := calls[c := calls[c].(phase := Done(Reply(bytes)))];
      holder := None;
      Record(before, Finished(c));
    }

    // The exchange failed: the slot is cleared, then the guard is dropped.
    method Fail(c: nat, attempt: nat)
      requires Valid() && c < |calls| && Enabled(Now(), Failed(c)) && Attempt(calls[c].phase) == attempt
      modifies this
      ensures Valid() && trace == old(trace) + [Failed(c)]
      ensures c < |calls| && calls[c].payload == old(calls[c].payload) && slot == None && holder == None
      ensures calls[c].phase == if attempt == 1 then Done(Unavailable) else Waiting(attempt + 1)
      ensures |calls[c].used| == attempt + 1
    {
      Reachable(trace);
      assert CallOk(Now(), calls[c], holder == Some(c));
      ghost var before := Now();
      slot := None;
      holder := None;
      calls := calls[c := calls[c].(phase := if attempt == 1 then Done(Unavailable) else Waiting(attempt + 1))];
      Record(before, Failed(c));
    }

    // One attempt, from the lock to the release of its guard; `settled` tells whether the
    // call is over. The attempt succeeds unless the connection is refused, the transport
    // breaks or the peer announces too much.
    method TryOnce(c: nat, attempt: nat) returns (settled: bool, outcome: Outcome, failed: bool, ghost t: Try)
      requires Valid() && arguments.Ok? && c < |calls| && calls[c].phase == Waiting(attempt) && attempt <= 1
      modifies this
      ensures Valid() && old(trace) < trace && c < |calls| && calls[c].payload == old(calls[c].payload)
      ensures outcome == OutcomeOf(t) && (failed <==> Failing(t)) && (t.TooLong? ==> Failing(t))
      ensures settled <==> !failed || attempt == 1
      ensures calls[c].phase == if settled then Done(outcome) else Waiting(1)
      ensures settled ==> (failed <==> outcome.Unavailable? && |calls[c].used| == 2)
      ensures trace[|trace| - 1] == if outcome.Reply? then Finished(c)
                                    else if failed then Failed(c) else ConnectFailed(c)
    {
      Lock(c);
      if slot.None? {
        var connected;
        ghost var refused;
        connected, refused := Connect(c);
        if !connected { return true, Unavailable, false, ConnectionRefused; }
      }
      var r, broken := Exchange(c);
      match r
      case Ok(bytes) =>
        Finish(c, bytes);
        return true, Reply(bytes), false, Whole(bytes);
      case Err(_) =>
        t := if broken then Broken else TooLong(FromBe32(calls[c].phase.got[..4]));
        Fail(c, attempt);
        return attempt == 1, Unavailable, true, t;
    }

    // The locked part of fetch_tcp: at most two exchanges, a failed one clearing the slot.
    // A refused connection ends the call at once; `exhausted` says that both attempts failed,
    // each on a connection of its own. `tries` is how the attempts went.
    method Fetch(payload: Payload) returns (c: nat, outcome: Outcome, exhausted: bool, ghost tries: seq<Try>)
      requires Valid() && arguments.Ok? && |payload| <= MAX_REQUEST_BYTES
      modifies this
      ensures Valid() && old(trace) < trace
      ensures |old(calls)| <= c < |calls|
      ensures calls[c].payload == payload && calls[c].phase == Done(outcome)
      ensures Attempts(tries) && outcome == OutcomeOf(tries[|tries| - 1])
      ensures exhausted <==> BothFailed(tries)
      ensures exhausted <==> outcome.Unavailable? && |calls[c].used| == 2
      ensures trace[|trace| - 1] == if outcome.Reply? then Finished(c)
                                    else if exhausted then Failed(c) else ConnectFailed(c)
    {
      ghost var before := Now();
      c := |calls|;
      calls := calls + [Call(payload, Waiting(0), 0, [])];
      Record(before, Start(payload));
      tries := [];
      for attempt := 0 to 2
        invariant Valid() && old(trace) < trace && |old(calls)| <= c < |calls|
        invariant attempt <= 1 && calls[c].payload == payload && calls[c].phase == Waiting(attempt)
        invariant |tries| == attempt && (attempt == 1 ==> Failing(tries[0]))
      {
        var settled;
        ghost var t;
        settled, outcome, exhausted, t := TryOnce(c, attempt);
        tries := tries + [t];
        if settled { return; }
      }
      // The error after the loop is unreachable.
      outcome, exhausted := Unavailable, true;
      assert false;
    }
  }

  lemma LackingShrinks(got: Bytes, chunk: Bytes)
    requires |chunk| <= Lacking(got)
    ensures |chunk| == Lacking(got) || |got + chunk| + Lacking(got + chunk) == |got| + Lacking(got)
  {
    if |got| >= 4 { assert (got + chunk)[..4] == got[..4]; }
  }
}
