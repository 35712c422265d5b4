/**
 One request through the runtime: identify the bearer, fetch the alarms by the configured
 mode, merge the preferences, report. Answers of other services are arbitrary; what the
 request did and learned is recorded, and so is what it reported.
 */
module Pipeline {
  import opened Wrappers
  import opened Framing
  import opened Naming
  import opened Service
  import opened Startup
  import opened Bodies
  import Tls = TlsMachine
  import Async = AsyncMachine
  import SharedChannel
  import AsyncBoard

  datatype Identity = Identity(subject: string, email: Option<string>)

  datatype Introspection = Introspection(active: bool, sub: Option<string>, email: Option<string>)

  datatype Dashboard = Dashboard(identityLabel: string, alarms: seq<Alarm>, mode: Mode)

  datatype HttpAnswer = SendFailed | HttpAnswer(status: nat, declared: Option<nat>, items: seq<Item>)

  datatype Telemetry = Telemetry(operation: string, status: nat, failed: bool)

  // What a request does outside the process, and what it learns there.
  datatype Effect =
    | Introspect(token: Bytes, answer: HttpAnswer)
    | ConnectDatabase(url: string, flavor: Flavor, connections: nat, connected: bool)
    | QueryDatabase(subject: string, rows: Option<seq<Alarm>>)
    | GetAlarms(bearer: Bytes, answer: HttpAnswer)
    | TlsCall(payload: Bytes, tries: seq<SharedChannel.Try>)
    | AsyncCall(id: Uuid, bearer: Bytes, answers: AsyncBoard.Answers, end: Async.Phase)
    | MergePreferences(problem: Option<string>)

  // The JSON readers of the answers: None when the bytes violate the interface.
  datatype Readers = Readers(
    introspection: Bytes -> Option<Introspection>,
    alarms: Bytes -> Option<seq<Alarm>>,
    response: Parser)

  const INTROSPECT: string := "shared_auth.introspect"
  const LIST_ALARMS: string := "alarms.list"

  const SUCCESS_REPORT: seq<Telemetry> :=
    [Telemetry(INTROSPECT, 200, false), Telemetry(LIST_ALARMS, 200, false), Telemetry("dashboard", 200, false)]

  predicate IsSuccess(status: nat) { 200 <= status < 300 }

  function FailureStatus(e: WebError): nat {
    match e
    case Unauthorized => 401
    case AuthUnavailable => 503
    case ApiUnavailable => 503
    case Contract(_) => 422
  }

  // The status under which each error is reported.
  lemma FailureStatusExactly(e: WebError)
    ensures FailureStatus(e) == 401 <==> e.Unauthorized?
    ensures FailureStatus(e) == 422 <==> e.Contract?
    ensures FailureStatus(e) == 503 <==> e.AuthUnavailable? || e.ApiUnavailable?
  {}

  predicate GoodSubject(s: string) { Compact(s, 512) }

  function Label(i: Identity): string {
    match i.email case Some(e) => e case None => i.subject
  }

  // --- What an answer means -------------------------------------------------

  // The body of a successful answer, if it arrived as a whole and within the limit.
  function BodyOf(answer: HttpAnswer, limit: nat): Option<Bytes> {
    if answer.HttpAnswer? && IsSuccess(answer.status) && AllChunks(answer.items)
       && (answer.declared.Some? ==> answer.declared.value <= limit) && |Concat(answer.items)| <= limit
    then Some(Concat(answer.items)) else None
  }

  predicate Answers(answer: HttpAnswer, status: nat) { answer.HttpAnswer? && answer.status == status }

  lemma BodyOfOutcome(answer: HttpAnswer, limit: nat, tooLarge: WebError, broken: WebError, r: Result<Bytes, WebError>)
    requires answer.HttpAnswer? && IsSuccess(answer.status)
    requires Outcome(answer.declared, answer.items, limit, tooLarge, broken, r)
    ensures BodyOf(answer, limit) == match r case Ok(body) => Some(body) case Err(_) => None
  {
    var b := BodyOf(answer, limit);
    if b.Some? { OutcomeIsUnique(answer.declared, answer.items, limit, tooLarge, broken, r, Ok(b.value)); }
  }

  function Said(read: Readers, answer: HttpAnswer): Option<Introspection> {
    match BodyOf(answer, MAX_INTROSPECTION_RESPONSE_BYTES)
    case None => None
    case Some(body) => read.introspection(body)
  }

  // The identity that an introspection answer establishes: active, with a usable subject.
  function IdentityOf(read: Readers, answer: HttpAnswer): Option<Identity> {
    match Said(read, answer)
    case Some(Introspection(true, Some(subject), email)) =>
      if GoodSubject(subject) then Some(Identity(subject, email)) else None
    case _ => None
  }

  // The bearer is active, but without a usable subject.
  predicate Unusable(read: Readers, answer: HttpAnswer) {
    Said(read, answer).Some? && Said(read, answer).value.active && IdentityOf(read, answer).None?
  }

  function AlarmsOf(read: Readers, answer: HttpAnswer): Option<seq<Alarm>> {
    match BodyOf(answer, MAX_RESPONSE_BYTES)
    case None => None
    case Some(body) => read.alarms(body)
  }

  function AcceptedAlarms(read: Readers, bytes: Bytes, id: Uuid): Option<seq<Alarm>> {
    match Decode(read.response, bytes, id) case Ok(alarms) => Some(alarms) case Err(_) => None
  }

  // An answer establishes an identity exactly if it is a success whose whole body arrived
  // within 64 KiB and calls the bearer active under a subject of 1 to 512 octets without
  // white space.
  lemma IdentityExactly(read: Readers, answer: HttpAnswer, subject: string, email: Option<string>)
    ensures IdentityOf(read, answer) == Some(Identity(subject, email))
            <==> answer.HttpAnswer? && 200 <= answer.status <= 299 && AllChunks(answer.items)
                 && |Concat(answer.items)| <= 65_536
                 && (answer.declared == None || answer.declared.value <= 65_536)
                 && read.introspection(Concat(answer.items)) == Some(Introspection(true, Some(subject), email))
                 && subject != "" && Utf8Length(subject) <= 512
                 && forall i :: 0 <= i < |subject| ==> !IsWhitespace(subject[i])
  {}

  // An answer brings alarms exactly if it is a success whose whole body arrived within
  // 900 KiB and reads as these alarms.
  lemma AlarmsExactly(read: Readers, answer: HttpAnswer, alarms: seq<Alarm>)
    ensures AlarmsOf(read, answer) == Some(alarms)
            <==> answer.HttpAnswer? && 200 <= answer.status <= 299 && AllChunks(answer.items)
                 && |Concat(answer.items)| <= 921_600
                 && (answer.declared == None || answer.declared.value <= 921_600)
                 && read.alarms(Concat(answer.items)) == Some(alarms)
  {}

  // The alarms that a fetch has brought, if any.
  function Fetched(read: Readers, id: Uuid, fx: seq<Effect>): Option<seq<Alarm>> {
    if fx == [] then None
    else match fx[|fx| - 1]
      case QueryDatabase(_, rows) => rows
      case GetAlarms(_, answer) => AlarmsOf(read, answer)
      case TlsCall(_, tries) =>
        if tries != [] && tries[|tries| - 1].Whole? then AcceptedAlarms(read, tries[|tries| - 1].reply, id) else None
      case AsyncCall(_, _, _, Replied(bytes)) => AcceptedAlarms(read, bytes, id)
      case _ => None
  }

  // The failure that an effect makes the runtime report, if any: an introspection that does
  // not identify the bearer, unless only the subject is unusable; an alarm request that the
  // API answers without success; a TLS call both of whose attempts failed; a timeout of the
  // asynchronous mode. No other failure is reported.
  function FailureReport(read: Readers, e: Effect): Option<Telemetry> {
    match e
    case Introspect(_, answer) =>
      if IdentityOf(read, answer).Some? || Unusable(read, answer) then None
      else Some(Telemetry(INTROSPECT, if Answers(answer, 401) || Said(read, answer).Some? then 401 else 503, true))
    case GetAlarms(_, answer) =>
      if answer.HttpAnswer? && !IsSuccess(answer.status) then Some(Telemetry(LIST_ALARMS, answer.status, true))
      else None
    case TlsCall(_, tries) =>
      if SharedChannel.BothFailed(tries) then Some(Telemetry(LIST_ALARMS, 503, true)) else None
    case AsyncCall(_, _, _, end) => if end.TimedOut? then Some(Telemetry(LIST_ALARMS, 504, true)) else None
    case _ => None
  }

  // The failure reports of a list of effects: only the last of them can fail a request.
  function Failures(read: Readers, fx: seq<Effect>): seq<Telemetry> {
    if fx == [] then []
    else match FailureReport(read, fx[|fx| - 1]) case None => [] case Some(t) => [t]
  }

  const ALARMS_VIOLATED: WebError := Contract("alarm response violated happy-wakey-interfaces")
  const REQUEST_TOO_LARGE: WebError := Contract("service request was too large")

  // What a TLS call or an asynchronous call comes to.
  function TlsResult(read: Readers, id: Uuid, tries: seq<SharedChannel.Try>): Result<seq<Alarm>, WebError> {
    if tries != [] && tries[|tries| - 1].Whole? then Decode(read.response, tries[|tries| - 1].reply, id)
    else Err(ApiUnavailable)
  }

  function AsyncResult(read: Readers, id: Uuid, end: Async.Phase): Result<seq<Alarm>, WebError> {
    match end
    case Replied(bytes) => Decode(read.response, bytes, id)
    case Refused(e) => Err(e)
    case _ => Err(ApiUnavailable)
  }

  // The error of an alarm request over HTTP that brought nothing.
  ghost predicate HttpFailsWith(answer: HttpAnswer, error: WebError) {
    if answer.HttpAnswer? && IsSuccess(answer.status) then
      if BodyOf(answer, MAX_RESPONSE_BYTES).Some? then
        error == Contract("alarm response violated happy-wakey-interfaces")
      else Outcome(answer.declared, answer.items, 921_600, Contract("response exceeded its byte limit"),
                   ApiUnavailable, Err(error))
    else error == if Answers(answer, 401) then Unauthorized else ApiUnavailable
  }

  // The error by which a request fails, decided by the last thing it did; a fetch that did
  // nothing had too large a request.
  ghost predicate FailsWith(read: Readers, id: Uuid, fx: seq<Effect>, error: WebError) {
    if fx == [] then error == Contract("service request was too large")
    else match fx[|fx| - 1]
      case Introspect(_, answer) =>
        error == if Answers(answer, 401) || Said(read, answer).Some? then Unauthorized else AuthUnavailable
      case ConnectDatabase(_, _, _, _) => error == ApiUnavailable
      case QueryDatabase(_, _) => error == ApiUnavailable
      case GetAlarms(_, answer) => HttpFailsWith(answer, error)
      case TlsCall(_, tries) => TlsResult(read, id, tries) == Err(error)
      case AsyncCall(_, _, _, end) => AsyncResult(read, id, end) == Err(error)
      case MergePreferences(problem) => problem.Some? && error == Contract(problem.value)
  }

  // --- What a request may do ------------------------------------------------

  // The effects by which each mode may fetch, and no others.
  predicate FetchEffects(mode: Mode, operation: Bytes, id: Uuid, token: Bytes, subject: string, fx: seq<Effect>) {
    match mode
    case DirectDatabaseRead =>
      var query := if |fx| > 0 && fx[0].ConnectDatabase? then fx[1..] else fx;
      (|fx| > 0 && fx[0].ConnectDatabase? && !fx[0].connected && query == [])
      || (|query| == 1 && query[0].QueryDatabase? && query[0].subject == subject
          && (|fx| == 2 ==> fx[0].ConnectDatabase? && fx[0].connected))
    case StatelessHttps => |fx| == 1 && fx[0].GetAlarms? && fx[0].bearer == token
    case StatefulTls =>
      if |RequestBytes(operation, id, token)| > MAX_REQUEST_BYTES then fx == []
      else |fx| == 1 && fx[0].TlsCall? && fx[0].payload == RequestBytes(operation, id, token)
           && SharedChannel.Attempts(fx[0].tries)
    case AsyncJetStream => |fx| == 1 && fx[0].AsyncCall? && fx[0].id == id && fx[0].bearer == token
  }

  // A fetch: what it did, what it brought and what it reported.
  ghost predicate FetchOutcome(read: Readers, mode: Mode, operation: Bytes, id: Uuid, token: Bytes, subject: string,
                               fx: seq<Effect>, r: Result<seq<Alarm>, WebError>, ts: seq<Telemetry>) {
    && FetchEffects(mode, operation, id, token, subject, fx)
    && Fetched(read, id, fx) == (match r case Ok(alarms) => Some(alarms) case Err(_) => None)
    && (r.Err? ==> FailsWith(read, id, fx, r.error))
    && ts == if r.Ok? then [SUCCESS_REPORT[1]] else Failures(read, fx)
  }

  // The preferences are merged last, if at all.
  predicate Merged(fx: seq<Effect>) { |fx| > 1 && fx[|fx| - 1].MergePreferences? }

  // What a request did between the introspection and the merge.
  function FetchOf(fx: seq<Effect>): seq<Effect>
    requires fx != []
  {
    if Merged(fx) then fx[1..|fx| - 1] else fx[1..]
  }

  // The request of a bearer: identified first, then the fetch of the mode for the subject
  // identified, and, if that brought alarms, the preferences.
  ghost predicate BearerOutcome(read: Readers, mode: Mode, operation: Bytes, id: Uuid, token: Bytes,
                                fx: seq<Effect>, r: Result<Dashboard, WebError>, ts: seq<Telemetry>) {
    && fx != [] && fx[0].Introspect? && fx[0].token == token
    && match IdentityOf(read, fx[0].answer)
       case None => fx == [fx[0]] && r.Err? && FailsWith(read, id, fx, r.error) && ts == Failures(read, fx)
       case Some(identity) =>
         var (merged, fetch) := (Merged(fx), FetchOf(fx));
         && FetchEffects(mode, operation, id, token, identity.subject, fetch)
         && (Fetched(read, id, fetch).Some? <==> merged)
         && (if merged && fx[|fx| - 1].problem.None?
             then r == Ok(Dashboard(Label(identity), Fetched(read, id, fetch).value, mode)) && ts == SUCCESS_REPORT
             else r.Err? && FailsWith(read, id, if merged then fx else fetch, r.error)
                  && ts == if merged then SUCCESS_REPORT[..2] else SUCCESS_REPORT[..1] + Failures(read, fetch))
  }

  // A request without a bearer does and reports nothing.
  ghost predicate RequestOutcome(read: Readers, mode: Mode, operation: Bytes, id: Uuid, header: Option<Bytes>,
                                 fx: seq<Effect>, r: Result<Dashboard, WebError>, ts: seq<Telemetry>) {
    match Bearer(header)
    case None => fx == [] && r == Err(Unauthorized) && ts == []
    case Some(token) => BearerOutcome(read, mode, operation, id, token, fx, r, ts)
  }

  lemma FetchFails(read: Readers, mode: Mode, operation: Bytes, id: Uuid, token: Bytes, answer: HttpAnswer,
                   identity: Identity, fetch: seq<Effect>, alarms: Result<seq<Alarm>, WebError>, ts: seq<Telemetry>)
    requires IdentityOf(read, answer) == Some(identity) && alarms.Err?
    requires FetchOutcome(read, mode, operation, id, token, identity.subject, fetch, alarms, ts)
    ensures BearerOutcome(read, mode, operation, id, token,
                          [Introspect(token, answer)] + fetch, Err(alarms.error), SUCCESS_REPORT[..1] + ts)
  {
    var fx := [Introspect(token, answer)] + fetch;
    if fetch != [] {
      LastFetchIsNoMerge(mode, operation, id, token, identity.subject, fetch);
      assert fx[|fx| - 1] == fetch[|fetch| - 1];
    }
    assert FetchOf(fx) == fetch;
  }

  lemma LastFetchIsNoMerge(mode: Mode, operation: Bytes, id: Uuid, token: Bytes, subject: string, fx: seq<Effect>)
    requires FetchEffects(mode, operation, id, token, subject, fx) && fx != []
    ensures !fx[|fx| - 1].MergePreferences?
  {
    if mode.DirectDatabaseRead? && |fx| == 2 { assert fx[1..][0] == fx[1]; }
  }

  lemma FetchServes(read: Readers, mode: Mode, operation: Bytes, id: Uuid, token: Bytes, answer: HttpAnswer,
                    identity: Identity, fetch: seq<Effect>, alarms: Result<seq<Alarm>, WebError>,
                    ts: seq<Telemetry>, problem: Option<string>, r: Result<Dashboard, WebError>)
    requires IdentityOf(read, answer) == Some(identity) && alarms.Ok?
    requires FetchOutcome(read, mode, operation, id, token, identity.subject, fetch, alarms, ts)
    requires r == match problem
                  case None => Ok(Dashboard(Label(identity), alarms.value, mode))
                  case Some(message) => Err(Contract(message))
    ensures BearerOutcome(read, mode, operation, id, token,
                          [Introspect(token, answer)] + fetch + [MergePreferences(problem)],
                          r, if r.Ok? then SUCCESS_REPORT else SUCCESS_REPORT[..2])
  {
    var fx := [Introspect(token, answer)] + fetch + [MergePreferences(problem)];
    assert fx[1..|fx| - 1] == fetch;
  }

  lemma TlsFetched(read: Readers, operation: Bytes, id: Uuid, token: Bytes, subject: string, e: Effect,
                   r: Result<seq<Alarm>, WebError>, ts: seq<Telemetry>)
    requires e.TlsCall? && e.payload == RequestBytes(operation, id, token) && |e.payload| <= MAX_REQUEST_BYTES
    requires SharedChannel.Attempts(e.tries) && r == TlsResult(read, id, e.tries)
    requires ts == if r.Ok? then [SUCCESS_REPORT[1]]
                   else if SharedChannel.BothFailed(e.tries) then [Telemetry(LIST_ALARMS, 503, true)] else []
    ensures FetchOutcome(read, StatefulTls, operation, id, token, subject, [e], r, ts)
  {}

  lemma AsyncFetched(read: Readers, operation: Bytes, id: Uuid, token: Bytes, subject: string,
                     answers: AsyncBoard.Answers, end: Async.Phase,
                     r: Result<seq<Alarm>, WebError>, ts: seq<Telemetry>)
    requires r == AsyncResult(read, id, end)
    requires ts == if r.Ok? then [SUCCESS_REPORT[1]]
                   else if end.TimedOut? then [Telemetry(LIST_ALARMS, 504, true)] else []
    ensures FetchOutcome(read, AsyncJetStream, operation, id, token, subject,
                         [AsyncCall(id, token, answers, end)], r, ts)
  {}

  // --- What that means ------------------------------------------------------

  // The transport an effect uses to fetch alarms, if it does.
  function TransportOf(e: Effect): Option<Mode> {
    match e
    case ConnectDatabase(_, _, _, _) => Some(DirectDatabaseRead)
    case QueryDatabase(_, _) => Some(DirectDatabaseRead)
    case GetAlarms(_, _) => Some(StatelessHttps)
    case TlsCall(_, _) => Some(StatefulTls)
    case AsyncCall(_, _, _, _) => Some(AsyncJetStream)
    case _ => None
  }

  // The bearer or the subject an effect acts for is the one given.
  predicate ActsFor(e: Effect, operation: Bytes, id: Uuid, token: Bytes, subject: string) {
    match e
    case QueryDatabase(s, _) => s == subject
    case GetAlarms(bearer, _) => bearer == token
    case TlsCall(payload, _) => payload == RequestBytes(operation, id, token)
    case AsyncCall(i, bearer, _, _) => i == id && bearer == token
    case _ => true
  }

  // Every fetch follows the identification of the request's own bearer, uses the
  // configured mode's transport, and acts for that bearer or its subject.
  lemma FetchesFollowIdentity(read: Readers, mode: Mode, operation: Bytes, id: Uuid, header: Option<Bytes>,
                              fx: seq<Effect>, r: Result<Dashboard, WebError>, ts: seq<Telemetry>, i: nat)
    requires RequestOutcome(read, mode, operation, id, header, fx, r, ts)
    requires i < |fx| && TransportOf(fx[i]).Some?
    ensures TransportOf(fx[i]) == Some(mode) && Bearer(header).Some? && i > 0
    ensures fx[0].Introspect? && fx[0].token == Bearer(header).value && IdentityOf(read, fx[0].answer).Some?
            && ActsFor(fx[i], operation, id, Bearer(header).value, IdentityOf(read, fx[0].answer).value.subject)
  {
    var fetch := FetchOf(fx);
    assert i > 0 && i - 1 < |fetch| && fetch[i - 1] == fx[i];
    if mode.DirectDatabaseRead? && fetch[0].ConnectDatabase? && i > 1 {
      assert fetch[1..][i - 2] == fx[i];
    }
  }

  // A dashboard is labelled with the email of the identity established, else with its subject.
  lemma ServedIdentity(read: Readers, mode: Mode, operation: Bytes, id: Uuid, header: Option<Bytes>, fx: seq<Effect>,
                       d: Dashboard, ts: seq<Telemetry>) returns (subject: string, email: Option<string>)
    requires RequestOutcome(read, mode, operation, id, header, fx, Ok(d), ts)
    ensures fx != [] && fx[0].Introspect? && Said(read, fx[0].answer) == Some(Introspection(true, Some(subject), email))
    ensures email == None ==> d.identityLabel == subject
    ensures forall e :: email == Some(e) ==> d.identityLabel == e
    ensures d.mode == mode
  {
    var identity := IdentityOf(read, fx[0].answer).value;
    subject, email := identity.subject, identity.email;
  }

  predicate HasFailure(ts: seq<Telemetry>) { exists i :: 0 <= i < |ts| && ts[i].failed }

  predicate HasReportedFailure(read: Readers, fx: seq<Effect>) {
    exists i :: 0 <= i < |fx| && FailureReport(read, fx[i]).Some?
  }

  // Only the last effect of a fetch can be one that is reported as a failure, and then the
  // fetch has brought nothing.
  lemma FetchReports(read: Readers, mode: Mode, operation: Bytes, id: Uuid, token: Bytes, subject: string,
                     fx: seq<Effect>)
    requires FetchEffects(mode, operation, id, token, subject, fx)
    ensures HasReportedFailure(read, fx) <==> Failures(read, fx) != []
    ensures Fetched(read, id, fx).Some? ==> Failures(read, fx) == []
  {
    if Failures(read, fx) != [] { assert FailureReport(read, fx[|fx| - 1]).Some?; }
    if mode.DirectDatabaseRead? {
      forall i | 0 <= i < |fx| ensures FailureReport(read, fx[i]).None? {
        if |fx| == 2 && i == 1 { assert fx[1..][0] == fx[1]; }
      }
    }
  }

  lemma FailureSplits(read: Readers, a: seq<Effect>, b: seq<Effect>)
    ensures HasReportedFailure(read, a + b) <==> HasReportedFailure(read, a) || HasReportedFailure(read, b)
  {
    forall i | 0 <= i < |a| ensures (a + b)[i] == a[i] {}
    forall i | 0 <= i < |b| ensures (a + b)[|a| + i] == b[i] {}
    if HasReportedFailure(read, a + b) {
      var i :| 0 <= i < |a + b| && FailureReport(read, (a + b)[i]).Some?;
      assert if i < |a| then FailureReport(read, a[i]).Some? else FailureReport(read, b[i - |a|]).Some?;
    }
  }

  lemma RequestReports(read: Readers, fx: seq<Effect>)
    requires fx != [] && FailureReport(read, fx[0]).None?
    ensures HasReportedFailure(read, fx) <==> HasReportedFailure(read, FetchOf(fx))
  {
    var last := if Merged(fx) then [fx[|fx| - 1]] else [];
    assert fx == [fx[0]] + (FetchOf(fx) + last);
    FailureSplits(read, [fx[0]], FetchOf(fx) + last);
    FailureSplits(read, FetchOf(fx), last);
  }

  // At most one success report and then one failure, of the introspection or of the fetch.
  predicate OneFailure(ts: seq<Telemetry>) {
    1 <= |ts| <= 2 && ts[..|ts| - 1] == SUCCESS_REPORT[..|ts| - 1]
    && ts[|ts| - 1].failed && ts[|ts| - 1].operation == SUCCESS_REPORT[|ts| - 1].operation
  }

  lemma BearerReports(read: Readers, mode: Mode, operation: Bytes, id: Uuid, token: Bytes,
                      fx: seq<Effect>, r: Result<Dashboard, WebError>, ts: seq<Telemetry>)
    requires BearerOutcome(read, mode, operation, id, token, fx, r, ts)
    ensures if HasReportedFailure(read, fx) then r.Err? && OneFailure(ts)
            else ts == SUCCESS_REPORT[..|ts|] && (r.Ok? <==> |ts| == 3)
  {
    var identity := IdentityOf(read, fx[0].answer);
    if identity.None? {
      if FailureReport(read, fx[0]).Some? {
        assert ts == [FailureReport(read, fx[0]).value];
      }
    } else {
      RequestReports(read, fx);
      FetchReports(read, mode, operation, id, token, identity.value.subject, FetchOf(fx));
    }
  }

  // Not every outcome is reported. A request reports a failure exactly when one of its
  // effects is a reported one: then it is the only failure, and reported last, after the
  // successes that preceded it. Otherwise only successes are reported, all three of them
  // exactly if the dashboard is served.
  lemma FailuresReportedExactly(read: Readers, mode: Mode, operation: Bytes, id: Uuid, header: Option<Bytes>,
                                fx: seq<Effect>, r: Result<Dashboard, WebError>, ts: seq<Telemetry>)
    requires RequestOutcome(read, mode, operation, id, header, fx, r, ts)
    ensures HasFailure(ts) <==> HasReportedFailure(read, fx)
    ensures HasFailure(ts) ==> r.Err? && OneFailure(ts)
    ensures !HasFailure(ts) ==> ts == SUCCESS_REPORT[..|ts|]
    ensures r.Ok? <==> ts == [Telemetry("shared_auth.introspect", 200, false), Telemetry("alarms.list", 200, false),
                              Telemetry("dashboard", 200, false)]
  {
    if Bearer(header).Some? {
      BearerReports(read, mode, operation, id, Bearer(header).value, fx, r, ts);
      if HasReportedFailure(read, fx) {
        assert ts[|ts| - 1].failed;
      }
    }
  }

  lemma Continues<T>(before: seq<T>, a: seq<T>, b: seq<T>, whole: seq<T>)
    requires a + b <= whole
    ensures before + a + b + whole[|a| + |b|..] == before + whole
  {
    assert whole == a + b + whole[|a| + |b|..];
  }

  lemma OneError(read: Readers, id: Uuid, fx: seq<Effect>, e: WebError, e': WebError)
    requires FailsWith(read, id, fx, e) && FailsWith(read, id, fx, e')
    ensures e == e'
  {
    if fx != [] && fx[|fx| - 1].GetAlarms? {
      var a := fx[|fx| - 1].answer;
      if a.HttpAnswer? && IsSuccess(a.status) && BodyOf(a, MAX_RESPONSE_BYTES).None? {
        OutcomeIsUnique(a.declared, a.items, MAX_RESPONSE_BYTES, TOO_LARGE, ApiUnavailable, Err(e), Err(e'));
      }
    }
  }

  // What others answered decides what the caller gets and what is reported.
  lemma AnswersDecide(read: Readers, mode: Mode, operation: Bytes, id: Uuid, header: Option<Bytes>, fx: seq<Effect>,
                      r: Result<Dashboard, WebError>, ts: seq<Telemetry>,
                      r': Result<Dashboard, WebError>, ts': seq<Telemetry>)
    requires RequestOutcome(read, mode, operation, id, header, fx, r, ts)
    requires RequestOutcome(read, mode, operation, id, header, fx, r', ts')
    ensures r == r' && ts == ts'
  {
    if Bearer(header).Some? && r.Err? && r'.Err? {
      var failing := if IdentityOf(read, fx[0].answer).None? || Merged(fx) then fx else FetchOf(fx);
      OneError(read, id, failing, r.error, r'.error);
    }
  }

  // The call of the shared channel that an effect records.
  predicate MadeBy(k: Tls.Call, payload: Bytes, tries: seq<SharedChannel.Try>) {
    SharedChannel.Attempts(tries) && k.payload == payload
    && k.phase == Tls.Done(SharedChannel.OutcomeOf(tries[|tries| - 1]))
  }

  class Runtime {
    const config: Config
    const mode: Mode
    const baseOk: string -> bool
    const operation: Bytes  // the wire name of the list-alarms operation
    const read: Readers
    const tcp: SharedChannel.Channel
    const nats: AsyncBoard.Board
    var direct: bool  // whether the database context is initialised
    var telemetry: seq<Telemetry>

    // The options are those of a configuration that startup accepted, and both transports
    // are used with them.
    ghost predicate Valid()
      reads tcp, nats
    {
      && Startup.Accepted(config, baseOk) == Some(mode) && tcp.Valid() && nats.Valid()
      && tcp.arguments == TlsArguments(config) && nats.arguments == NatsArguments(config)
    }

    constructor (config: Config, mode: Mode, baseOk: string -> bool, operation: Bytes, read: Readers)
      requires Startup.Accepted(config, baseOk) == Some(mode)
      ensures Valid() && fresh(tcp) && fresh(nats) && this.config == config && this.mode == mode
      ensures telemetry == [] && !direct && tcp.trace == [] && nats.trace == []
    {
      this.config, this.mode, this.baseOk, this.operation, this.read := config, mode, baseOk, operation, read;
      tcp := new SharedChannel.Channel(TlsArguments(config));
      nats := new AsyncBoard.Board(NatsArguments(config));
      direct, telemetry := false, [];
    }

    // What the TLS and asynchronous effects of a request record did happen on the transport.
    ghost predicate Happened(e: Effect)
      reads tcp, nats
    {
      match e
      case TlsCall(payload, tries) =>
        exists c :: 0 <= c < |tcp.calls| && MadeBy(tcp.calls[c], payload, tries)
      case AsyncCall(id, bearer, answers, end) =>
        AsyncBoard.EndsBy(answers, id, end)
        && exists c :: 0 <= c < |nats.calls| && nats.calls[c] == Async.Call(id, bearer, end)
      case _ => true
    }

    ghost predicate AllHappened(fx: seq<Effect>)
      reads tcp, nats
    {
      forall i :: 0 <= i < |fx| ==> Happened(fx[i])
    }

    lemma HappenedAlso(a: seq<Effect>, b: seq<Effect>)
      requires AllHappened(a) && AllHappened(b)
      ensures AllHappened(a + b)
    {
      forall i | 0 <= i < |a + b| ensures Happened((a + b)[i]) {
        assert (a + b)[i] == if i < |a| then a[i] else b[i - |a|];
      }
    }

    method Emit(operation: string, status: nat, failed: bool)
      modifies this`telemetry
      ensures telemetry == old(telemetry) + [Telemetry(operation, status, failed)]
    {
      telemetry := telemetry + [Telemetry(operation, status, failed)];
    }

    // The identity is established exactly by an answer that says so; every failure is
    // reported with the status of its error, except that of an unusable subject.
    method Introspected(token: Bytes, ghost id: Uuid) returns (r: Result<Identity, WebError>, ghost answer: HttpAnswer)
      modifies this`telemetry
      ensures IdentityOf(read, answer) == match r case Ok(identity) => Some(identity) case Err(_) => None
      ensures r.Err? ==> FailsWith(read, id, [Introspect(token, answer)], r.error)
      ensures telemetry == old(telemetry)
                           + (if r.Ok? then SUCCESS_REPORT[..1]
                              else if Unusable(read, answer) then []
                              else [Telemetry(INTROSPECT, FailureStatus(r.error), true)])
      ensures r.Err? ==> telemetry == old(telemetry) + Failures(read, [Introspect(token, answer)])
    {
      var response: HttpAnswer := *;
      answer := response;
      if !response.HttpAnswer? {
        Emit(INTROSPECT, 503, true);
        return Err(AuthUnavailable), answer;
      }
      if !IsSuccess(response.status) {
        var failure := if response.status == 401 then Unauthorized else AuthUnavailable;
        Emit(INTROSPECT, FailureStatus(failure), true);
        return Err(failure), answer;
      }
      var body := BoundedAuthBody(response.declared, response.items);
      BodyOfOutcome(response, MAX_INTROSPECTION_RESPONSE_BYTES, AuthUnavailable, AuthUnavailable, body);
      if body.Err? {
        Emit(INTROSPECT, FailureStatus(body.error), true);
        return Err(body.error), answer;
      }
      var result := read.introspection(body.value);
      if result.None? {
        Emit(INTROSPECT, 503, true);
        return Err(AuthUnavailable), answer;
      }
      if !result.value.active {
        Emit(INTROSPECT, 401, true);
        return Err(Unauthorized), answer;
      }
      if result.value.sub.None? || !GoodSubject(result.value.sub.value) { return Err(Unauthorized), answer; }
      Emit(INTROSPECT, 200, false);
      r := Ok(Identity(result.value.sub.value, result.value.email));
    }

    // The database is the configured one, and so is the number of connections.
    predicate AsConfigured(e: Effect) {
      e.ConnectDatabase? && config.databaseUrl == Some(e.url) && config.databaseMaxConnections == e.connections
      && config.databaseFlavor == match e.flavor case PostgreSql => "postgres" case CockroachDb => "cockroach"
    }

    // Connects exactly if no earlier request has, and queries the subject only.
    method FetchDirect(subject: string, ghost id: Uuid, ghost token: Bytes)
      returns (r: Result<seq<Alarm>, WebError>, ghost fx: seq<Effect>, ghost ts: seq<Telemetry>)
      requires Valid() && mode.DirectDatabaseRead?
      modifies this`telemetry, this`direct
      ensures telemetry == old(telemetry) + ts && FetchOutcome(read, mode, operation, id, token, subject, fx, r, ts)
      ensures fx[0].ConnectDatabase? <==> !old(direct)
      ensures direct <==> fx[|fx| - 1].QueryDatabase?
      ensures fx[0].ConnectDatabase? ==> AsConfigured(fx[0])
      ensures r.Err? ==> ts == []
    {
      StartupClosesMissingArms(config, baseOk, mode);
      var arguments := DirectArguments(config);
      fx, ts := [], [];
      if arguments.Err? { assert false; return Err(ApiUnavailable), fx, ts; }
      if !direct {
        var (url, flavor) := arguments.value;
        var connected: bool := *;
        fx := [ConnectDatabase(url, flavor, config.databaseMaxConnections, connected)];
        if !connected { return Err(ApiUnavailable), fx, ts; }
        direct := true;
      }
      var rows: Option<seq<Alarm>> := *;
      fx := fx + [QueryDatabase(subject, rows)];
      match rows
      case None => return Err(ApiUnavailable), fx, ts;
      case Some(alarms) =>
        Emit(LIST_ALARMS, 200, false);
        ts := [SUCCESS_REPORT[1]];
        r := Ok(alarms);
    }

    // Alarms are what the body of a successful answer reads as; the API's refusals, and
    // they only, are reported with their status.
    method FetchHttp(token: Bytes, ghost id: Uuid, ghost subject: string)
      returns (r: Result<seq<Alarm>, WebError>, ghost fx: seq<Effect>, ghost ts: seq<Telemetry>)
      requires mode.StatelessHttps?
      modifies this`telemetry
      ensures telemetry == old(telemetry) + ts && FetchOutcome(read, mode, operation, id, token, subject, fx, r, ts)
      ensures ts != [] <==> r.Ok? || (fx[0].answer.HttpAnswer? && !IsSuccess(fx[0].answer.status))
    {
      var answer: HttpAnswer := *;
      fx, ts := [GetAlarms(token, answer)], [];
      if !answer.HttpAnswer? { return Err(ApiUnavailable), fx, ts; }
      if !IsSuccess(answer.status) {
        Emit(LIST_ALARMS, answer.status, true);
        ts := [Telemetry(LIST_ALARMS, answer.status, true)];
        return Err(if answer.status == 401 then Unauthorized else ApiUnavailable), fx, ts;
      }
      var body := BoundedBody(answer.declared, answer.items);
      BodyOfOutcome(answer, MAX_RESPONSE_BYTES, TOO_LARGE, ApiUnavailable, body);
      if body.Err? { return Err(body.error), fx, ts; }
      var alarms := read.alarms(body.value);
      if alarms.None? { return Err(ALARMS_VIOLATED), fx, ts; }
      Emit(LIST_ALARMS, 200, false);
      ts := [SUCCESS_REPORT[1]];
      r := Ok(alarms.value);
    }

    // One call of the shared channel, unless the request is too large; a failure is
    // reported exactly if both attempts failed.
    method FetchTcp(token: Bytes, id: Uuid, ghost subject: string)
      returns (r: Result<seq<Alarm>, WebError>, ghost fx: seq<Effect>, ghost ts: seq<Telemetry>)
      requires Valid() && mode.StatefulTls?
      modifies this`telemetry, tcp
      ensures tcp.Valid() && old(tcp.trace) <= tcp.trace && AllHappened(fx)
      ensures telemetry == old(telemetry) + ts && FetchOutcome(read, mode, operation, id, token, subject, fx, r, ts)
      ensures fx == [] <==> |RequestBytes(operation, id, token)| > 32_768
      ensures fx == [] ==> tcp.Now() == old(tcp.Now())
      ensures r.Err? ==> ts == if fx != [] && SharedChannel.BothFailed(fx[0].tries)
                               then [Telemetry("alarms.list", 503, true)] else []
    {
      StartupClosesMissingArms(config, baseOk, mode);
      var payload := RequestBytes(operation, id, token);
      fx, ts := [], [];
      if |payload| > MAX_REQUEST_BYTES { return Err(REQUEST_TOO_LARGE), fx, ts; }
      var c, outcome, exhausted, tries := tcp.Fetch(payload);
      fx := [TlsCall(payload, tries)];
      assert MadeBy(tcp.calls[c], payload, tries);
      r, ts := EndTcp(id, outcome, exhausted, tries);
      TlsFetched(read, operation, id, token, subject, fx[0], r, ts);
    }

    // Decodes a reply, and reports it or that both attempts failed.
    method EndTcp(id: Uuid, outcome: Tls.Outcome, exhausted: bool, ghost tries: seq<SharedChannel.Try>)
      returns (r: Result<seq<Alarm>, WebError>, ghost ts: seq<Telemetry>)
      requires SharedChannel.Attempts(tries) && outcome == SharedChannel.OutcomeOf(tries[|tries| - 1])
      requires exhausted <==> SharedChannel.BothFailed(tries)
      modifies this`telemetry
      ensures r == TlsResult(read, id, tries) && telemetry == old(telemetry) + ts
      ensures ts == if r.Ok? then [SUCCESS_REPORT[1]]
                    else if SharedChannel.BothFailed(tries) then [Telemetry(LIST_ALARMS, 503, true)] else []
    {
      ts := [];
      match outcome
      case Reply(bytes) =>
        r := Decode(read.response, bytes, id);
        if r.Ok? {
          Emit(LIST_ALARMS, 200, false);
          ts := [SUCCESS_REPORT[1]];
        }
      case Unavailable =>
        if exhausted {
          Emit(LIST_ALARMS, 503, true);
          ts := [Telemetry(LIST_ALARMS, 503, true)];
        }
        r := Err(ApiUnavailable);
    }

    // One call of the asynchronous mode; a failure is reported exactly if it timed out.
    method FetchAsync(token: Bytes, id: Uuid, ghost subject: string)
      returns (r: Result<seq<Alarm>, WebError>, ghost fx: seq<Effect>, ghost ts: seq<Telemetry>)
      requires Valid() && mode.AsyncJetStream?
      requires forall i :: 0 <= i < |nats.calls| ==> nats.calls[i].id != id
      modifies this`telemetry, nats
      ensures nats.Valid() && old(nats.trace) <= nats.trace && AllHappened(fx)
      ensures telemetry == old(telemetry) + ts && FetchOutcome(read, mode, operation, id, token, subject, fx, r, ts)
      ensures fx[0].end.Replied? || fx[0].end.TimedOut? || fx[0].end.Refused?
      ensures r.Err? ==> ts == if fx[0].end.TimedOut? then [Telemetry("alarms.list", 504, true)] else []
    {
      StartupClosesMissingArms(config, baseOk, mode);
      var c, answers := nats.Fetch(id, token);
      fx := [AsyncCall(id, token, answers, nats.calls[c].phase)];
      assert nats.calls[c] == Async.Call(id, token, fx[0].end);
      r, ts := EndAsync(id, nats.calls[c].phase);
      AsyncFetched(read, operation, id, token, subject, answers, fx[0].end, r, ts);
    }

    // Decodes a reply, and reports it or the timeout.
    method EndAsync(id: Uuid, end: Async.Phase) returns (r: Result<seq<Alarm>, WebError>, ghost ts: seq<Telemetry>)
      modifies this`telemetry
      ensures r == AsyncResult(read, id, end) && telemetry == old(telemetry) + ts
      ensures ts == if r.Ok? then [SUCCESS_REPORT[1]]
                    else if end.TimedOut? then [Telemetry(LIST_ALARMS, 504, true)] else []
    {
      ts := [];
      match end
      case Replied(payload) =>
        r := Decode(read.response, payload, id);
        if r.Ok? {
          Emit(LIST_ALARMS, 200, false);
          ts := [SUCCESS_REPORT[1]];
        }
      case TimedOut(_, _) =>
        Emit(LIST_ALARMS, 504, true);
        ts := [Telemetry(LIST_ALARMS, 504, true)];
        r := Err(ApiUnavailable);
      case Refused(e) => r := Err(e);
      case _ => r := Err(ApiUnavailable);
    }

    method FetchByMode(token: Bytes, id: Uuid, subject: string)
      returns (r: Result<seq<Alarm>, WebError>, ghost fx: seq<Effect>, ghost ts: seq<Telemetry>)
      requires Valid()
      requires forall i :: 0 <= i < |nats.calls| ==> nats.calls[i].id != id
      modifies this, tcp, nats
      ensures Valid() && AllHappened(fx)
      ensures telemetry == old(telemetry) + ts && FetchOutcome(read, mode, operation, id, token, subject, fx, r, ts)
      ensures !mode.StatefulTls? ==> tcp.Now() == old(tcp.Now())
      ensures !mode.AsyncJetStream? ==> nats.Now() == old(nats.Now())
    {
      match mode
      case DirectDatabaseRead => r, fx, ts := FetchDirect(subject, id, token);
      case StatelessHttps => r, fx, ts := FetchHttp(token, id, subject);
      case StatefulTls => r, fx, ts := FetchTcp(token, id, subject);
      case AsyncJetStream => r, fx, ts := FetchAsync(token, id, subject);
    }

    // Merges the preferences, which may fail, and reports the dashboard.
    method Assemble(identity: Identity, alarms: seq<Alarm>)
      returns (r: Result<Dashboard, WebError>, ghost problem: Option<string>)
      modifies this`telemetry
      ensures r == match problem
                   case None => Ok(Dashboard(Label(identity), alarms, mode))
                   case Some(message) => Err(Contract(message))
      ensures telemetry == old(telemetry) + if r.Ok? then [SUCCESS_REPORT[2]] else []
    {
      var merge: Option<string> := *;
      problem := merge;
      match merge
      case Some(message) =>
        r := Err(Contract(message));
      case None =>
        Emit("dashboard", 200, false);
        r := Ok(Dashboard(Label(identity), alarms, mode));
    }

    // Ends a request after its fetch.
    method Finish(token: Bytes, id: Uuid, identity: Identity, alarms: Result<seq<Alarm>, WebError>,
                  ghost answer: HttpAnswer, ghost fetch: seq<Effect>, ghost reports: seq<Telemetry>)
      returns (r: Result<Dashboard, WebError>, ghost fx: seq<Effect>, ghost ts: seq<Telemetry>)
      requires IdentityOf(read, answer) == Some(identity) && AllHappened(fetch)
      requires FetchOutcome(read, mode, operation, id, token, identity.subject, fetch, alarms, reports)
      modifies this`telemetry
      ensures BearerOutcome(read, mode, operation, id, token, fx, r, ts) && AllHappened(fx)
      ensures SUCCESS_REPORT[..1] + reports <= ts && telemetry == old(telemetry) + ts[1 + |reports|..]
    {
      HappenedAlso([Introspect(token, answer)], fetch);
      if alarms.Err? {
        r, fx, ts := Err(alarms.error), [Introspect(token, answer)] + fetch, SUCCESS_REPORT[..1] + reports;
        FetchFails(read, mode, operation, id, token, answer, identity, fetch, alarms, reports);
      } else {
        ghost var problem;
        r, problem := Assemble(identity, alarms.value);
        fx := [Introspect(token, answer)] + fetch + [MergePreferences(problem)];
        ts := if r.Ok? then SUCCESS_REPORT else SUCCESS_REPORT[..2];
        FetchServes(read, mode, operation, id, token, answer, identity, fetch, alarms, reports, problem, r);
        HappenedAlso([Introspect(token, answer)] + fetch, [MergePreferences(problem)]);
      }
    }

    // The request of an extracted bearer. `id` is the operation id that the request draws;
    // it is fresh.
    method Serve(token: Bytes, id: Uuid)
      returns (r: Result<Dashboard, WebError>, ghost fx: seq<Effect>, ghost ts: seq<Telemetry>)
      requires Valid()
      requires forall i :: 0 <= i < |nats.calls| ==> nats.calls[i].id != id
      modifies this, tcp, nats
      ensures Valid() && AllHappened(fx)
      ensures telemetry == old(telemetry) + ts && BearerOutcome(read, mode, operation, id, token, fx, r, ts)
      ensures !mode.StatefulTls? ==> tcp.Now() == old(tcp.Now())
      ensures !mode.AsyncJetStream? ==> nats.Now() == old(nats.Now())
    {
      var identity, answer := Introspected(token, id);
      fx := [Introspect(token, answer)];
      if identity.Err? { return Err(identity.error), fx, Failures(read, fx); }
      var alarms, fetch, reports := FetchByMode(token, id, identity.value.subject);
      r, fx, ts := Finish(token, id, identity.value, alarms, answer, fetch, reports);
      Continues(old(telemetry), SUCCESS_REPORT[..1], reports, ts);
    }

    method ServeDashboard(header: Option<Bytes>, id: Uuid)
      returns (r: Result<Dashboard, WebError>, ghost fx: seq<Effect>, ghost ts: seq<Telemetry>)
      requires Valid()
      requires forall i :: 0 <= i < |nats.calls| ==> nats.calls[i].id != id
      modifies this, tcp, nats
      ensures Valid() && AllHappened(fx)
      ensures telemetry == old(telemetry) + ts && RequestOutcome(read, mode, operation, id, header, fx, r, ts)
      ensures !mode.StatefulTls? ==> tcp.Now() == old(tcp.Now())
      ensures !mode.AsyncJetStream? ==> nats.Now() == old(nats.Now())
    {
      var bearer := Bearer(header);
      if bearer.None? { return Err(Unauthorized), [], []; }
      r, fx, ts := Serve(bearer.value, id);
    }
  }
}
