/** Validation of the configuration when the runtime is built. */
module Startup {
  import opened Wrappers
  import opened Service

  datatype Mode = DirectDatabaseRead | StatelessHttps | StatefulTls | AsyncJetStream

  datatype Flavor = PostgreSql | CockroachDb

  datatype Config = Config(
    interactionMode: string,
    apiBase: string,
    sharedAuthBase: string,
    sharedAuthAudience: string,
    introspectSecret: Option<string>,
    databaseUrl: Option<string>,
    databaseFlavor: string,
    databaseMaxConnections: nat,
    tcpAddress: Option<string>,
    tcpServerName: Option<string>,
    tcpCaFile: Option<string>,
    natsUrl: Option<string>,
    natsCredentialsFile: Option<string>,
    natsRequestStream: string,
    natsResponseStream: string)

  const IN_CLUSTER_NATS: string := "nats://" + "dd-nats.messaging.svc.cluster.local:4222"

  function ParseMode(s: string): Option<Mode> {
    if s == "direct_db_read" then Some(DirectDatabaseRead)
    else if s == "stateless_https" then Some(StatelessHttps)
    else if s == "stateful_tls" then Some(StatefulTls)
    else if s == "async_jetstream" then Some(AsyncJetStream)
    else None
  }

  lemma ModesExactly(s: string, mode: Mode)
    ensures ParseMode(s) == Some(mode)
            <==> (s, mode) in {("direct_db_read", DirectDatabaseRead), ("stateless_https", StatelessHttps),
                               ("stateful_tls", StatefulTls), ("async_jetstream", AsyncJetStream)}
  {}

  // --- Text -----------------------------------------------------------------

  function Utf8Length(s: string): nat {
    if s == "" then 0
    else (if s[0] < '\U{0080}' then 1 else if s[0] < '\U{0800}' then 2 else if s[0] < '\U{10000}' then 3 else 4)
         + Utf8Length(s[1..])
  }

  // The White_Space property of Unicode.
  predicate IsWhitespace(c: char) {
    '\U{0009}' <= c <= '\U{000D}' || c == '\U{0020}' || c == '\U{0085}' || c == '\U{00A0}' || c == '\U{1680}'
    || '\U{2000}' <= c <= '\U{200A}' || c == '\U{2028}' || c == '\U{2029}' || c == '\U{202F}' || c == '\U{205F}'
    || c == '\U{3000}'
  }

  predicate Compact(s: string, limit: nat) {
    s != "" && Utf8Length(s) <= limit && forall i :: 0 <= i < |s| ==> !IsWhitespace(s[i])
  }

  // The number of octets of each character, section 3 of RFC 3629, added up.
  lemma {:induction false} Utf8LengthExactly(c: char, a: string, b: string)
    ensures Utf8Length([c]) ==
            (var n := c as int; if n <= 127 then 1 else if n <= 2047 then 2 else if n <= 65_535 then 3 else 4)
    ensures Utf8Length(a + b) == Utf8Length(a) + Utf8Length(b)
    decreases |a|
  {
    assert [c][1..] == "";
    if a == "" {
      assert a + b == b;
    } else {
      assert (a + b)[0] == a[0] && (a + b)[1..] == a[1..] + b;
      Utf8LengthExactly(c, a[1..], b);
    }
  }

  // The 25 code points.
  lemma WhitespaceExactly(c: char)
    ensures IsWhitespace(c)
            <==> c as int in {9, 10, 11, 12, 13, 32, 133, 160, 5760, 8192, 8193, 8194, 8195, 8196, 8197, 8198, 8199,
                              8200, 8201, 8202, 8232, 8233, 8239, 8287, 12_288}
  {}

  lemma {:induction false} AsciiLength(s: string)
    requires forall i :: 0 <= i < |s| ==> s[i] as int < 128
    ensures Utf8Length(s) == |s|
  {
    if s != "" { AsciiLength(s[1..]); }
  }

  // ASCII text is compact exactly if it has 1 to `limit` characters and no white space.
  lemma CompactAsciiExactly(s: string, limit: nat)
    requires forall i :: 0 <= i < |s| ==> s[i] as int < 128
    ensures Compact(s, limit)
            <==> 1 <= |s| <= limit && forall i :: 0 <= i < |s| ==> s[i] as int !in {9, 10, 11, 12, 13, 32}
  {
    AsciiLength(s);
    forall i | 0 <= i < |s| ensures IsWhitespace(s[i]) <==> s[i] as int in {9, 10, 11, 12, 13, 32} {
      WhitespaceExactly(s[i]);
    }
  }

  predicate SafeTopologyName(s: string) {
    0 < |s| <= 128
    && forall i :: 0 <= i < |s| ==>
         'a' <= s[i] <= 'z' || 'A' <= s[i] <= 'Z' || '0' <= s[i] <= '9' || s[i] == '_' || s[i] == '-'
  }

  // The part up to the first slash.
  function UpToSlash(s: string): string {
    if s == "" || s[0] == '/' then "" else [s[0]] + UpToSlash(s[1..])
  }

  function Authority(url: string, scheme: string): string {
    if scheme <= url then UpToSlash(url[|scheme|..]) else ""
  }

  // --- Validation -----------------------------------------------------------

  predicate DirectOk(c: Config) {
    c.databaseUrl.Some? && (c.databaseFlavor == "postgres" || c.databaseFlavor == "cockroach")
  }

  predicate TlsOk(c: Config) { c.tcpAddress.Some? && c.tcpServerName.Some? && c.tcpCaFile.Some? }

  predicate NatsUrlOk(url: string, credentials: Option<string>) {
    var inCluster := url == IN_CLUSTER_NATS;
    ("tls://" <= url || inCluster)
    && if inCluster then '@' !in Authority(url, "nats://")
       else Authority(url, "tls://") != "" && '@' !in Authority(url, "tls://") && credentials.Some?
  }

  // What every mode demands. `baseOk` stands for the checks of an HTTPS base URL.
  predicate CommonOk(c: Config, baseOk: string -> bool) {
    && baseOk(c.sharedAuthBase)
    && c.introspectSecret.Some? && c.introspectSecret.value != ""
    && Utf8Length(c.introspectSecret.value) <= 16 * 1024
    && Compact(c.sharedAuthAudience, 256)
    && 1 <= c.databaseMaxConnections <= 16
  }

  predicate ConfigOk(c: Config, mode: Mode, baseOk: string -> bool) {
    && CommonOk(c, baseOk)
    && match mode
       case DirectDatabaseRead => DirectOk(c)
       case StatelessHttps => baseOk(c.apiBase)
       case StatefulTls => TlsOk(c)
       case AsyncJetStream =>
         baseOk(c.apiBase) && c.natsUrl.Some? && NatsUrlOk(c.natsUrl.value, c.natsCredentialsFile)
         && SafeTopologyName(c.natsRequestStream) && SafeTopologyName(c.natsResponseStream)
  }

  // The mode a runtime built from `c` serves; None when it refuses to start.
  function Accepted(c: Config, baseOk: string -> bool): Option<Mode> {
    match ParseMode(c.interactionMode)
    case None => None
    case Some(mode) => if ConfigOk(c, mode, baseOk) then Some(mode) else None
  }

  // What can be wrong with a configuration.
  datatype Problem =
    | UnknownMode | AuthBase | Secret | Audience | Connections | Database | ApiBase | TlsOption | MessageServer
    | StreamName

  predicate Has(c: Config, baseOk: string -> bool, problem: Problem) {
    match problem
    case UnknownMode =>
      c.interactionMode !in {"direct_db_read", "stateless_https", "stateful_tls", "async_jetstream"}
    case AuthBase => !baseOk(c.sharedAuthBase)
    case Secret =>
      c.introspectSecret == None || c.introspectSecret.value == "" || Utf8Length(c.introspectSecret.value) > 16_384
    case Audience =>
      c.sharedAuthAudience == "" || Utf8Length(c.sharedAuthAudience) > 256
      || exists i :: 0 <= i < |c.sharedAuthAudience| && IsWhitespace(c.sharedAuthAudience[i])
    case Connections => c.databaseMaxConnections == 0 || c.databaseMaxConnections > 16
    case Database =>
      c.interactionMode == "direct_db_read"
      && (c.databaseUrl == None || c.databaseFlavor !in {"postgres", "cockroach"})
    case ApiBase => c.interactionMode in {"stateless_https", "async_jetstream"} && !baseOk(c.apiBase)
    case TlsOption =>
      c.interactionMode == "stateful_tls"
      && (c.tcpAddress == None || c.tcpServerName == None || c.tcpCaFile == None)
    case MessageServer =>
      c.interactionMode == "async_jetstream"
      && (c.natsUrl == None || !NatsUrlOk(c.natsUrl.value, c.natsCredentialsFile))
    case StreamName =>
      c.interactionMode == "async_jetstream" && (BadName(c.natsRequestStream) || BadName(c.natsResponseStream))
  }

  // Empty, longer than 128 characters, or with one that is no ASCII letter or digit, no
  // underscore and no dash.
  predicate BadName(s: string) {
    s == "" || |s| > 128
    || exists i :: 0 <= i < |s| && var n := s[i] as int;
         (n < 48 || n > 57) && (n < 65 || n > 90) && (n < 97 || n > 122) && n !in {95, 45}
  }

  lemma SafeNamesExactly(s: string)
    ensures SafeTopologyName(s) <==> !BadName(s)
  {
    forall i | 0 <= i < |s|
      ensures var n := s[i] as int;
              ('a' <= s[i] <= 'z' || 'A' <= s[i] <= 'Z' || '0' <= s[i] <= '9' || s[i] == '_' || s[i] == '-')
              <==> !((n < 48 || n > 57) && (n < 65 || n > 90) && (n < 97 || n > 122) && n !in {95, 45})
    {}
  }

  // A runtime starts exactly if its configuration has none of these problems, and then in
  // the mode that is named.
  lemma StartsExactly(c: Config, baseOk: string -> bool)
    ensures Accepted(c, baseOk) == None <==> exists problem :: Has(c, baseOk, problem)
    ensures Accepted(c, baseOk).Some? ==> Accepted(c, baseOk) == ParseMode(c.interactionMode)
  {
    if Accepted(c, baseOk) == None {
      ProblemFound(c, baseOk);
    } else {
      forall problem ensures !Has(c, baseOk, problem) { NoProblem(c, baseOk, problem); }
    }
  }

  lemma NoProblem(c: Config, baseOk: string -> bool, problem: Problem)
    requires Accepted(c, baseOk).Some?
    ensures !Has(c, baseOk, problem)
  {
    SafeNamesExactly(c.natsRequestStream);
    SafeNamesExactly(c.natsResponseStream);
  }

  lemma ProblemFound(c: Config, baseOk: string -> bool)
    requires Accepted(c, baseOk) == None
    ensures exists problem :: Has(c, baseOk, problem)
  {
    var mode := ParseMode(c.interactionMode);
    if mode == None {
      assert Has(c, baseOk, UnknownMode);
    } else if !CommonOk(c, baseOk) {
      CommonProblem(c, baseOk);
    } else {
      ModeProblem(c, baseOk, mode.value);
    }
  }

  lemma CommonProblem(c: Config, baseOk: string -> bool)
    requires !CommonOk(c, baseOk)
    ensures Has(c, baseOk, AuthBase) || Has(c, baseOk, Secret) || Has(c, baseOk, Audience)
            || Has(c, baseOk, Connections)
  {
    if !baseOk(c.sharedAuthBase) {
      assert Has(c, baseOk, AuthBase);
    } else if !Compact(c.sharedAuthAudience, 256) {
      assert Has(c, baseOk, Audience);
    } else if 1 <= c.databaseMaxConnections <= 16 {
      assert Has(c, baseOk, Secret);
    }
  }

  lemma ModeProblem(c: Config, baseOk: string -> bool, mode: Mode)
    requires ParseMode(c.interactionMode) == Some(mode) && CommonOk(c, baseOk) && !ConfigOk(c, mode, baseOk)
    ensures exists problem :: Has(c, baseOk, problem)
  {
    SafeNamesExactly(c.natsRequestStream);
    SafeNamesExactly(c.natsResponseStream);
    match mode
    case DirectDatabaseRead => assert Has(c, baseOk, Database);
    case StatelessHttps => assert Has(c, baseOk, ApiBase);
    case StatefulTls => assert Has(c, baseOk, TlsOption);
    case AsyncJetStream =>
      assert Has(c, baseOk, ApiBase) || Has(c, baseOk, MessageServer) || Has(c, baseOk, StreamName);
  }

  // --- What each mode reads from the configuration later --------------------

  function DirectArguments(c: Config): Result<(string, Flavor), WebError> {
    if c.databaseUrl.None? then Err(ApiUnavailable)
    else if c.databaseFlavor == "postgres" then Ok((c.databaseUrl.value, PostgreSql))
    else if c.databaseFlavor == "cockroach" then Ok((c.databaseUrl.value, CockroachDb))
    else Err(ApiUnavailable)
  }

  function TlsArguments(c: Config): Result<(string, string, string), WebError> {
    if c.tcpAddress.None? then Err(ApiUnavailable)
    else if c.tcpServerName.None? then Err(ApiUnavailable)
    else if c.tcpCaFile.None? then Err(ApiUnavailable)
    else Ok((c.tcpAddress.value, c.tcpServerName.value, c.tcpCaFile.value))
  }

  // The URL, the credentials file if any, and whether TLS is required.
  function NatsArguments(c: Config): Result<(string, Option<string>, bool), WebError> {
    if c.natsUrl.None? then Err(ApiUnavailable)
    else Ok((c.natsUrl.value, c.natsCredentialsFile, "tls://" <= c.natsUrl.value))
  }

  // Every option is passed on as it is configured, and what is missing makes the API unavailable.
  lemma ArgumentsExactly(c: Config, url: string, a: string, b: string, file: Option<string>, tls: bool)
    ensures DirectArguments(c) == Ok((url, PostgreSql))
            <==> c.databaseUrl == Some(url) && c.databaseFlavor == "postgres"
    ensures DirectArguments(c) == Ok((url, CockroachDb))
            <==> c.databaseUrl == Some(url) && c.databaseFlavor == "cockroach"
    ensures TlsArguments(c) == Ok((url, a, b))
            <==> c.tcpAddress == Some(url) && c.tcpServerName == Some(a) && c.tcpCaFile == Some(b)
    ensures NatsArguments(c) == Ok((url, file, tls))
            <==> c.natsUrl == Some(url) && c.natsCredentialsFile == file && (tls <==> "tls://" <= url)
    ensures DirectArguments(c).Err? ==> DirectArguments(c).error == ApiUnavailable
    ensures TlsArguments(c).Err? ==> TlsArguments(c).error == ApiUnavailable
    ensures NatsArguments(c).Err? ==> NatsArguments(c).error == ApiUnavailable
  {}

  // A runtime that starts never meets a missing option or an unknown flavour in its mode.
  lemma StartupClosesMissingArms(c: Config, baseOk: string -> bool, mode: Mode)
    requires Accepted(c, baseOk) == Some(mode)
    ensures match mode
            case DirectDatabaseRead => DirectArguments(c).Ok?
            case StatelessHttps => baseOk(c.apiBase)
            case StatefulTls => TlsArguments(c).Ok?
            case AsyncJetStream => NatsArguments(c).Ok? && baseOk(c.apiBase)
  {}

  // ... and no validation beyond the missing arms is needed for them: with the checks
  // common to every mode, direct and TLS modes start exactly when the arms are closed.
  lemma ArmsDecideStartup(c: Config, baseOk: string -> bool, mode: Mode)
    requires ParseMode(c.interactionMode) == Some(mode)
    requires CommonOk(c, baseOk)
    ensures mode == DirectDatabaseRead ==>
              (Accepted(c, baseOk) == Some(mode) <==> DirectArguments(c).Ok?)
    ensures mode == StatefulTls ==> (Accepted(c, baseOk) == Some(mode) <==> TlsArguments(c).Ok?)
  {}

  lemma {:induction false} UpToSlashAvoids(s: string, c: char)
    requires c !in s
    ensures c !in UpToSlash(s)
  {
    if s != "" && s[0] != '/' { UpToSlashAvoids(s[1..], c); }
  }

  // The authority is the longest slash-free start.
  lemma {:induction false} UpToSlashExactly(s: string, a: string)
    ensures UpToSlash(s) == a <==> a <= s && '/' !in a && (|a| < |s| ==> s[|a|] == '/')
  {
    if s != "" && s[0] != '/' && a != "" {
      UpToSlashExactly(s[1..], a[1..]);
      assert a == [a[0]] + a[1..] && s == [s[0]] + s[1..];
      if a <= s { assert a[1..] <= s[1..]; }
      if a[0] == s[0] && a[1..] <= s[1..] { assert a <= s; }
    }
  }

  // A server given as tls://authority, optionally followed by a path.
  ghost predicate TlsServer(url: string, authority: string) {
    "tls://" + authority <= url && authority != "" && '/' !in authority && '@' !in authority
    && (|url| > |"tls://" + authority| ==> url[|"tls://" + authority|] == '/')
  }

  lemma AuthorityOfTls(url: string, authority: string)
    requires "tls://" <= url
    ensures TlsServer(url, authority) <==>
              (Authority(url, "tls://") == authority && authority != "" && '@' !in authority)
  {
    var rest := url[|"tls://"|..];
    assert url == "tls://" + rest;
    UpToSlashExactly(rest, authority);
    assert "tls://" + authority <= url <==> authority <= rest by {
      if authority <= rest { assert url[..|"tls://" + authority|] == "tls://" + authority; }
      if "tls://" + authority <= url { assert rest[..|authority|] == authority; }
    }
  }

  lemma InClusterIsPlain()
    ensures !("tls://" <= IN_CLUSTER_NATS) && '@' !in Authority(IN_CLUSTER_NATS, "nats://")
  {
    var host := "dd-nats.messaging.svc.cluster.local:4222";
    assert IN_CLUSTER_NATS[|"nats://"|..] == host;
    UpToSlashAvoids(host, '@');
    assert IN_CLUSTER_NATS[0] == "nats://"[0] == 'n' && "tls://"[0] == 't';
  }

  // The accepted message servers are exactly the in-cluster one, for which no further check
  // can fail, and TLS servers with a host, no user information and a credentials file.
  lemma NatsUrlExactly(url: string, credentials: Option<string>)
    ensures NatsUrlOk(url, credentials)
            <==> (url == "nats://" + "dd-nats.messaging.svc.cluster.local:4222"
              || (credentials.Some? && exists authority :: TlsServer(url, authority)))
  {
    InClusterIsPlain();
    if url != IN_CLUSTER_NATS {
      if "tls://" <= url {
        AuthorityOfTls(url, Authority(url, "tls://"));
        forall a | TlsServer(url, a) ensures Authority(url, "tls://") == a { AuthorityOfTls(url, a); }
      }
    }
  }

  // So TLS is required of the connection for every server but the in-cluster one.
  lemma NatsIsInClusterOrTls(c: Config, baseOk: string -> bool)
    requires Accepted(c, baseOk) == Some(AsyncJetStream)
    ensures NatsArguments(c).Ok?
    ensures var (url, credentials, tls) := NatsArguments(c).value;
            (tls <==> url != IN_CLUSTER_NATS) && (tls ==> credentials.Some?)
  {
    InClusterIsPlain();
  }
}
