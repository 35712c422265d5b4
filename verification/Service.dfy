/** The service request and response messages, and the bearer that requests carry. */
module Service {
  import opened Wrappers
  import opened Framing
  import opened Naming

  datatype WebError = Unauthorized | AuthUnavailable | ApiUnavailable | Contract(message: string)

  // --- Bearer extraction ----------------------------------------------------

  const BEARER: Bytes := [66, 101, 97, 114, 101, 114, 32]  // "Bearer "
  const MAX_TOKEN_BYTES: nat := 16 * 1024

  predicate HeaderText(h: Bytes) {
    forall i :: 0 <= i < |h| ==> 32 <= h[i] < 127 || h[i] == 9
  }

  predicate AsciiWhitespace(b: byte) { 9 <= b <= 13 || b == 32 }

  predicate AsciiControl(b: byte) { b < 32 || b == 127 }

  function Bearer(authorization: Option<Bytes>): Option<Bytes> {
    if authorization.None? then None
    else
      var h := authorization.value;
      if !HeaderText(h) || !(BEARER <= h) then None
      else
        var token := h[|BEARER|..];
        if token != [] && |token| <= MAX_TOKEN_BYTES
           && (forall i :: 0 <= i < |token| ==> !AsciiWhitespace(token[i]))
           && (forall i :: 0 <= i < |token| ==> !AsciiControl(token[i]))
        then Some(token) else None
  }

  predicate Graphic(token: Bytes) {
    forall i :: 0 <= i < |token| ==> 33 <= token[i] <= 126
  }

  // The accepted headers are exactly "Bearer " and 1 to 16384 graphic characters.
  lemma BearerExactly(authorization: Option<Bytes>, token: Bytes)
    ensures Bearer(authorization) == Some(token)
            <==> authorization == Some(Ascii("Bearer ") + token) && 1 <= |token| <= 16_384
                 && forall i :: 0 <= i < |token| ==> '!' as int <= token[i] <= '~' as int
  {
    assert BEARER == Ascii("Bearer ");
    var whole := BEARER + token;
    assert whole[|BEARER|..] == token;
    if authorization.Some? && BEARER <= authorization.value {
      var h := authorization.value;
      assert h == BEARER + h[|BEARER|..];
      forall i | 0 <= i < |h| - |BEARER| ensures h[i + |BEARER|] == h[|BEARER|..][i] {}
    }
    if Graphic(token) {
      forall i | 0 <= i < |whole| ensures 32 <= whole[i] < 127 {
        if i >= |BEARER| { assert whole[i] == token[i - |BEARER|]; }
      }
    }
  }

  // --- Service request ------------------------------------------------------

  const QUOTE: byte := 34
  const BACKSLASH: byte := 92
  const BRACE: byte := 123  // opening
  const CLOSING_BRACE: byte := 125
  const COLON: byte := 58
  const COMMA: byte := 44

  function Ascii(s: string): (b: Bytes)
    ensures |b| == |s|
  {
    seq(|s|, i requires 0 <= i < |s| => if s[i] < 128 as char then s[i] as int else 63)
  }

  // String escaping of RFC 8259, section 7, for the graphic characters a bearer may hold.
  function Escape(token: Bytes): Bytes {
    if token == [] then []
    else (if token[0] == QUOTE || token[0] == BACKSLASH then [BACKSLASH, token[0]] else [token[0]])
         + Escape(token[1..])
  }

  function Specials(token: Bytes): nat {
    if token == [] then 0
    else (if token[0] == QUOTE || token[0] == BACKSLASH then 1 else 0) + Specials(token[1..])
  }

  // Reads a JSON string up to its closing quote; the result is its value and what follows.
  function ReadString(b: Bytes): (r: Option<(Bytes, Bytes)>)
    ensures r.Some? ==> |r.value.1| < |b|
  {
    if b == [] then None
    else if b[0] == QUOTE then Some(([], b[1..]))
    else if b[0] == BACKSLASH then
      if |b| < 2 then None
      else match ReadString(b[2..])
        case None => None
        case Some((t, rest)) => Some(([b[1]] + t, rest))
    else match ReadString(b[1..])
      case None => None
      case Some((t, rest)) => Some(([b[0]] + t, rest))
  }

  lemma {:induction false} EscapeReadsBack(token: Bytes, rest: Bytes)
    ensures ReadString(Escape(token) + [QUOTE] + rest) == Some((token, rest))
  {
    var b := Escape(token) + [QUOTE] + rest;
    if token == [] {
      assert b[1..] == rest;
    } else {
      EscapeReadsBack(token[1..], rest);
      var tail := Escape(token[1..]) + [QUOTE] + rest;
      if token[0] == QUOTE || token[0] == BACKSLASH {
        assert b == [BACKSLASH, token[0]] + tail && b[2..] == tail;
      } else {
        assert b == [token[0]] + tail && b[1..] == tail;
      }
      assert [token[0]] + token[1..] == token;
    }
  }

  lemma {:induction false} EscapedLength(token: Bytes)
    ensures |Escape(token)| == |token| + Specials(token)
  {
    if token != [] { EscapedLength(token[1..]); }
  }

  // The name of a JSON member and what precedes the text of its value.
  function Key(name: string): Bytes { [QUOTE] + Ascii(name) + [QUOTE, COLON, QUOTE] }

  const REQUEST_SCHEMA: string := "happy-wakey.service-operation" + ".request.v1"
  const REQUEST_OPENING: Bytes := [BRACE, QUOTE, 115]  // {"s
  const REQUEST_HEAD: Bytes :=
    [BRACE] + Key("schema") + Ascii(REQUEST_SCHEMA) + [QUOTE, COMMA] + Key("operation_id")
  const REQUEST_BEARER: Bytes := [QUOTE, COMMA] + Key("bearer_token")
  const REQUEST_OPERATION: Bytes := [COMMA] + Key("operation")
  const REQUEST_END: Bytes := [QUOTE, CLOSING_BRACE]

  // The serialised request. `operation` is the wire name of the list-alarms
  // operation, which the interface crate chooses.
  function RequestBytes(operation: Bytes, id: Uuid, token: Bytes): Bytes {
    REQUEST_HEAD + Ascii(UuidText(id)) + REQUEST_BEARER
    + Escape(token) + [QUOTE] + RequestAfter(operation)
  }

  function RequestAfter(operation: Bytes): Bytes { REQUEST_OPERATION + operation + REQUEST_END }

  lemma {:induction false} UuidTextIsAscii(u: Uuid, v: Uuid)
    requires Ascii(UuidText(u)) == Ascii(UuidText(v))
    ensures u == v
  {
    forall bs: Bytes ensures AllAscii(Hex(bs)) { HexIsAscii(bs); }
    var (s, t) := (UuidText(u), UuidText(v));
    assert AllAscii(s) && AllAscii(t);
    forall i | 0 <= i < 36 ensures s[i] == t[i] {
      assert Ascii(s)[i] == s[i] as int && Ascii(t)[i] == t[i] as int;
    }
    assert s == t;
    ParseInvertsText(u);
    ParseInvertsText(v);
  }

  predicate AllAscii(s: string) { forall i :: 0 <= i < |s| ==> s[i] < 128 as char }

  lemma {:induction false} HexIsAscii(bs: Bytes)
    ensures AllAscii(Hex(bs))
  {
    if bs != [] { HexIsAscii(bs[1..]); }
  }

  lemma ConcatParts(head: Bytes, id: Bytes, middle: Bytes, tail: Bytes)
    ensures var p := head + id + middle + tail;
            p[|head|..|head| + |id|] == id && p[|head| + |id| + |middle|..] == tail
  {}

  // A request's bytes determine its operation id and its bearer.
  lemma RequestDeterminesIdAndBearer(operation: Bytes, id: Uuid, token: Bytes, id': Uuid, token': Bytes)
    requires RequestBytes(operation, id, token) == RequestBytes(operation, id', token')
    ensures id == id' && token == token'
  {
    var rest := RequestAfter(operation);
    RequestParts(REQUEST_HEAD, REQUEST_BEARER, rest, id, token);
    RequestParts(REQUEST_HEAD, REQUEST_BEARER, rest, id', token');
    UuidTextIsAscii(id, id');
  }

  lemma RequestParts(head: Bytes, middle: Bytes, rest: Bytes, id: Uuid, token: Bytes)
    ensures var p := head + Ascii(UuidText(id)) + middle + Escape(token) + [QUOTE] + rest;
            |p| >= |head| + 36 + |middle|
            && p[|head|..|head| + 36] == Ascii(UuidText(id))
            && ReadString(p[|head| + 36 + |middle|..]) == Some((token, rest))
  {
    var (text, quoted) := (Ascii(UuidText(id)), Escape(token));
    ConcatParts(head, text, middle, quoted + [QUOTE] + rest);
    Regroup(head + text + middle, quoted, [QUOTE], rest);
    EscapeReadsBack(token, rest);
  }

  lemma Regroup(a: Bytes, b: Bytes, c: Bytes, d: Bytes)
    ensures a + b + c + d == a + (b + c + d)
  {}

  // A request is its envelope of 140 bytes and the operation's name, the token and one byte
  // for each quote or backslash; so it fits in 32 KiB exactly when token and escapes fit.
  lemma {:induction false} RequestFitsExactly(operation: Bytes, id: Uuid, token: Bytes)
    ensures |RequestBytes(operation, id, token)| == 140 + |operation| + |token| + Specials(token)
    ensures |RequestBytes(operation, id, token)| <= MAX_REQUEST_BYTES
            <==> |token| + Specials(token) <= 32_628 - |operation|
  {
    EscapedLength(token);
  }

  // b64token of RFC 6750, section 2.1.
  predicate B64Char(b: byte) {
    65 <= b <= 90 || 97 <= b <= 122 || 48 <= b <= 57
    || b == 45 || b == 46 || b == 95 || b == 126 || b == 43 || b == 47 || b == 61
  }

  lemma {:induction false} B64HasNoSpecials(token: Bytes)
    requires forall i :: 0 <= i < |token| ==> B64Char(token[i])
    ensures Specials(token) == 0
  {
    if token != [] { B64HasNoSpecials(token[1..]); }
  }

  // Every accepted b64token fits, so the size and u32 checks of an exchange never
  // fire on it, whatever header it came in.
  lemma AcceptedB64TokenFits(operation: Bytes, id: Uuid, authorization: Option<Bytes>)
    requires Bearer(authorization).Some?
    requires forall i :: 0 <= i < |Bearer(authorization).value| ==> B64Char(Bearer(authorization).value[i])
    requires |operation| <= 16_244
    ensures |RequestBytes(operation, id, Bearer(authorization).value)| <= MAX_REQUEST_BYTES
  {
    var token := Bearer(authorization).value;
    BearerExactly(authorization, token);
    B64HasNoSpecials(token);
    RequestFitsExactly(operation, id, token);
  }

  // Not every accepted token fits: 16384 quotes are a legal bearer and double in size.
  lemma {:induction false} QuotesOnly(n: nat)
    ensures Specials(seq(n, _ => QUOTE)) == n
  {
    if n > 0 {
      assert seq(n, _ => QUOTE)[1..] == seq(n - 1, _ => QUOTE);
      QuotesOnly(n - 1);
    }
  }

  lemma AcceptedTokenMayBeTooLarge(operation: Bytes, id: Uuid)
    ensures var token := seq(16_384, _ => QUOTE);
            Bearer(Some(Ascii("Bearer ") + token)) == Some(token)
            && |RequestBytes(operation, id, token)| > MAX_REQUEST_BYTES
  {
    var token := seq(16_384, _ => QUOTE);
    BearerExactly(Some(Ascii("Bearer ") + token), token);
    QuotesOnly(16_384);
    RequestFitsExactly(operation, id, token);
  }

  // --- Service response -----------------------------------------------------

  datatype Alarm = Alarm(labelText: string, localTime: string, timeZone: string)

  datatype Status = StatusOk | StatusUnauthorized | StatusInvalid | StatusUnavailable

  datatype Response = Response(
    schema: string, operationId: string, status: Status, alarms: seq<Alarm>, error: Option<string>)

  // The JSON reader of the interface crate: None when the bytes violate it.
  type Parser = Bytes -> Option<Response>

  const SERVICE_RESPONSE_SCHEMA: string := "happy-wakey.service-operation.response.v1"

  function Decode(parse: Parser, bytes: Bytes, id: Uuid): Result<seq<Alarm>, WebError> {
    if |bytes| > MAX_RESPONSE_BYTES then Err(Contract("service response was too large"))
    else match parse(bytes)
      case None => Err(Contract("service response violated the interface"))
      case Some(r) =>
        if r.schema != SERVICE_RESPONSE_SCHEMA || r.operationId != UuidText(id) then
          Err(Contract("service response did not match its request"))
        else match r.status
          case StatusOk => if r.error.None? then Ok(r.alarms)
                           else Err(Contract("successful response unexpectedly contained an error"))
          case StatusUnauthorized => Err(Unauthorized)
          case StatusInvalid => Err(ApiUnavailable)
          case StatusUnavailable => Err(ApiUnavailable)
  }

  // Alarms come from a reply of at most 900 KiB that reads as a response with this schema,
  // this id, status Ok and no error, and from no other.
  lemma DecodeExactly(parse: Parser, bytes: Bytes, id: Uuid, alarms: seq<Alarm>)
    ensures Decode(parse, bytes, id) == Ok(alarms)
            <==> |bytes| <= 921_600
                 && parse(bytes) == Some(Response("happy-wakey.service-operation.response.v1", UuidText(id),
                                                  StatusOk, alarms, None))
  {}

  // ... and so for each kind of error.
  lemma DecodeErrorsExactly(parse: Parser, bytes: Bytes, id: Uuid)
    ensures Decode(parse, bytes, id) == Err(Unauthorized)
            <==> Matching(parse, bytes, id) && parse(bytes).value.status.StatusUnauthorized?
    ensures Decode(parse, bytes, id) == Err(ApiUnavailable)
            <==> Matching(parse, bytes, id)
                 && (parse(bytes).value.status.StatusInvalid? || parse(bytes).value.status.StatusUnavailable?)
    ensures Decode(parse, bytes, id) == Err(Contract("successful response unexpectedly contained an error"))
            <==> Matching(parse, bytes, id) && parse(bytes).value.status.StatusOk? && parse(bytes).value.error.Some?
    ensures Decode(parse, bytes, id) == Err(Contract("service response did not match its request"))
            <==> |bytes| <= 921_600 && parse(bytes).Some? && !Matching(parse, bytes, id)
    ensures Decode(parse, bytes, id) == Err(Contract("service response violated the interface"))
            <==> |bytes| <= 921_600 && parse(bytes).None?
    ensures Decode(parse, bytes, id) == Err(Contract("service response was too large")) <==> |bytes| > 921_600
  {}

  // The reply reads as a response to the operation `id`.
  predicate Matching(parse: Parser, bytes: Bytes, id: Uuid) {
    |bytes| <= 921_600 && parse(bytes).Some?
    && parse(bytes).value.schema == "happy-wakey.service-operation.response.v1"
    && parse(bytes).value.operationId == UuidText(id)
  }

  // One reply can be accepted by one operation only.
  lemma ReplyServesOneOperation(parse: Parser, bytes: Bytes, id: Uuid, id': Uuid)
    requires Decode(parse, bytes, id).Ok? && id != id'
    ensures Decode(parse, bytes, id') == Err(Contract("service response did not match its request"))
  {
    NamesAreInjective(id, id');
  }
}
