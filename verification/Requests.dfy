/** Requests as parts of a longer stream of bytes: where one can begin, and where it ends. */
module Requests {
  import opened Wrappers
  import opened Framing
  import opened Naming
  import opened Service

  // Letters, digits and a few marks, as in the wire name of an operation.
  predicate PlainName(name: Bytes) {
    forall i :: 0 <= i < |name| ==>
      65 <= name[i] <= 90 || 97 <= name[i] <= 122 || 48 <= name[i] <= 57
      || name[i] == 45 || name[i] == 46 || name[i] == 95
  }

  // Neither a zero byte nor an opening brace.
  predicate Quiet(b: Bytes) { forall i :: 0 <= i < |b| ==> b[i] != 0 && b[i] != BRACE }

  predicate QuietText(s: string) { forall i :: 0 <= i < |s| ==> s[i] != '\0' && s[i] != '{' }

  lemma QuietAscii(s: string)
    requires QuietText(s)
    ensures Quiet(Ascii(s))
  {
    forall i | 0 <= i < |s| ensures Ascii(s)[i] != 0 && Ascii(s)[i] != BRACE {
      assert s[i] as int != '\0' as int && s[i] as int != '{' as int;
    }
  }

  lemma KeyIsQuiet(name: string)
    requires QuietText(name)
    ensures Quiet(Key(name))
  {
    QuietAscii(name);
  }

  lemma QuietConcat(a: Bytes, b: Bytes)
    requires Quiet(a) && Quiet(b)
    ensures Quiet(a + b)
  {}

  lemma HeadIsQuiet()
    ensures Quiet(REQUEST_HEAD[1..])
  {
    KeyIsQuiet("schema");
    QuietAscii(REQUEST_SCHEMA);
    KeyIsQuiet("operation_id");
    QuietConcat(Key("schema"), Ascii(REQUEST_SCHEMA));
    QuietConcat(Key("schema") + Ascii(REQUEST_SCHEMA), [QUOTE, COMMA]);
    QuietConcat(Key("schema") + Ascii(REQUEST_SCHEMA) + [QUOTE, COMMA], Key("operation_id"));
    assert REQUEST_HEAD[1..] == Key("schema") + Ascii(REQUEST_SCHEMA) + [QUOTE, COMMA] + Key("operation_id");
  }

  lemma LiteralsAreQuiet()
    ensures Quiet(REQUEST_HEAD[1..]) && Quiet(REQUEST_BEARER) && Quiet(REQUEST_OPERATION) && Quiet(REQUEST_END)
    ensures REQUEST_OPERATION[0] == COMMA
  {
    HeadIsQuiet();
    KeyIsQuiet("bearer_token");
    KeyIsQuiet("operation");
    QuietConcat([QUOTE, COMMA], Key("bearer_token"));
    QuietConcat([COMMA], Key("operation"));
  }

  lemma UuidIsQuiet(id: Uuid)
    ensures Quiet(Ascii(UuidText(id)))
  {
    forall bs: Bytes ensures QuietText(Hex(bs)) { HexIsQuiet(bs); }
    QuietAscii(UuidText(id));
  }

  lemma {:induction false} HexIsQuiet(bs: Bytes)
    ensures QuietText(Hex(bs))
  {
    if bs != [] { HexIsQuiet(bs[1..]); }
  }

  // Every quote of an escaped token follows a backslash, and nothing in it is zero.
  lemma {:induction false} EscapedQuotes(token: Bytes, i: nat)
    requires Graphic(token) && i < |Escape(token)|
    ensures Escape(token)[i] != 0
    ensures Escape(token)[i] == QUOTE ==> i > 0 && Escape(token)[i - 1] == BACKSLASH
  {
    var n := if token[0] == QUOTE || token[0] == BACKSLASH then 2 else 1;
    assert Escape(token)[n..] == Escape(token[1..]);
    if i >= n {
      EscapedQuotes(token[1..], i - n);
      assert Escape(token)[i] == Escape(token[1..])[i - n];
      if Escape(token)[i] == QUOTE { assert Escape(token)[i - 1] == Escape(token[1..])[i - n - 1]; }
    }
  }

  // What stands between a request's opening brace and its escaped token.
  function RequestBefore(id: Uuid): Bytes { REQUEST_HEAD[1..] + Ascii(UuidText(id)) + REQUEST_BEARER }

  lemma RequestShape(operation: Bytes, id: Uuid, token: Bytes)
    requires PlainName(operation)
    ensures RequestBytes(operation, id, token)
            == [BRACE] + RequestBefore(id) + Escape(token) + [QUOTE] + RequestAfter(operation)
    ensures Quiet(RequestBefore(id)) && Quiet(RequestAfter(operation)) && RequestAfter(operation)[0] == COMMA
  {
    LiteralsAreQuiet();
    UuidIsQuiet(id);
    QuietParts(REQUEST_HEAD[1..], Ascii(UuidText(id)), REQUEST_BEARER);
    QuietParts(REQUEST_OPERATION, operation, REQUEST_END);
    FirstApart(REQUEST_HEAD, Ascii(UuidText(id)), REQUEST_BEARER);
  }

  lemma QuietParts(a: Bytes, b: Bytes, c: Bytes)
    requires Quiet(a) && (Quiet(b) || PlainName(b)) && Quiet(c)
    ensures Quiet(a + b + c)
  {}

  lemma FirstApart(a: Bytes, b: Bytes, c: Bytes)
    requires a != []
    ensures a + b + c == [a[0]] + (a[1..] + b + c)
  {}

  // No request contains a zero byte.
  lemma RequestHasNoZero(operation: Bytes, id: Uuid, token: Bytes)
    requires PlainName(operation) && Graphic(token)
    ensures 0 !in RequestBytes(operation, id, token)
  {
    RequestShape(operation, id, token);
    forall i | 0 <= i < |Escape(token)| ensures Escape(token)[i] != 0 { EscapedQuotes(token, i); }
  }

  // The opening of a request occurs in a request at its start only: a brace inside the
  // token is never followed by a bare quote and an s.
  lemma OpeningIsFirst(operation: Bytes, id: Uuid, token: Bytes, o: nat)
    requires PlainName(operation) && Graphic(token) && o + 3 <= |RequestBytes(operation, id, token)|
    requires RequestBytes(operation, id, token)[o..o + 3] == REQUEST_OPENING
    ensures o == 0
  {
    RequestShape(operation, id, token);
    var p := RequestBytes(operation, id, token);
    assert p[o] == p[o..o + 3][0] == BRACE && p[o + 1] == p[o..o + 3][1] == QUOTE && p[o + 2] == p[o..o + 3][2] == 115;
    OpeningInParts(RequestBefore(id), token, RequestAfter(operation), o);
  }

  lemma OpeningInParts(before: Bytes, token: Bytes, after: Bytes, o: nat)
    requires Quiet(before) && Graphic(token) && Quiet(after) && after != [] && after[0] == COMMA
    requires o + 3 <= |[BRACE] + before + Escape(token) + [QUOTE] + after|
    requires var p := [BRACE] + before + Escape(token) + [QUOTE] + after;
             p[o] == BRACE && p[o + 1] == QUOTE && p[o + 2] == 115
    ensures o == 0
  {
    var (e, start) := (Escape(token), 1 + |before|);
    var p := [BRACE] + before + e + [QUOTE] + after;
    forall j | 1 <= j < start ensures p[j] != BRACE { assert p[j] == before[j - 1]; }
    forall j | start < j < start + |e| && p[j] == QUOTE ensures p[j - 1] == BACKSLASH {
      assert p[j] == e[j - start] && p[j - 1] == e[j - start - 1];
      EscapedQuotes(token, j - start);
    }
    forall j | start + |e| < j < |p| ensures p[j] != BRACE { assert p[j] == after[j - start - |e| - 1]; }
    assert p[start + |e|] == QUOTE && p[start + |e| + 1] == after[0];
  }

  // What a string reader took from a stream it takes from any longer stream.
  lemma {:induction false} ReadStringExtends(b: Bytes, more: Bytes)
    requires ReadString(b).Some?
    ensures ReadString(b + more) == Some((ReadString(b).value.0, ReadString(b).value.1 + more))
  {
    if b[0] == QUOTE {
      assert (b + more)[1..] == b[1..] + more;
    } else if b[0] == BACKSLASH {
      assert (b + more)[2..] == b[2..] + more;
      ReadStringExtends(b[2..], more);
    } else {
      assert (b + more)[1..] == b[1..] + more;
      ReadStringExtends(b[1..], more);
    }
  }

  // No request is a proper start of another.
  lemma RequestsArePrefixFree(operation: Bytes, id: Uuid, token: Bytes, id': Uuid, token': Bytes)
    requires RequestBytes(operation, id, token) <= RequestBytes(operation, id', token')
    ensures id == id' && token == token'
  {
    var p, p' := RequestBytes(operation, id, token), RequestBytes(operation, id', token');
    RequestParts(REQUEST_HEAD, REQUEST_BEARER, RequestAfter(operation), id, token);
    RequestParts(REQUEST_HEAD, REQUEST_BEARER, RequestAfter(operation), id', token');
    SamePartsOfPrefix(p, p', |REQUEST_HEAD|, |REQUEST_HEAD| + 36 + |REQUEST_BEARER|);
    UuidTextIsAscii(id, id');
  }

  // A start of a stream holds the same 36 bytes at n and the same string at k.
  lemma SamePartsOfPrefix(p: Bytes, p': Bytes, n: nat, k: nat)
    requires p <= p' && n + 36 <= k <= |p| && ReadString(p[k..]).Some?
    ensures p'[n..n + 36] == p[n..n + 36]
    ensures ReadString(p'[k..]).Some? && ReadString(p'[k..]).value.0 == ReadString(p[k..]).value.0
  {
    assert p'[k..] == p[k..] + p'[|p|..];
    ReadStringExtends(p[k..], p'[|p|..]);
  }

  // A request found anywhere inside a request is that request.
  lemma RequestInsideRequest(operation: Bytes, id: Uuid, token: Bytes, id': Uuid, token': Bytes, o: nat)
    requires PlainName(operation) && Graphic(token')
    requires var (p, p') := (RequestBytes(operation, id, token), RequestBytes(operation, id', token'));
             o + |p| <= |p'| && p'[o..o + |p|] == p
    ensures o == 0 && id == id' && token == token'
  {
    var p, p' := RequestBytes(operation, id, token), RequestBytes(operation, id', token');
    assert p[..3] == REQUEST_OPENING by { RequestOpens(operation, id, token); }
    assert p'[o..o + 3] == p'[o..o + |p|][..3];
    OpeningIsFirst(operation, id', token', o);
    assert p'[0..|p|] == p'[..|p|];
    RequestsArePrefixFree(operation, id, token, id', token');
  }

  lemma RequestOpens(operation: Bytes, id: Uuid, token: Bytes)
    ensures |RequestBytes(operation, id, token)| > 3 && RequestBytes(operation, id, token)[..3] == REQUEST_OPENING
  {}

  // --- Requests as JSON -----------------------------------------------------

  // Reads the members of a JSON object of strings, up to its closing brace.
  function ReadMembers(b: Bytes): Option<seq<(Bytes, Bytes)>>
    decreases |b|
  {
    if b == [] || b[0] != '"' as int then None
    else match ReadString(b[1..])
      case None => None
      case Some((name, r)) =>
        if |r| < 2 || r[0] != ':' as int || r[1] != '"' as int then None
        else match ReadString(r[2..])
          case None => None
          case Some((value, rest)) =>
            if rest == ['}' as int] then Some([(name, value)])
            else if rest == [] || rest[0] != ',' as int then None
            else match ReadMembers(rest[1..])
              case None => None
              case Some(more) => Some([(name, value)] + more)
  }

  function ReadObject(b: Bytes): Option<seq<(Bytes, Bytes)>> {
    if b == [] || b[0] != '{' as int then None else ReadMembers(b[1..])
  }

  predicate Unquoted(b: Bytes) { forall i :: 0 <= i < |b| ==> b[i] != QUOTE && b[i] != BACKSLASH }

  lemma {:induction false} UnquotedReads(b: Bytes, rest: Bytes)
    requires Unquoted(b)
    ensures ReadString(b + [QUOTE] + rest) == Some((b, rest))
  {
    var s := b + [QUOTE] + rest;
    if b == [] {
      assert s[1..] == rest;
    } else {
      assert s[1..] == b[1..] + [QUOTE] + rest;
      UnquotedReads(b[1..], rest);
      assert [b[0]] + b[1..] == b;
    }
  }

  // The bytes of an object's members, each a name and a value, up to its closing brace.
  function MembersBytes(members: seq<(string, Bytes)>): Bytes
    requires members != []
  {
    Key(members[0].0) + Escape(members[0].1) + [QUOTE]
    + if |members| == 1 then [CLOSING_BRACE] else [COMMA] + MembersBytes(members[1..])
  }

  function Named(members: seq<(string, Bytes)>): (ms: seq<(Bytes, Bytes)>)
    ensures |ms| == |members| && forall i :: 0 <= i < |ms| ==> ms[i] == (Ascii(members[i].0), members[i].1)
  {
    seq(|members|, i requires 0 <= i < |members| => (Ascii(members[i].0), members[i].1))
  }

  lemma KeyReads(name: string, more: Bytes)
    requires Unquoted(Ascii(name))
    ensures var b := Key(name) + more;
            b[0] == QUOTE && ReadString(b[1..]) == Some((Ascii(name), [COLON, QUOTE] + more))
  {
    var b := Key(name) + more;
    assert b[1..] == Ascii(name) + [QUOTE] + ([COLON, QUOTE] + more);
    UnquotedReads(Ascii(name), [COLON, QUOTE] + more);
  }

  lemma MemberIsRead(b: Bytes, name: Bytes, after: Bytes, value: Bytes, rest: Bytes)
    requires b != [] && b[0] == QUOTE && ReadString(b[1..]) == Some((name, after))
    requires |after| >= 2 && after[0] == COLON && after[1] == QUOTE && ReadString(after[2..]) == Some((value, rest))
    ensures rest == [CLOSING_BRACE] ==> ReadMembers(b) == Some([(name, value)])
    ensures rest != [] && rest[0] == COMMA && ReadMembers(rest[1..]).Some? ==>
              ReadMembers(b) == Some([(name, value)] + ReadMembers(rest[1..]).value)
  {}

  // A member is read, and then what follows its comma, if anything.
  lemma MemberReads(name: string, value: Bytes, rest: Bytes)
    requires Unquoted(Ascii(name))
    ensures var b := Key(name) + (Escape(value) + [QUOTE] + rest);
            && (rest == [CLOSING_BRACE] ==> ReadMembers(b) == Some([(Ascii(name), value)]))
            && (rest != [] && rest[0] == COMMA && ReadMembers(rest[1..]).Some? ==>
                  ReadMembers(b) == Some([(Ascii(name), value)] + ReadMembers(rest[1..]).value))
  {
    var text := Escape(value) + [QUOTE] + rest;
    KeyReads(name, text);
    EscapeReadsBack(value, rest);
    assert ([COLON, QUOTE] + text)[2..] == text;
    MemberIsRead(Key(name) + text, Ascii(name), [COLON, QUOTE] + text, value, rest);
  }

  lemma {:induction false} MembersRead(members: seq<(string, Bytes)>)
    requires members != [] && forall i :: 0 <= i < |members| ==> Unquoted(Ascii(members[i].0))
    ensures ReadMembers(MembersBytes(members)) == Some(Named(members))
  {
    var (name, value) := members[0];
    if |members| == 1 {
      MemberReads(name, value, [CLOSING_BRACE]);
      Regrouped(Key(name), Escape(value), [QUOTE], [CLOSING_BRACE]);
      assert Named(members) == [(Ascii(name), value)];
    } else {
      var rest := [COMMA] + MembersBytes(members[1..]);
      MembersRead(members[1..]);
      assert rest[1..] == MembersBytes(members[1..]);
      MemberReads(name, value, rest);
      Regrouped(Key(name), Escape(value), [QUOTE], rest);
      assert Named(members) == [(Ascii(name), value)] + Named(members[1..]);
    }
  }

  lemma Regrouped(a: Bytes, b: Bytes, c: Bytes, d: Bytes)
    ensures a + b + c + d == a + (b + c + d)
  {}

  lemma {:induction false} UnquotedEscape(b: Bytes)
    requires Unquoted(b)
    ensures Escape(b) == b
  {
    if b != [] {
      UnquotedEscape(b[1..]);
      assert [b[0]] + b[1..] == b;
    }
  }

  predicate UnquotedText(s: string) { forall i :: 0 <= i < |s| ==> s[i] != '"' && s[i] != '\\' }

  lemma UnquotedAscii(s: string)
    requires UnquotedText(s)
    ensures Unquoted(Ascii(s))
  {
    forall i | 0 <= i < |s| ensures Ascii(s)[i] != QUOTE && Ascii(s)[i] != BACKSLASH {
      assert s[i] as int != '"' as int && s[i] as int != '\\' as int;
    }
  }

  lemma {:induction false} HexIsUnquoted(bs: Bytes)
    ensures UnquotedText(Hex(bs))
  {
    if bs != [] { HexIsUnquoted(bs[1..]); }
  }

  lemma UuidIsUnquoted(id: Uuid)
    ensures Unquoted(Ascii(UuidText(id)))
  {
    forall bs: Bytes ensures UnquotedText(Hex(bs)) { HexIsUnquoted(bs); }
    UnquotedAscii(UuidText(id));
  }

  // The four members of a request.
  function RequestMembers(operation: Bytes, id: Uuid, token: Bytes): seq<(string, Bytes)> {
    [("schema", Ascii(REQUEST_SCHEMA)), ("operation_id", Ascii(UuidText(id))),
     ("bearer_token", token), ("operation", operation)]
  }

  // Four members, one after the other.
  lemma FourMembers(a: (string, Bytes), b: (string, Bytes), c: (string, Bytes), d: (string, Bytes))
    ensures MembersBytes([a, b, c, d])
            == Key(a.0) + Escape(a.1) + [QUOTE]
               + ([COMMA] + (Key(b.0) + Escape(b.1) + [QUOTE]
               + ([COMMA] + (Key(c.0) + Escape(c.1) + [QUOTE]
               + ([COMMA] + (Key(d.0) + Escape(d.1) + [QUOTE] + [CLOSING_BRACE]))))))
  {
    assert [a, b, c, d][1..] == [b, c, d] && [b, c, d][1..] == [c, d] && [c, d][1..] == [d];
    assert MembersBytes([d]) == Key(d.0) + Escape(d.1) + [QUOTE] + [CLOSING_BRACE];
    assert MembersBytes([c, d]) == Key(c.0) + Escape(c.1) + [QUOTE] + ([COMMA] + MembersBytes([d]));
    assert MembersBytes([b, c, d]) == Key(b.0) + Escape(b.1) + [QUOTE] + ([COMMA] + MembersBytes([c, d]));
  }

  lemma Flattened(k1: Bytes, v1: Bytes, k2: Bytes, v2: Bytes, k3: Bytes, v3: Bytes, k4: Bytes, v4: Bytes)
    ensures ([BRACE] + k1 + v1 + [QUOTE, COMMA] + k2) + v2 + ([QUOTE, COMMA] + k3) + v3 + [QUOTE]
            + ([COMMA] + k4 + v4 + [QUOTE, CLOSING_BRACE])
            == [BRACE] + (k1 + v1 + [QUOTE] + ([COMMA] + (k2 + v2 + [QUOTE] + ([COMMA] + (k3 + v3 + [QUOTE]
               + ([COMMA] + (k4 + v4 + [QUOTE] + [CLOSING_BRACE])))))))
  {}

  // A request is the JSON object of its schema, its id, its bearer and its operation.
  lemma RequestIsJson(operation: Bytes, id: Uuid, token: Bytes)
    requires PlainName(operation)
    ensures ReadObject(RequestBytes(operation, id, token))
            == Some([(Ascii("schema"), Ascii("happy-wakey.service-operation" + ".request.v1")),
                     (Ascii("operation_id"), Ascii(UuidText(id))),
                     (Ascii("bearer_token"), token),
                     (Ascii("operation"), operation)])
  {
    RequestIsMembers(operation, id, token);
    ReadsMembers(operation, id, token);
    var members := RequestMembers(operation, id, token);
    assert ([BRACE] + MembersBytes(members))[1..] == MembersBytes(members);
  }

  lemma ReadsMembers(operation: Bytes, id: Uuid, token: Bytes)
    ensures ReadMembers(MembersBytes(RequestMembers(operation, id, token)))
            == Some([(Ascii("schema"), Ascii(REQUEST_SCHEMA)), (Ascii("operation_id"), Ascii(UuidText(id))),
                     (Ascii("bearer_token"), token), (Ascii("operation"), operation)])
  {
    var members := RequestMembers(operation, id, token);
    UnquotedAscii("schema");
    UnquotedAscii("operation_id");
    UnquotedAscii("bearer_token");
    UnquotedAscii("operation");
    MembersRead(members);
    assert Named(members)
           == [(Ascii("schema"), Ascii(REQUEST_SCHEMA)), (Ascii("operation_id"), Ascii(UuidText(id))),
               (Ascii("bearer_token"), token), (Ascii("operation"), operation)];
  }

  lemma RequestIsMembers(operation: Bytes, id: Uuid, token: Bytes)
    requires PlainName(operation)
    ensures RequestBytes(operation, id, token) == [BRACE] + MembersBytes(RequestMembers(operation, id, token))
  {
    var (schema, text) := (Ascii(REQUEST_SCHEMA), Ascii(UuidText(id)));
    UnquotedAscii(REQUEST_SCHEMA);
    UuidIsUnquoted(id);
    UnquotedEscape(schema); UnquotedEscape(text); UnquotedEscape(operation);
    FourMembers(("schema", schema), ("operation_id", text), ("bearer_token", token), ("operation", operation));
    Flattened(Key("schema"), schema, Key("operation_id"), text, Key("bearer_token"), Escape(token),
              Key("operation"), operation);
  }
}
