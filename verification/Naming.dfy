/** Operation ids, the names derived from them, and NATS subject matching. */
module Naming {
  import opened Framing

  // The 128 bits of an operation id, most significant byte first.
  type Uuid = u: Bytes | |u| == 16 witness seq(16, _ => 0)

  const ASYNC_REQUEST_SUBJECT: string := "dd.remote.web_api.happy-wakey.request"
  const ASYNC_RESPONSE_PREFIX: string := "happy-wakey.responses"
  const MESSAGE_ID_PREFIX: string := "happy-wakey-request-"

  function HexDigit(n: int): (c: char)
    requires 0 <= n < 16
    ensures c != '-' && c != '.' && c != '*' && c != '>'
  {
    if n < 10 then '0' + n as char else 'a' + (n - 10) as char
  }

  function HexValue(c: char): int {
    if '0' <= c <= '9' then c as int - '0' as int
    else if 'a' <= c <= 'f' then c as int - 'a' as int + 10
    else 0
  }

  // Lower-case hexadecimal, two digits a byte.
  function Hex(bs: Bytes): (s: string)
    ensures |s| == 2 * |bs|
    ensures forall c :: c in s ==> c != '-' && c != '.' && c != '*' && c != '>'
  {
    if bs == [] then [] else [HexDigit(bs[0] as int / 16), HexDigit(bs[0] as int % 16)] + Hex(bs[1..])
  }

  // The text form of RFC 9562, section 4: 8-4-4-4-12 lower-case digits.
  function UuidText(u: Uuid): (s: string)
    ensures |s| == 36
    ensures '.' !in s && '*' !in s && '>' !in s
  {
    Hex(u[..4]) + "-" + Hex(u[4..6]) + "-" + Hex(u[6..8]) + "-" + Hex(u[8..10]) + "-" + Hex(u[10..])
  }

  function Unhex(s: string): (bs: Bytes)
    ensures 2 * |bs| <= |s| < 2 * |bs| + 2
  {
    if |s| < 2 then [] else [HexValue(s[0]) * 16 + HexValue(s[1])] + Unhex(s[2..])
  }

  function ParseUuid(s: string): (u: Uuid)
    requires |s| == 36
  {
    Unhex(s[..8]) + Unhex(s[9..13]) + Unhex(s[14..18]) + Unhex(s[19..23]) + Unhex(s[24..])
  }

  lemma {:induction false} UnhexInvertsHex(bs: Bytes)
    ensures Unhex(Hex(bs)) == bs
  {
    if bs != [] {
      assert Hex(bs)[2..] == Hex(bs[1..]);
      UnhexInvertsHex(bs[1..]);
    }
  }

  lemma GroupsOf(s: string, a: string, b: string, c: string, d: string, e: string)
    requires |a| == 8 && |b| == |c| == |d| == 4 && |e| == 12
    requires s == a + "-" + b + "-" + c + "-" + d + "-" + e
    ensures |s| == 36 && s[..8] == a && s[9..13] == b && s[14..18] == c && s[19..23] == d && s[24..] == e
  {}

  lemma ParseInvertsText(u: Uuid)
    ensures ParseUuid(UuidText(u)) == u
  {
    var (a, b, c, d, e) := (u[..4], u[4..6], u[6..8], u[8..10], u[10..]);
    GroupsOf(UuidText(u), Hex(a), Hex(b), Hex(c), Hex(d), Hex(e));
    UnhexInvertsHex(a); UnhexInvertsHex(b); UnhexInvertsHex(c); UnhexInvertsHex(d); UnhexInvertsHex(e);
    assert a + b + c + d + e == u;
  }

  function ResponseSubject(u: Uuid): string {
    ASYNC_RESPONSE_PREFIX + "." + UuidText(u)
  }

  function MessageId(u: Uuid): string {
    MESSAGE_ID_PREFIX + UuidText(u)
  }

  // Distinct operations never share a printed id, a response subject or a message id.
  lemma NamesAreInjective(u: Uuid, v: Uuid)
    requires u != v
    ensures UuidText(u) != UuidText(v)
    ensures ResponseSubject(u) != ResponseSubject(v)
    ensures MessageId(u) != MessageId(v)
  {
    ParseInvertsText(u);
    ParseInvertsText(v);
    var n := |ASYNC_RESPONSE_PREFIX| + 1;
    assert ResponseSubject(u)[n..] == UuidText(u) && ResponseSubject(v)[n..] == UuidText(v);
    var k := |MESSAGE_ID_PREFIX|;
    assert MessageId(u)[k..] == UuidText(u) && MessageId(v)[k..] == UuidText(v);
  }

  // --- Subjects as dot-separated tokens -------------------------------------

  function Tokens(s: string): (ts: seq<string>)
    ensures |ts| >= 1
  {
    if s == "" then [""]
    else
      var rest := Tokens(s[1..]);
      if s[0] == '.' then [""] + rest else [[s[0]] + rest[0]] + rest[1..]
  }

  function Join(ts: seq<string>): string
    requires |ts| >= 1
  {
    if |ts| == 1 then ts[0] else ts[0] + "." + Join(ts[1..])
  }

  lemma {:induction false} TokensOfDotless(s: string)
    requires '.' !in s
    ensures Tokens(s) == [s]
  {
    if s != "" {
      TokensOfDotless(s[1..]);
      assert [s[0]] + s[1..] == s;
    }
  }

  lemma {:induction false} TokensOfConcat(a: string, b: string)
    ensures Tokens(a + "." + b) == Tokens(a) + Tokens(b)
  {
    var s := a + "." + b;
    if a == "" {
      assert s[1..] == b;
    } else {
      assert s[1..] == a[1..] + "." + b;
      TokensOfConcat(a[1..], b);
    }
  }

  lemma {:induction false} JoinInvertsTokens(s: string)
    ensures Join(Tokens(s)) == s
  {
    if s != "" {
      JoinInvertsTokens(s[1..]);
      var rest := Tokens(s[1..]);
      if s[0] == '.' {
        assert ([""] + rest)[1..] == rest;
      } else if |rest| > 1 {
        assert ([[s[0]] + rest[0]] + rest[1..])[1..] == rest[1..];
      }
    }
  }

  lemma JoinOfThree(a: string, b: string, c: string)
    ensures Join([a, b, c]) == a + "." + b + "." + c
  {
    assert [a, b, c][1..] == [b, c] && [b, c][1..] == [c];
    assert Join([b, c]) == b + "." + Join([c]) == b + "." + c;
    assert Join([a, b, c]) == a + "." + (b + "." + c) == a + "." + b + "." + c;
  }

  lemma {:induction false} TokensAreDotless(s: string)
    ensures forall t :: t in Tokens(s) ==> '.' !in t
  {
    if s != "" {
      TokensAreDotless(s[1..]);
    }
  }

  // A `*` token stands for exactly one non-empty token.
  predicate Covers(pattern: string, subject: string) {
    var (ps, ss) := (Tokens(pattern), Tokens(subject));
    |ps| == |ss| && forall i :: 0 <= i < |ps| ==> if ps[i] == "*" then ss[i] != "" else ps[i] == ss[i]
  }

  const RESPONSE_WILDCARD: string := ASYNC_RESPONSE_PREFIX + ".*"

  lemma TwoTokens(a: string, b: string, s: string)
    requires '.' !in a && '.' !in b && s == a + "." + b
    ensures Tokens(s) == [a, b]
  {
    TokensOfConcat(a, b);
    TokensOfDotless(a);
    TokensOfDotless(b);
  }

  lemma PrefixSplits()
    ensures Tokens(ASYNC_RESPONSE_PREFIX) == ["happy-wakey", "responses"]
  {
    TwoTokens("happy-wakey", "responses", ASYNC_RESPONSE_PREFIX);
  }

  lemma PrefixTokens(t: string)
    requires '.' !in t
    ensures Tokens(ASYNC_RESPONSE_PREFIX + "." + t) == ["happy-wakey", "responses", t]
  {
    PrefixSplits();
    TokensOfConcat(ASYNC_RESPONSE_PREFIX, t);
    TokensOfDotless(t);
  }

  lemma WildcardTokens()
    ensures Tokens(RESPONSE_WILDCARD) == ["happy-wakey", "responses", "*"]
  {
    assert RESPONSE_WILDCARD == ASYNC_RESPONSE_PREFIX + "." + "*";
    PrefixTokens("*");
  }

  lemma ThreeTokens(s: string, a: string, b: string, c: string)
    requires Tokens(s) == [a, b, c]
    ensures s == a + "." + b + "." + c && '.' !in c
  {
    TokensAreDotless(s);
    assert c == Tokens(s)[2];
    JoinInvertsTokens(s);
    JoinOfThree(a, b, c);
  }

  lemma CoveredTokens(subject: string) returns (t: string)
    requires Covers(RESPONSE_WILDCARD, subject)
    ensures t != "" && Tokens(subject) == ["happy-wakey", "responses", t]
  {
    WildcardTokens();
    t := Tokens(subject)[2];
  }

  lemma CoveredHasOneToken(subject: string) returns (t: string)
    requires Covers(RESPONSE_WILDCARD, subject)
    ensures t != "" && '.' !in t && subject == ASYNC_RESPONSE_PREFIX + "." + t
  {
    t := CoveredTokens(subject);
    ThreeTokens(subject, "happy-wakey", "responses", t);
    assert ASYNC_RESPONSE_PREFIX == "happy-wakey" + "." + "responses";
  }

  lemma OneTokenIsCovered(t: string)
    requires t != "" && '.' !in t
    ensures Covers(RESPONSE_WILDCARD, ASYNC_RESPONSE_PREFIX + "." + t)
  {
    WildcardTokens();
    PrefixTokens(t);
  }

  // The wildcard a response stream must carry matches a subject exactly when
  // the subject is the prefix and one further token.
  lemma WildcardCoversOneToken(subject: string)
    ensures Covers(RESPONSE_WILDCARD, subject)
            <==> exists t: string :: t != "" && '.' !in t && subject == ASYNC_RESPONSE_PREFIX + "." + t
  {
    if Covers(RESPONSE_WILDCARD, subject) { var t := CoveredHasOneToken(subject); }
    forall t: string | t != "" && '.' !in t && subject == ASYNC_RESPONSE_PREFIX + "." + t
      ensures Covers(RESPONSE_WILDCARD, subject)
    {
      OneTokenIsCovered(t);
    }
  }

  lemma ResponseSubjectIsCovered(u: Uuid)
    ensures Covers(RESPONSE_WILDCARD, ResponseSubject(u))
  {
    WildcardCoversOneToken(ResponseSubject(u));
    var t := UuidText(u);
    assert t != "" && '.' !in t && ResponseSubject(u) == ASYNC_RESPONSE_PREFIX + "." + t;
  }
}
