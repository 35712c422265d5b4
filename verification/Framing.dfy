/** Length-delimited frames: a 4-byte big-endian length followed by the payload. */
module Framing {
  import opened Wrappers

  type byte = x: int | 0 <= x < 256
  type Bytes = seq<byte>

  const U32_LIMIT: int := 0x1_0000_0000

  // A message whose length fits the u32 header.
  type Payload = p: Bytes | |p| < 0x1_0000_0000

  const MAX_REQUEST_BYTES: nat := 32 * 1024
  const MAX_RESPONSE_BYTES: nat := 900 * 1024

  function Be32(n: nat): (header: Bytes)
    requires n < U32_LIMIT
    ensures |header| == 4
  {
    [n / 0x100_0000, n / 0x1_0000 % 0x100, n / 0x100 % 0x100, n % 0x100]
  }

  function FromBe32(header: Bytes): (n: nat)
    requires |header| == 4
    ensures n < U32_LIMIT
  {
    var (a: int, b: int, c: int, d: int) := (header[0], header[1], header[2], header[3]);
    a * 0x100_0000 + b * 0x1_0000 + c * 0x100 + d
  }

  lemma Be32RoundTrip(n: nat)
    requires n < U32_LIMIT
    ensures FromBe32(Be32(n)) == n
  {
    var q1 := n / 0x100;
    var q2 := q1 / 0x100;
    var q3 := q2 / 0x100;
    assert n / 0x1_0000 == q2 && n / 0x100_0000 == q3;
  }

  function Frame(p: Payload): (f: Bytes)
    ensures |f| == 4 + |p| && f[4..] == p
  {
    Be32(|p|) + p
  }

  function Frames(ps: seq<Payload>): Bytes {
    if ps == [] then [] else Frame(ps[0]) + Frames(ps[1..])
  }

  // What an exact read of one header and then one body yields from these bytes.
  function NextFrame(b: Bytes): Option<Payload> {
    if |b| < 4 || |b| < 4 + FromBe32(b[..4]) then None
    else Some(b[4..4 + FromBe32(b[..4])])
  }

  // Reads whole frames for as long as one is complete; the rest stays unread.
  function Deframe(b: Bytes): (r: (seq<Payload>, Bytes))
    decreases |b|
  {
    match NextFrame(b)
    case None => ([], b)
    case Some(p) =>
      var (ps, rest) := Deframe(b[4 + |p|..]);
      ([p] + ps, rest)
  }

  lemma FrameHeader(p: Payload, tail: Bytes)
    ensures |Frame(p) + tail| >= 4
    ensures FromBe32((Frame(p) + tail)[..4]) == |p|
  {
    Be32RoundTrip(|p|);
    assert (Frame(p) + tail)[..4] == Be32(|p|);
  }

  lemma NextOfFrame(p: Payload, tail: Bytes)
    ensures NextFrame(Frame(p) + tail) == Some(p)
    ensures (Frame(p) + tail)[4 + |p|..] == tail
  {
    FrameHeader(p, tail);
    assert (Frame(p) + tail)[4..4 + |p|] == p;
  }

  // A strict prefix of a frame is never taken for a frame.
  lemma PartialFrame(p: Payload, n: nat)
    requires n < |Frame(p)|
    ensures NextFrame(Frame(p)[..n]) == None
  {
    if n >= 4 {
      FrameHeader(p, []);
      assert Frame(p) + [] == Frame(p);
      assert Frame(p)[..n][..4] == Frame(p)[..4];
    }
  }

  // Bytes that start a frame and have its announced length are that frame.
  lemma FrameAgrees(got: Bytes, p: Payload, tail: Bytes)
    requires 4 <= |got| && got <= Frame(p) + tail
    ensures FromBe32(got[..4]) == |p|
    ensures |got| == 4 + |p| ==> got == Frame(p) && got[4..] == p
  {
    FrameHeader(p, tail);
    assert got[..4] == (Frame(p) + tail)[..4];
    if |got| == 4 + |p| {
      assert got == (Frame(p) + tail)[..|got|] == Frame(p);
    }
  }

  lemma {:induction false} FramesConcat(a: seq<Payload>, b: seq<Payload>)
    ensures Frames(a + b) == Frames(a) + Frames(b)
  {
    if a == [] {
      assert a + b == b;
    } else {
      assert (a + b)[1..] == a[1..] + b;
      FramesConcat(a[1..], b);
    }
  }

  lemma FramesSnoc(ps: seq<Payload>, p: Payload)
    ensures Frames(ps + [p]) == Frames(ps) + Frame(p)
  {
    FramesConcat(ps, [p]);
    assert Frames([p]) == Frame(p) + Frames([]) == Frame(p);
  }

  lemma FramesFrom(ps: seq<Payload>, k: nat)
    requires k < |ps|
    ensures Frames(ps[k..]) == Frame(ps[k]) + Frames(ps[k + 1..])
  {
    assert ps[k..][1..] == ps[k + 1..];
  }

  lemma FramesSplit(ps: seq<Payload>, k: nat)
    requires k <= |ps|
    ensures Frames(ps) == Frames(ps[..k]) + Frames(ps[k..])
  {
    FramesJoin(ps[..k], ps[k..], ps);
  }

  lemma FramesJoin(a: seq<Payload>, b: seq<Payload>, whole: seq<Payload>)
    requires whole == a + b
    ensures Frames(whole) == Frames(a) + Frames(b)
  {
    FramesConcat(a, b);
  }

  // Framing round trip: exact reads recover the payloads and leave a partial
  // trailing frame unread.
  lemma {:induction false} DeframeInvertsFrames(ps: seq<Payload>, tail: Bytes)
    requires NextFrame(tail) == None
    ensures Deframe(Frames(ps) + tail) == (ps, tail)
  {
    if ps == [] {
      assert Frames(ps) + tail == tail;
    } else {
      var b := Frames(ps[1..]) + tail;
      assert Frames(ps) + tail == Frame(ps[0]) + b;
      NextOfFrame(ps[0], b);
      DeframeInvertsFrames(ps[1..], tail);
      assert [ps[0]] + ps[1..] == ps;
    }
  }

  // ... and nothing else can be read: every byte stream splits in one way only.
  lemma {:induction false} FramesInvertDeframe(b: Bytes)
    ensures Frames(Deframe(b).0) + Deframe(b).1 == b
    ensures NextFrame(Deframe(b).1) == None
    decreases |b|
  {
    match NextFrame(b)
    case None =>
    case Some(p) =>
      var d := Deframe(b[4 + |p|..]);
      FramesInvertDeframe(b[4 + |p|..]);
      FrameOfPrefix(b, p);
      FramesCons(b, p, d.0, d.1);
  }

  lemma FramesCons(b: Bytes, p: Payload, ps: seq<Payload>, rest: Bytes)
    requires 4 + |p| <= |b| && Frame(p) == b[..4 + |p|] && Frames(ps) + rest == b[4 + |p|..]
    ensures Frames([p] + ps) + rest == b
  {
    assert ([p] + ps)[1..] == ps;
    assert Frames([p] + ps) + rest == Frame(p) + (Frames(ps) + rest);
  }

  lemma FrameOfPrefix(b: Bytes, p: Payload)
    requires NextFrame(b) == Some(p)
    ensures Frame(p) == b[..4 + |p|]
  {
    HeaderOf(b[..4]);
    assert b[..4 + |p|] == b[..4] + b[4..4 + |p|];
  }

  lemma HeaderOf(h: Bytes)
    requires |h| == 4
    ensures Be32(FromBe32(h)) == h
  {
    var n := FromBe32(h);
    var a: int, b: int, c: int, d: int := h[0], h[1], h[2], h[3];
    var q2 := a * 0x100 + b;
    var q1 := q2 * 0x100 + c;
    assert n == q1 * 0x100 + d;
    assert n / 0x100 == q1 && q1 / 0x100 == q2 && q2 / 0x100 == a;
    assert n / 0x1_0000 == q2 && n / 0x100_0000 == a;
  }
}
