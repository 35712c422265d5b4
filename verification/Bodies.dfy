/** Bounded reading of HTTP bodies that arrive in chunks. */
module Bodies {
  import opened Wrappers
  import opened Framing
  import opened Service

  const MAX_INTROSPECTION_RESPONSE_BYTES: nat := 64 * 1024
  const USIZE_MAX: nat := 0xFFFF_FFFF_FFFF_FFFF

  // What a body stream yields: a chunk or a transport error.
  type Item = Result<Bytes, ()>

  const TOO_LARGE: WebError := Contract("response exceeded its byte limit")

  function CheckedAdd(a: nat, b: nat): Option<nat> {
    if a + b <= USIZE_MAX then Some(a + b) else None
  }

  // A growable buffer, extended in place.
  class BytesMut {
    var data: Bytes

    constructor ()
      ensures data == []
    {
      data := [];
    }

    method ExtendFromSlice(chunk: Bytes)
      modifies this
      ensures data == old(data) + chunk
    {
      data := data + chunk;
    }
  }

  // --- Reference semantics --------------------------------------------------

  predicate AllChunks(items: seq<Item>) { forall i :: 0 <= i < |items| ==> items[i].Ok? }

  function Concat(items: seq<Item>): Bytes
    requires AllChunks(items)
  {
    if items == [] then [] else Concat(items[..|items| - 1]) + items[|items| - 1].value
  }

  // Reading stops at item i: everything before it fits, and it is an error or too much.
  predicate StopsAt(items: seq<Item>, i: int, limit: nat) {
    && 0 <= i < |items| && AllChunks(items[..i]) && |Concat(items[..i])| <= limit
    && (items[i].Ok? ==> |Concat(items[..i])| + |items[i].value| > limit)
  }

  // The body is the whole concatenation when it fits, otherwise the first problem in
  // stream order decides; a declared length over the limit decides beforehand.
  ghost predicate Outcome(declared: Option<nat>, items: seq<Item>, limit: nat,
                          tooLarge: WebError, broken: WebError, r: Result<Bytes, WebError>) {
    if declared.Some? && declared.value > limit then r == Err(tooLarge)
    else match r
      case Ok(body) => AllChunks(items) && body == Concat(items) && |body| <= limit
      case Err(e) => exists i :: StopsAt(items, i, limit) && e == if items[i].Ok? then tooLarge else broken
  }

  // --- The code -------------------------------------------------------------

  method ExtendBounded(buffer: BytesMut, chunk: Bytes) returns (r: Result<(), WebError>)
    modifies buffer
    ensures r == if |old(buffer.data)| + |chunk| <= MAX_RESPONSE_BYTES then Ok(()) else Err(TOO_LARGE)
    ensures buffer.data == if r.Ok? then old(buffer.data) + chunk else old(buffer.data)
  {
    var next := CheckedAdd(|buffer.data|, |chunk|);
    if next.None? { return Err(TOO_LARGE); }
    if next.value > MAX_RESPONSE_BYTES { return Err(TOO_LARGE); }
    buffer.ExtendFromSlice(chunk);
    r := Ok(());
  }

  lemma ConcatSnoc(items: seq<Item>, i: nat)
    requires i < |items| && AllChunks(items[..i + 1])
    ensures AllChunks(items[..i]) && items[i].Ok?
    ensures Concat(items[..i + 1]) == Concat(items[..i]) + items[i].value
  {
    var taken := items[..i + 1];
    assert taken[..|taken| - 1] == items[..i];
    forall j | 0 <= j < i ensures items[..i][j].Ok? { assert items[..i][j] == taken[j]; }
    assert taken[i].Ok?;
  }

  lemma AllChunksSnoc(items: seq<Item>, i: nat)
    requires i < |items| && AllChunks(items[..i]) && items[i].Ok?
    ensures AllChunks(items[..i + 1])
  {
    assert items[..i + 1] == items[..i] + [items[i]];
  }

  method BoundedBody(declared: Option<nat>, items: seq<Item>) returns (r: Result<Bytes, WebError>)
    ensures Outcome(declared, items, MAX_RESPONSE_BYTES, TOO_LARGE, ApiUnavailable, r)
  {
    if declared.Some? && declared.value > MAX_RESPONSE_BYTES { return Err(TOO_LARGE); }
    var bytes := new BytesMut();
    for i := 0 to |items|
      invariant AllChunks(items[..i]) && bytes.data == Concat(items[..i]) && |bytes.data| <= MAX_RESPONSE_BYTES
    {
      match items[i]
      case Err(_) =>
        assert StopsAt(items, i, MAX_RESPONSE_BYTES);
        return Err(ApiUnavailable);
      case Ok(chunk) =>
        var extended := ExtendBounded(bytes, chunk);
        if extended.Err? {
          assert StopsAt(items, i, MAX_RESPONSE_BYTES);
          return Err(extended.error);
        }
        AllChunksSnoc(items, i);
        ConcatSnoc(items, i);
    }
    assert items[..|items|] == items;
    r := Ok(bytes.data);
  }

  method BoundedAuthBody(declared: Option<nat>, items: seq<Item>) returns (r: Result<Bytes, WebError>)
    ensures Outcome(declared, items, MAX_INTROSPECTION_RESPONSE_BYTES, AuthUnavailable, AuthUnavailable, r)
  {
    if declared.Some? && declared.value > MAX_INTROSPECTION_RESPONSE_BYTES { return Err(AuthUnavailable); }
    var bytes := new BytesMut();
    for i := 0 to |items|
      invariant AllChunks(items[..i]) && bytes.data == Concat(items[..i])
      invariant |bytes.data| <= MAX_INTROSPECTION_RESPONSE_BYTES
    {
      if items[i].Err? {
        assert StopsAt(items, i, MAX_INTROSPECTION_RESPONSE_BYTES);
        return Err(AuthUnavailable);
      }
      var next := CheckedAdd(|bytes.data|, |items[i].value|);
      if next.None? || next.value > MAX_INTROSPECTION_RESPONSE_BYTES {
        assert StopsAt(items, i, MAX_INTROSPECTION_RESPONSE_BYTES);
        return Err(AuthUnavailable);
      }
      bytes.ExtendFromSlice(items[i].value);
      AllChunksSnoc(items, i);
      ConcatSnoc(items, i);
    }
    assert items[..|items|] == items;
    r := Ok(bytes.data);
  }

  // --- What the outcome depends on ------------------------------------------

  lemma {:induction false} PrefixConcat(items: seq<Item>, i: nat)
    requires AllChunks(items) && i <= |items|
    ensures AllChunks(items[..i]) && |Concat(items[..i])| <= |Concat(items)|
    decreases |items| - i
  {
    if i == |items| {
      assert items[..i] == items;
    } else {
      PrefixConcat(items, i + 1);
      ConcatSnoc(items, i);
    }
  }

  lemma StopMeansTooLarge(items: seq<Item>, i: nat, limit: nat)
    requires AllChunks(items) && StopsAt(items, i, limit)
    ensures items[i].Ok? && |Concat(items)| > limit
  {
    PrefixConcat(items, i + 1);
    ConcatSnoc(items, i);
  }

  // Without transport errors a read succeeds exactly when the whole body fits.
  lemma FitsExactly(declared: Option<nat>, items: seq<Item>, limit: nat,
                    tooLarge: WebError, broken: WebError, r: Result<Bytes, WebError>)
    requires AllChunks(items) && (declared.Some? ==> declared.value == |Concat(items)|)
    requires Outcome(declared, items, limit, tooLarge, broken, r)
    ensures r == if |Concat(items)| <= limit then Ok(Concat(items)) else Err(tooLarge)
  {
    if r.Err? && !(declared.Some? && declared.value > limit) {
      var i :| StopsAt(items, i, limit) && r.error == if items[i].Ok? then tooLarge else broken;
      StopMeansTooLarge(items, i, limit);
    }
  }

  // Neither the chunking nor a truthful declared length changes the outcome.
  lemma ChunkingIsIrrelevant(d: Option<nat>, items: seq<Item>, d': Option<nat>, items': seq<Item>, limit: nat,
                             tooLarge: WebError, broken: WebError,
                             r: Result<Bytes, WebError>, r': Result<Bytes, WebError>)
    requires AllChunks(items) && AllChunks(items') && Concat(items) == Concat(items')
    requires d.Some? ==> d.value == |Concat(items)|
    requires d'.Some? ==> d'.value == |Concat(items)|
    requires Outcome(d, items, limit, tooLarge, broken, r) && Outcome(d', items', limit, tooLarge, broken, r')
    ensures r == r'
  {
    FitsExactly(d, items, limit, tooLarge, broken, r);
    FitsExactly(d', items', limit, tooLarge, broken, r');
  }

  lemma StopsOnce(items: seq<Item>, i: int, j: int, limit: nat)
    requires StopsAt(items, i, limit) && StopsAt(items, j, limit)
    ensures i == j
  {
    var (a, b) := if i <= j then (i, j) else (j, i);
    if a < b {
      assert items[..b][a] == items[a];
      assert items[..b][..a + 1] == items[..a + 1];
      PrefixConcat(items[..b], a + 1);
      ConcatSnoc(items, a);
    }
  }

  // The outcome is determined, errors in the stream included.
  lemma OutcomeIsUnique(declared: Option<nat>, items: seq<Item>, limit: nat, tooLarge: WebError, broken: WebError,
                        r: Result<Bytes, WebError>, r': Result<Bytes, WebError>)
    requires Outcome(declared, items, limit, tooLarge, broken, r)
    requires Outcome(declared, items, limit, tooLarge, broken, r')
    ensures r == r'
  {
    if !(declared.Some? && declared.value > limit) {
      if AllChunks(items) {
        FitsExactly(None, items, limit, tooLarge, broken, r);
        FitsExactly(None, items, limit, tooLarge, broken, r');
      } else {
        var i :| StopsAt(items, i, limit) && r.error == if items[i].Ok? then tooLarge else broken;
        var j :| StopsAt(items, j, limit) && r'.error == if items[j].Ok? then tooLarge else broken;
        StopsOnce(items, i, j, limit);
      }
    }
  }
}
