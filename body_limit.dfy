/**
 * The body-size gate. Each request gets a limit, taken from the first route
 * override whose prefix matches its path or else from the default. The gate
 * then follows the body stream chunk by chunk. The first chunk that takes
 * the running total over the limit stops the stream with a 413. At the end
 * of a body that fits, the limit and the remaining allowance are reported
 * in response headers.
 */
module BodyLimit {
  import opened Wrappers
  import opened Text
  import opened HttpErrors
  import opened Http

  /** A body chunk as received from the socket. */
  type Chunk = seq<bv8>

  datatype BodyLimitOptions = BodyLimitOptions(defaultLimit: nat, routeOverrides: Option<seq<(string, nat)>>)

  const LimitHeader: string := "X-Body-Limit-Bytes"
  const RemainingHeader: string := "X-Body-Remaining-Bytes"

  /** The limit for a path: the first matching override's, or the default. */
  function LimitFor(opts: BodyLimitOptions, path: string): nat {
    FirstMatch(opts.routeOverrides.GetOr([]), path).GetOr(opts.defaultLimit)
  }

  /** `selectLimit(path)`: the first override in list order whose prefix the path starts with. */
  method SelectLimit(opts: BodyLimitOptions, path: string) returns (limit: nat)
    ensures limit == LimitFor(opts, path)
  {
    var overrides := opts.routeOverrides.GetOr([]);
    var i := 0;
    while i < |overrides|
      invariant 0 <= i <= |overrides|
      invariant forall j :: 0 <= j < i ==> !StartsWith(path, overrides[j].0)
    {
      var (prefix, l) := overrides[i];
      if StartsWith(path, prefix) {
        assert IsFirstMatch(overrides, path, i);
        FirstMatchAt(overrides, path, i);
        return l;
      }
      i := i + 1;
    }
    return opts.defaultLimit;
  }

  /** The number of bytes in a sequence of chunks. */
  function TotalLength(cs: seq<Chunk>): nat {
    if cs == [] then 0 else TotalLength(cs[..|cs| - 1]) + |cs[|cs| - 1]|
  }

  lemma TotalLengthSnoc(cs: seq<Chunk>, c: Chunk)
    ensures TotalLength(cs + [c]) == TotalLength(cs) + |c|
  {
    assert (cs + [c])[..|cs|] == cs;
  }

  /** A prefix of the stream never holds more bytes than the stream. */
  lemma {:induction false} TotalLengthPrefix(cs: seq<Chunk>, j: nat)
    requires j <= |cs|
    ensures TotalLength(cs[..j]) <= TotalLength(cs)
    decreases |cs|
  {
    if j < |cs| {
      var init := cs[..|cs| - 1];
      assert cs[..j] == init[..j];
      TotalLengthPrefix(init, j);
    } else {
      assert cs[..j] == cs;
    }
  }

  /** `Math.max(x, 0)`. */
  function MaxZero(x: int): (r: nat)
    ensures r == x || (x < 0 && r == 0)
  {
    if x > 0 then x else 0
  }

  function TooLarge(limit: nat): AppError {
    Raise(RequestBodyTooLarge, Some("Request body exceeds limit of " + NatToString(limit) + " bytes."))
  }

  /** The per-request state shared by the `data` and `end` handlers. */
  class BodyLimit {
    const limit: nat
    var total: nat
    var chunks: seq<Chunk>
    var limitExceeded: bool
    /** Every chunk the data handler has counted, in arrival order. */
    ghost var received: seq<Chunk>

    /**
     * `total` counts every chunk received so far. Until the limit is
     * exceeded the buffered chunks are exactly those chunks; afterwards,
     * all but the one that crossed the limit.
     */
    ghost predicate Valid()
      reads this
    {
      total == TotalLength(received) &&
      (!limitExceeded ==> chunks == received && total <= limit) &&
      (limitExceeded ==> total > limit && |received| > 0 && chunks == received[..|received| - 1])
    }

    constructor (limit: nat)
      ensures this.limit == limit && total == 0 && chunks == [] && !limitExceeded
      ensures received == [] && Valid()
    {
      this.limit := limit;
      total := 0;
      chunks := [];
      limitExceeded := false;
      received := [];
    }

    /** The `data` handler. */
    method OnData(chunk: Chunk, req: Request, res: Response) returns (err: Option<AppError>)
      requires Valid()
      modifies this, req, res
      ensures Valid()
      ensures old(limitExceeded) || old(res.headersSent) ==> err.None? && unchanged(this, req, res)
      ensures !old(limitExceeded) && !old(res.headersSent) ==>
        received == old(received) + [chunk] && total == old(total) + |chunk|
      ensures !old(limitExceeded) && !old(res.headersSent) && old(total) + |chunk| > limit ==>
        limitExceeded && chunks == old(chunks) && err == Some(TooLarge(limit)) &&
        req.paused && req.headers == old(req.headers) &&
        res.headers == old(res.headers)[LimitHeader := NatToString(limit)][RemainingHeader := "0"] &&
        res.headersSent == old(res.headersSent) && res.statusCode == old(res.statusCode) && res.ended == old(res.ended)
      ensures !old(limitExceeded) && !old(res.headersSent) && old(total) + |chunk| <= limit ==>
        !limitExceeded && chunks == old(chunks) + [chunk] && err.None? && unchanged(req, res)
    {
      if limitExceeded || res.headersSent {
        return None;
      }
      TotalLengthSnoc(received, chunk);
      received := received + [chunk];
      total := total + |chunk|;
      if total > limit {
        limitExceeded := true;
        assert received[..|received| - 1] == old(received);
        req.Pause();
        res.SetHeader(LimitHeader, NatToString(limit));
        res.SetHeader(RemainingHeader, "0");
        return Some(TooLarge(limit));
      }
      chunks := chunks + [chunk];
      err := None;
    }

    /** The `end` handler: `X-Body-Remaining-Bytes` is `max(limit - total, 0)`. */
    method OnEnd(res: Response)
      requires Valid()
      modifies res
      ensures limitExceeded || old(res.headersSent) ==> unchanged(res)
      ensures !limitExceeded && !old(res.headersSent) ==>
        res.headers == old(res.headers)[LimitHeader := NatToString(limit)]
                                       [RemainingHeader := NatToString(limit - total)] &&
        res.headersSent == old(res.headersSent) && res.statusCode == old(res.statusCode) && res.ended == old(res.ended)
    {
      if limitExceeded || res.headersSent {
        return;
      }
      var remaining := MaxZero(limit - total);
      res.SetHeader(LimitHeader, NatToString(limit));
      res.SetHeader(RemainingHeader, NatToString(remaining));
    }
  }

  /** `bodyLimit(req, res, next)`: installs the handlers and calls `next()` at once. */
  method Install(opts: BodyLimitOptions, req: Request) returns (gate: BodyLimit, o: Outcome)
    ensures fresh(gate) && gate.Valid() && gate.limit == LimitFor(opts, req.path)
    ensures gate.total == 0 && gate.chunks == [] && !gate.limitExceeded
    ensures o == Continue
  {
    var limit := SelectLimit(opts, req.path);
    gate := new BodyLimit(limit);
    o := Continue;
  }

  /** The index of the chunk that first takes the running total over `limit`. */
  predicate CrossesAt(stream: seq<Chunk>, limit: nat, k: int) {
    0 <= k < |stream| && TotalLength(stream[..k]) <= limit < TotalLength(stream[..k + 1])
  }

  /**
   * A whole body delivered to a fresh gate on a response nobody has sent:
   * every chunk in order, then the end of the stream. It returns the errors
   * passed to `next`, the buffered chunks and the final response headers.
   */
  method Deliver(opts: BodyLimitOptions, path: string, stream: seq<Chunk>)
    returns (errors: seq<AppError>, buffered: seq<Chunk>, headers: map<string, string>)
    ensures errors == [] <==> TotalLength(stream) <= LimitFor(opts, path)
    ensures errors == [] ==>
      buffered == stream &&
      headers == map[LimitHeader := NatToString(LimitFor(opts, path)),
                     RemainingHeader := NatToString(LimitFor(opts, path) - TotalLength(stream))]
    ensures errors != [] ==>
      errors == [TooLarge(LimitFor(opts, path))] &&
      headers == map[LimitHeader := NatToString(LimitFor(opts, path)), RemainingHeader := "0"] &&
      exists k :: CrossesAt(stream, LimitFor(opts, path), k) && buffered == stream[..k]
  {
    var req := new Request("POST", path, path, None, None, []);
    var res := new Response(map[]);
    var gate, _ := Install(opts, req);
    ghost var limit := gate.limit;
    ghost var k := 0;
    errors := [];
    var i := 0;
    while i < |stream|
      invariant 0 <= i <= |stream|
      invariant gate.Valid() && gate.limit == limit && !res.headersSent
      invariant !gate.limitExceeded ==> gate.received == stream[..i] && errors == [] && res.headers == map[]
      invariant gate.limitExceeded ==>
        CrossesAt(stream, limit, k) && k < i && gate.received == stream[..k + 1] &&
        errors == [TooLarge(limit)] &&
        res.headers == map[LimitHeader := NatToString(limit), RemainingHeader := "0"]
    {
      ghost var wasExceeded := gate.limitExceeded;
      var err := gate.OnData(stream[i], req, res);
      if !wasExceeded {
        assert stream[..i + 1] == stream[..i] + [stream[i]];
        if gate.limitExceeded {
          k := i;
        }
      }
      if err.Some? {
        errors := errors + [err.value];
      }
      i := i + 1;
    }
    assert stream[..|stream|] == stream;
    if gate.limitExceeded {
      TotalLengthPrefix(stream, k + 1);
    }
    buffered := gate.chunks;
    gate.OnEnd(res);
    headers := res.headers;
  }
}
