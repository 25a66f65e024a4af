/**
 * The header limiter: a ceiling on the number of header fields, on the
 * UTF-8 size of each (name, value) pair and on the sum of those sizes, and
 * a ban on chunked `Transfer-Encoding` unless explicitly allowed. The
 * headers themselves are never changed.
 */
module HeaderLimit {
  import opened Wrappers
  import opened Text
  import opened HttpErrors
  import opened Http

  datatype HeaderLimits = HeaderLimits(
    maxHeaderCount: nat,
    maxSingleHeaderBytes: nat,
    maxTotalHeaderBytes: nat,
    allowChunked: bool)

  /** The limits used when none are configured. */
  const DefaultLimits: HeaderLimits := HeaderLimits(100, 4096, 8192, false)

  /** The pairs of one entry: its name with each element of its value list. */
  function EntryPairs(name: string, values: seq<string>): (ps: seq<(string, string)>)
    ensures |ps| == |values| && forall k :: 0 <= k < |values| ==> ps[k] == (name, values[k])
  {
    seq(|values|, k requires 0 <= k < |values| => (name, values[k]))
  }

  /** Every (name, value) pair of the header object, one per array element, in iteration order. */
  function Pairs(h: Headers): seq<(string, string)> {
    if h == [] then [] else EntryPairs(h[0].0, ValueList(h[0].1)) + Pairs(h[1..])
  }

  /** `Buffer.byteLength(name) + Buffer.byteLength(value)`. */
  function PairSize(p: (string, string)): nat {
    Utf8Length(p.0) + Utf8Length(p.1)
  }

  function TotalBytes(ps: seq<(string, string)>): nat {
    if ps == [] then 0 else PairSize(ps[0]) + TotalBytes(ps[1..])
  }

  predicate AllWithin(ps: seq<(string, string)>, max: nat) {
    forall k :: 0 <= k < |ps| ==> PairSize(ps[k]) <= max
  }

  /** `transfer-encoding` is a string that contains "chunked" in any letter case; an array value is not examined. */
  predicate ChunkedRequested(v: HeaderValue) {
    v.Single? && Contains(Lower(v.s), "chunked")
  }

  function TooManyHeaders(l: HeaderLimits): (e: AppError)
    ensures e.status() == 431
  {
    Raise(RequestHeaderFieldsTooLarge, Some("Too many headers (limit = " + NatToString(l.maxHeaderCount) + ")."))
  }

  function HeaderTooLarge(l: HeaderLimits): (e: AppError)
    ensures e.status() == 431
  {
    Raise(RequestHeaderFieldsTooLarge,
      Some("Header exceeds per-header size limit (" + NatToString(l.maxSingleHeaderBytes) + " bytes)."))
  }

  function HeadersTooLarge(l: HeaderLimits): (e: AppError)
    ensures e.status() == 431
  {
    Raise(RequestHeaderFieldsTooLarge,
      Some("Total header size exceeds limit (" + NatToString(l.maxTotalHeaderBytes) + " bytes)."))
  }

  function ChunkedNotAllowed(): (e: AppError)
    ensures e.status() == 501
  {
    Raise(UnsupportedTransferEncoding, Some("Chunked request bodies are not allowed."))
  }

  /**
   * What the limiter decides for a header object: the count first, then the
   * size of every pair, then the total, then the transfer encoding.
   */
  function LimitCheck(l: HeaderLimits, h: Headers): (o: Outcome)
    ensures o == Continue || o.Fail?
    ensures o.Fail? ==> o.error.status() == 431 || (o.error.status() == 501 && !l.allowChunked)
    ensures |h| > l.maxHeaderCount ==> o.Fail? && o.error.status() == 431
  {
    if |h| > l.maxHeaderCount then Fail(TooManyHeaders(l))
    else if !AllWithin(Pairs(h), l.maxSingleHeaderBytes) then Fail(HeaderTooLarge(l))
    else if TotalBytes(Pairs(h)) > l.maxTotalHeaderBytes then Fail(HeadersTooLarge(l))
    else if !l.allowChunked && ChunkedRequested(Lookup(h, "transfer-encoding")) then Fail(ChunkedNotAllowed())
    else Continue
  }

  lemma {:induction false} PairsAppend(a: Headers, b: Headers)
    ensures Pairs(a + b) == Pairs(a) + Pairs(b)
  {
    if a == [] {
      assert a + b == b;
    } else {
      assert (a + b)[0] == a[0] && (a + b)[1..] == a[1..] + b;
      PairsAppend(a[1..], b);
    }
  }

  lemma {:induction false} TotalBytesAppend(a: seq<(string, string)>, b: seq<(string, string)>)
    ensures TotalBytes(a + b) == TotalBytes(a) + TotalBytes(b)
  {
    if a == [] {
      assert a + b == b;
    } else {
      assert (a + b)[0] == a[0] && (a + b)[1..] == a[1..] + b;
      TotalBytesAppend(a[1..], b);
    }
  }

  lemma {:induction false} PairsSnoc(h: Headers, i: nat)
    requires i < |h|
    ensures Pairs(h[..i + 1]) == Pairs(h[..i]) + EntryPairs(h[i].0, ValueList(h[i].1))
  {
    assert h[..i + 1] == h[..i] + [h[i]];
    PairsAppend(h[..i], [h[i]]);
    assert [h[i]][1..] == [];
  }

  lemma {:induction false} EntryPairsSnoc(name: string, vs: seq<string>, j: nat)
    requires j < |vs|
    ensures EntryPairs(name, vs[..j + 1]) == EntryPairs(name, vs[..j]) + [(name, vs[j])]
    ensures TotalBytes(EntryPairs(name, vs[..j + 1])) == TotalBytes(EntryPairs(name, vs[..j])) + PairSize((name, vs[j]))
  {
    assert EntryPairs(name, vs[..j + 1]) == EntryPairs(name, vs[..j]) + [(name, vs[j])];
    TotalBytesAppend(EntryPairs(name, vs[..j]), [(name, vs[j])]);
    assert [(name, vs[j])][1..] == [];
  }

  lemma {:induction false} AllWithinAppend(a: seq<(string, string)>, b: seq<(string, string)>, max: nat)
    ensures AllWithin(a + b, max) <==> AllWithin(a, max) && AllWithin(b, max)
  {
    assert forall k :: 0 <= k < |a| ==> (a + b)[k] == a[k];
    assert forall k :: 0 <= k < |b| ==> (a + b)[|a| + k] == b[k];
  }

  /** An entry with an oversize pair makes the whole header object oversize. */
  lemma {:induction false} OversizeEntry(h: Headers, i: nat, max: nat)
    requires i < |h| && !AllWithin(EntryPairs(h[i].0, ValueList(h[i].1)), max)
    ensures !AllWithin(Pairs(h), max)
  {
    if AllWithin(Pairs(h), max) {
      EntryWithinAt(h, i, max);
    }
  }

  /** Entry i's pairs are among the pairs of the whole object. */
  lemma {:induction false} EntryWithinAt(h: Headers, i: nat, max: nat)
    requires i < |h| && AllWithin(Pairs(h), max)
    ensures AllWithin(EntryPairs(h[i].0, ValueList(h[i].1)), max)
  {
    PairsAround(h, i);
    MiddleWithin(Pairs(h[..i]), EntryPairs(h[i].0, ValueList(h[i].1)), Pairs(h[i + 1..]), max);
  }

  /** The pairs of a header object are those before entry i, entry i's, and those after. */
  lemma {:induction false} PairsAround(h: Headers, i: nat)
    requires i < |h|
    ensures Pairs(h) == Pairs(h[..i]) + EntryPairs(h[i].0, ValueList(h[i].1)) + Pairs(h[i + 1..])
  {
    var pre, post := h[..i + 1], h[i + 1..];
    assert pre + post == h;
    PairsAppend(pre, post);
    PairsSnoc(h, i);
  }

  lemma {:induction false} MiddleWithin(a: seq<(string, string)>, e: seq<(string, string)>, b: seq<(string, string)>, max: nat)
    requires AllWithin(a + e + b, max)
    ensures AllWithin(e, max)
  {
    forall k | 0 <= k < |e|
      ensures PairSize(e[k]) <= max
    {
      assert (a + e + b)[|a| + k] == e[k];
    }
  }

  /** Taking one more entry adds its pairs to the total and to the pairs checked. */
  lemma {:induction false} NextEntry(h: Headers, i: nat, max: nat)
    requires i < |h|
    ensures var e := EntryPairs(h[i].0, ValueList(h[i].1));
      TotalBytes(Pairs(h[..i + 1])) == TotalBytes(Pairs(h[..i])) + TotalBytes(e) &&
      (AllWithin(Pairs(h[..i + 1]), max) <==> AllWithin(Pairs(h[..i]), max) && AllWithin(e, max))
  {
    var e := EntryPairs(h[i].0, ValueList(h[i].1));
    PairsSnoc(h, i);
    TotalBytesAppend(Pairs(h[..i]), e);
    AllWithinAppend(Pairs(h[..i]), e, max);
  }

  /**
   * The limiter's inner loop over one entry's value list: the bytes of its
   * pairs, stopping at the first pair over the per-header limit.
   */
  method ScanEntry(l: HeaderLimits, key: string, values: seq<string>) returns (tooLarge: bool, bytes: nat)
    ensures tooLarge <==> !AllWithin(EntryPairs(key, values), l.maxSingleHeaderBytes)
    ensures !tooLarge ==> bytes == TotalBytes(EntryPairs(key, values))
  {
    var keyBytes := Utf8Length(key);
    bytes := 0;
    var j := 0;
    while j < |values|
      invariant 0 <= j <= |values|
      invariant bytes == TotalBytes(EntryPairs(key, values[..j]))
      invariant AllWithin(EntryPairs(key, values[..j]), l.maxSingleHeaderBytes)
    {
      var size := keyBytes + Utf8Length(values[j]);
      EntryPairsSnoc(key, values, j);
      bytes := bytes + size;
      if size > l.maxSingleHeaderBytes {
        assert EntryPairs(key, values)[j] == (key, values[j]);
        return true, bytes;
      }
      AllWithinAppend(EntryPairs(key, values[..j]), [(key, values[j])], l.maxSingleHeaderBytes);
      j := j + 1;
    }
    assert values[..j] == values;
    tooLarge := false;
  }

  /** The limiter's outer loop over the entries, accumulating `totalBytes`. */
  method ScanPairs(l: HeaderLimits, h: Headers) returns (tooLarge: bool, totalBytes: nat)
    ensures tooLarge <==> !AllWithin(Pairs(h), l.maxSingleHeaderBytes)
    ensures !tooLarge ==> totalBytes == TotalBytes(Pairs(h))
  {
    totalBytes := 0;
    var i := 0;
    while i < |h|
      invariant 0 <= i <= |h|
      invariant totalBytes == TotalBytes(Pairs(h[..i]))
      invariant AllWithin(Pairs(h[..i]), l.maxSingleHeaderBytes)
    {
      var (key, value) := h[i];
      var entryTooLarge, bytes := ScanEntry(l, key, ValueList(value));
      if entryTooLarge {
        OversizeEntry(h, i, l.maxSingleHeaderBytes);
        return true, totalBytes + bytes;
      }
      NextEntry(h, i, l.maxSingleHeaderBytes);
      totalBytes := totalBytes + bytes;
      i := i + 1;
    }
    assert h[..i] == h;
    tooLarge := false;
  }

  /** The header limiter: the count, the pairs, the total, then the transfer encoding. Nothing is modified. */
  method Check(l: HeaderLimits, h: Headers) returns (o: Outcome)
    ensures o == LimitCheck(l, h)
  {
    if |h| > l.maxHeaderCount {
      return Fail(TooManyHeaders(l));
    }
    var tooLarge, totalBytes := ScanPairs(l, h);
    if tooLarge {
      return Fail(HeaderTooLarge(l));
    }
    if totalBytes > l.maxTotalHeaderBytes {
      return Fail(HeadersTooLarge(l));
    }
    var transferEncoding := Lookup(h, "transfer-encoding");
    if !l.allowChunked && ChunkedRequested(transferEncoding) {
      return Fail(ChunkedNotAllowed());
    }
    o := Continue;
  }

  /** Too many fields is reported before any size is looked at. */
  lemma CountCheckedFirst(l: HeaderLimits, h: Headers)
    requires |h| > l.maxHeaderCount
    ensures LimitCheck(l, h) == Fail(AppError(RequestHeaderFieldsTooLarge,
      "Too many headers (limit = " + NatToString(l.maxHeaderCount) + ")."))
  {
  }

  /** An oversize pair is reported even when the total is also over its limit. */
  lemma PairCheckedBeforeTotal(l: HeaderLimits, h: Headers)
    requires |h| <= l.maxHeaderCount && !AllWithin(Pairs(h), l.maxSingleHeaderBytes)
    ensures LimitCheck(l, h) == Fail(AppError(RequestHeaderFieldsTooLarge,
      "Header exceeds per-header size limit (" + NatToString(l.maxSingleHeaderBytes) + " bytes)."))
  {
  }

  /** Under the defaults, a string `transfer-encoding` mentioning chunked is refused with 501 once the sizes pass. */
  lemma DefaultsRejectChunked(h: Headers, te: string)
    requires |h| <= 100 && AllWithin(Pairs(h), 4096) && TotalBytes(Pairs(h)) <= 8192
    requires Lookup(h, "transfer-encoding") == Single(te) && Contains(Lower(te), "chunked")
    ensures LimitCheck(DefaultLimits, h) == Fail(AppError(UnsupportedTransferEncoding, "Chunked request bodies are not allowed."))
    ensures LimitCheck(DefaultLimits, h).error.status() == 501
  {
  }

  /** The limits are inclusive: a request exactly at every limit passes. */
  lemma LimitsAreInclusive(l: HeaderLimits, h: Headers)
    requires |h| == l.maxHeaderCount
    requires forall k :: 0 <= k < |Pairs(h)| ==> PairSize(Pairs(h)[k]) == l.maxSingleHeaderBytes
    requires TotalBytes(Pairs(h)) == l.maxTotalHeaderBytes
    requires Lookup(h, "transfer-encoding") == Missing
    ensures LimitCheck(l, h) == Continue
  {
  }

  /** An array-valued `transfer-encoding` is never rejected as chunked. */
  lemma ArrayTransferEncodingNotChecked(l: HeaderLimits, h: Headers)
    requires Lookup(h, "transfer-encoding").Multi?
    ensures LimitCheck(l, h) != Fail(ChunkedNotAllowed())
  {
    assert ChunkedNotAllowed().cls == UnsupportedTransferEncoding;
  }

  lemma {:induction false} AllWithinTail(ps: seq<(string, string)>, max: nat)
    requires ps != [] && AllWithin(ps, max)
    ensures PairSize(ps[0]) <= max && AllWithin(ps[1..], max)
  {
    assert forall k :: 0 <= k < |ps[1..]| ==> ps[1..][k] == ps[k + 1];
  }

  /** When every pair is within the per-header limit, the total is at most the number of pairs times that limit. */
  lemma {:induction false} TotalWithinPairBound(ps: seq<(string, string)>, max: nat)
    requires AllWithin(ps, max)
    ensures TotalBytes(ps) <= |ps| * max
  {
    if ps != [] {
      AllWithinTail(ps, max);
      TotalWithinPairBound(ps[1..], max);
      var n := |ps[1..]|;
      assert TotalBytes(ps) == PairSize(ps[0]) + TotalBytes(ps[1..]);
      MulSucc(n, max);
    }
  }

  lemma MulSucc(n: nat, m: nat)
    ensures (n + 1) * m == n * m + m
  {
  }
}
